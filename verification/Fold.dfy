/** Folding trace trees by span path (internal/span/fold.go, internal/span/span.go): what the folded
    tree holds, and why neither the order of folding nor how it is split up matters. */
module Fold {

  /** A timed node of a trace. Durations are whole nanoseconds, without a width. */
  datatype Span = Span(name: string, duration: int, children: seq<Span>)

  /** What folding sums at one path. */
  datatype Sums = Sums(count: nat, total: int, self: int)

  datatype Node = Node(sums: Sums, children: map<string, Node>)

  const ZERO := Sums(0, 0, 0)
  const EMPTY := Node(ZERO, map[])

  function Plus(a: Sums, b: Sums): Sums {
    Sums(a.count + b.count, a.total + b.total, a.self + b.self)
  }

  /** The time a span's children take. */
  function ChildTime(children: seq<Span>): int {
    if children == [] then 0 else children[0].duration + ChildTime(children[1..])
  }

  /** A span's duration minus its children's, never below zero. */
  function SelfTime(sp: Span): int {
    if ChildTime(sp.children) > sp.duration then 0 else sp.duration - ChildTime(sp.children)
  }

  function One(sp: Span): Sums {
    Sums(1, sp.duration, SelfTime(sp))
  }

  // ---------------------------------------------------------------- folding and merging

  function Child(n: Node, name: string): Node {
    if name in n.children then n.children[name] else EMPTY
  }

  function Bump(n: Node, s: Sums): Node {
    n.(sums := Plus(n.sums, s))
  }

  /** Fold one trace in, below `n`. */
  function Add(n: Node, sp: Span): Node
    decreases sp
  {
    n.(children := n.children[sp.name := AddAll(Bump(Child(n, sp.name), One(sp)), sp.children)])
  }

  function AddAll(n: Node, spans: seq<Span>): Node
    decreases spans
  {
    if spans == [] then n else AddAll(Add(n, spans[0]), spans[1..])
  }

  /** Fold the children of `s` named in `names` into `d`; the sums of the two themselves stay. */
  function MergeSome(d: Node, s: Node, names: set<string>): Node
    requires names <= s.children.Keys
    decreases s
  {
    d.(children := map k | k in d.children.Keys + names ::
      if k in names then
        MergeSome(Bump(Child(d, k), s.children[k].sums), s.children[k], s.children[k].children.Keys)
      else d.children[k])
  }

  function Merge(d: Node, s: Node): Node {
    MergeSome(d, s, s.children.Keys)
  }

  // ---------------------------------------------------------------- what a folded tree holds

  /** The spans whose chain of names from the root is `path`. */
  function AtPath(spans: seq<Span>, path: seq<string>): seq<Span>
    decreases |path|, |spans|
  {
    if spans == [] || path == [] then []
    else if spans[0].name != path[0] then AtPath(spans[1..], path)
    else (if |path| == 1 then [spans[0]] else AtPath(spans[0].children, path[1..])) + AtPath(spans[1..], path)
  }

  function Tally(spans: seq<Span>): Sums {
    if spans == [] then ZERO else Plus(One(spans[0]), Tally(spans[1..]))
  }

  function At(n: Node, path: seq<string>): Sums {
    if path == [] then n.sums else if path[0] in n.children then At(n.children[path[0]], path[1..]) else ZERO
  }

  predicate Has(n: Node, path: seq<string>) {
    path == [] || (path[0] in n.children && Has(n.children[path[0]], path[1..]))
  }

  /** A span counts once, with all of its time; what its children leave of it is its own, and nothing is when
      they outlast it. */
  lemma OneTold(sp: Span)
    ensures One(sp).count == 1 && One(sp).total == sp.duration && One(sp).self >= 0
    ensures ChildTime(sp.children) <= sp.duration ==> One(sp).self + ChildTime(sp.children) == sp.duration
    ensures ChildTime(sp.children) >= sp.duration ==> One(sp).self == 0
  {
  }

  lemma {:induction false} ChildTimeThen(a: seq<Span>, b: seq<Span>, sp: Span)
    ensures ChildTime(a + b) == ChildTime(a) + ChildTime(b) && ChildTime([sp]) == sp.duration
    decreases |a|
  {
    if a == [] {
      assert a + b == b;
    } else {
      assert (a + b)[1..] == a[1..] + b;
      ChildTimeThen(a[1..], b, sp);
    }
  }

  lemma {:induction false} TallyAppend(a: seq<Span>, b: seq<Span>)
    ensures Tally(a + b) == Plus(Tally(a), Tally(b))
    decreases |a|
  {
    hide One;
    if a == [] {
      assert a + b == b;
    } else {
      var ab := a + b;
      assert ab[1..] == a[1..] + b && ab[0] == a[0];
      assert Tally(ab) == Plus(One(a[0]), Tally(ab[1..]));
      TallyAppend(a[1..], b);
      assert Tally(a) == Plus(One(a[0]), Tally(a[1..]));
    }
  }

  lemma {:induction false} AtPathAppend(a: seq<Span>, b: seq<Span>, path: seq<string>)
    ensures AtPath(a + b, path) == AtPath(a, path) + AtPath(b, path)
    decreases |a|
  {
    if a == [] {
      assert a + b == b;
    } else {
      AtPathAppend(a[1..], b, path);
      assert (a + b)[1..] == a[1..] + b;
    }
  }

  lemma AtChild(n: Node, k: string, path: seq<string>)
    requires path != [] && path[0] == k
    ensures At(n, path) == (if |path| == 1 then Child(n, k).sums else At(Child(n, k), path[1..]))
    ensures Has(n, path) <==> k in n.children && Has(Child(n, k), path[1..])
  {
    if |path| > 1 {
      EmptyAt(path[1..]);
    }
    if k in n.children && |path| == 1 {
      assert path[1..] == [];
    }
  }

  lemma AtBump(n: Node, x: Sums, path: seq<string>)
    ensures At(Bump(n, x), path) == (if path == [] then Plus(n.sums, x) else At(n, path))
    ensures Has(Bump(n, x), path) <==> Has(n, path)
  {
  }

  lemma AtPathOne(sp: Span, path: seq<string>)
    requires path != [] && path[0] == sp.name
    ensures AtPath([sp], path) == if |path| == 1 then [sp] else AtPath(sp.children, path[1..])
  {
    assert [sp][1..] == [] && AtPath([], path) == [];
  }

  lemma TallyOne(sp: Span)
    ensures Tally([sp]) == One(sp)
  {
    hide One;
    assert [sp][1..] == [];
  }

  lemma AddElsewhere(n: Node, sp: Span, path: seq<string>)
    requires path == [] || path[0] != sp.name
    ensures At(Add(n, sp), path) == At(n, path) && (Has(Add(n, sp), path) <==> Has(n, path))
    ensures AtPath([sp], path) == [] && Tally([]) == ZERO
  {
    hide AddAll, One, Bump, Child;
    assert [sp][1..] == [];
  }

  lemma AddHere(n: Node, sp: Span)
    ensures Child(Add(n, sp), sp.name) == AddAll(Bump(Child(n, sp.name), One(sp)), sp.children)
    ensures sp.name in Add(n, sp).children
  {
    hide AddAll, One;
  }

  lemma {:induction false} AddAt(n: Node, sp: Span, path: seq<string>)
    ensures At(Add(n, sp), path) == Plus(At(n, path), Tally(AtPath([sp], path)))
    ensures Has(Add(n, sp), path) <==> Has(n, path) || AtPath([sp], path) != []
    decreases |path|, 0
  {
    hide One, AddAll, Add, At, Has, AtPath, Tally, Child, Bump;
    if path == [] || path[0] != sp.name {
      AddElsewhere(n, sp, path);
    } else {
      var c := Child(n, sp.name);
      AddHere(n, sp);
      AddAllAt(Bump(c, One(sp)), sp.children, path[1..]);
      AtBump(c, One(sp), path[1..]);
      AtChild(Add(n, sp), sp.name, path);
      AtChild(n, sp.name, path);
      AtPathOne(sp, path);
      if |path| == 1 {
        assert path[1..] == [];
        TallyOne(sp);
        HasRoot(Child(Add(n, sp), sp.name));
        NoSpanAtRoot(sp.children);
        AtBump(c, One(sp), []);
      } else {
        NewChild(n, sp.name, path[1..]);
      }
    }
  }

  lemma HasRoot(n: Node)
    ensures Has(n, []) && At(n, []) == n.sums
  {
  }

  lemma NewChild(n: Node, k: string, path: seq<string>)
    requires path != []
    ensures Has(Child(n, k), path) ==> k in n.children
  {
  }

  /** What a fold adds at a path is what the spans at that path come to. */
  lemma {:induction false} AddAllAt(n: Node, spans: seq<Span>, path: seq<string>)
    ensures At(AddAll(n, spans), path) == Plus(At(n, path), Tally(AtPath(spans, path)))
    ensures Has(AddAll(n, spans), path) <==> Has(n, path) || AtPath(spans, path) != []
    decreases |path|, 1 + |spans|
  {
    hide Add, At, Has, Tally, AtPath;
    if spans == [] {
      NothingAt(path);
    } else {
      AddAt(n, spans[0], path);
      AddAllAt(Add(n, spans[0]), spans[1..], path);
      assert spans == [spans[0]] + spans[1..];
      AtPathAppend([spans[0]], spans[1..], path);
      TallyAppend(AtPath([spans[0]], path), AtPath(spans[1..], path));
    }
  }

  lemma NothingAt(path: seq<string>)
    ensures AtPath([], path) == [] && Tally([]) == ZERO
  {
  }

  lemma MergeChild(d: Node, s: Node, k: string)
    ensures k in Merge(d, s).children <==> k in d.children || k in s.children
    ensures k in s.children ==> Child(Merge(d, s), k) == Merge(Bump(Child(d, k), s.children[k].sums), s.children[k])
    ensures k !in s.children ==> Child(Merge(d, s), k) == Child(d, k)
  {
    hide Bump;
  }

  /** Merging adds up, path by path, below the roots. */
  lemma {:induction false} MergeAt(d: Node, s: Node, path: seq<string>)
    requires path != []
    ensures At(Merge(d, s), path) == Plus(At(d, path), At(s, path))
    ensures Has(Merge(d, s), path) <==> Has(d, path) || Has(s, path)
    decreases |path|
  {
    hide Merge, At, Has, Child, Bump;
    var k, rest := path[0], path[1..];
    MergeChild(d, s, k);
    AtChild(Merge(d, s), k, path);
    AtChild(d, k, path);
    AtChild(s, k, path);
    if k in s.children {
      ChildIs(s, k);
      var dc, sc := Child(d, k), s.children[k];
      AtBump(dc, sc.sums, rest);
      if rest == [] {
        HasRoot(Merge(Bump(dc, sc.sums), sc));
        HasRoot(Bump(dc, sc.sums));
        HasRoot(sc);
        RootStays(Bump(dc, sc.sums), sc);
      } else {
        MergeAt(Bump(dc, sc.sums), sc, rest);
        NewChild(d, k, rest);
      }
    } else {
      ChildIs(s, k);
      EmptyAt(rest);
    }
  }

  lemma ChildIs(n: Node, k: string)
    ensures Child(n, k) == if k in n.children then n.children[k] else EMPTY
  {
  }

  /** Two trees with the same paths and the same sums at each are the same tree. */
  lemma {:induction false} SameTree(a: Node, b: Node)
    requires forall p :: At(a, p) == At(b, p) && (Has(a, p) <==> Has(b, p))
    ensures a == b
    decreases a
  {
    assert At(a, []) == At(b, []);
    forall k
      ensures k in a.children <==> k in b.children
    {
      assert Has(a, [k]) <==> Has(b, [k]);
      assert [k][1..] == [];
    }
    forall k | k in a.children
      ensures a.children[k] == b.children[k]
    {
      forall p
        ensures At(a.children[k], p) == At(b.children[k], p) && (Has(a.children[k], p) <==> Has(b.children[k], p))
      {
        var q := [k] + p;
        assert q[1..] == p;
        assert At(a, q) == At(b, q) && (Has(a, q) <==> Has(b, q));
      }
      SameTree(a.children[k], b.children[k]);
    }
    assert a.children == b.children;
  }

  // ---------------------------------------------------------------- order and grouping do not matter

  /** All traces folded into an empty tree. */
  function Folded(traces: seq<Span>): Node {
    AddAll(EMPTY, traces)
  }

  /** Every node holds exactly the count, total and self time of the spans at its path, and there is a
      node where there is a span. */
  lemma FoldedHolds(traces: seq<Span>, path: seq<string>)
    ensures At(Folded(traces), path) == Tally(AtPath(traces, path))
    ensures Has(Folded(traces), path) <==> path == [] || AtPath(traces, path) != []
  {
    hide AddAll, Tally, AtPath;
    AddAllAt(EMPTY, traces, path);
    EmptyAt(path);
  }

  lemma EmptyAt(path: seq<string>)
    ensures At(EMPTY, path) == ZERO && (Has(EMPTY, path) <==> path == [])
  {
  }

  lemma Without(a: seq<Span>, b: seq<Span>) returns (i: nat)
    requires multiset(a) == multiset(b) && a != []
    ensures i < |b| && b[i] == a[0] && multiset(b[..i] + b[i + 1..]) == multiset(a[1..])
  {
    assert a[0] in multiset(a);
    assert a[0] in multiset(b);
    i :| 0 <= i < |b| && b[i] == a[0];
    assert a[..0] + a[1..] == a[1..];
    Removed(a, 0);
    Removed(b, i);
  }

  lemma Removed(s: seq<Span>, i: nat)
    requires i < |s|
    ensures multiset(s[..i] + s[i + 1..]) == multiset(s) - multiset{s[i]}
  {
    assert s == s[..i] + [s[i]] + s[i + 1..];
  }

  lemma {:induction false} TallyPermuted(a: seq<Span>, b: seq<Span>, path: seq<string>)
    requires multiset(a) == multiset(b)
    ensures Tally(AtPath(a, path)) == Tally(AtPath(b, path))
    ensures AtPath(a, path) == [] <==> AtPath(b, path) == []
    decreases |a|
  {
    hide AtPath, Tally;
    if a == [] {
      assert b == [] by {
        assert |multiset(a)| == |multiset(b)|;
      }
    } else {
      var i := Without(a, b);
      TallyPermuted(a[1..], b[..i] + b[i + 1..], path);
      Front(a, 0, path);
      Front(b, i, path);
      assert a[..0] + a[1..] == a[1..];
    }
  }

  /** Taking one trace out. */
  lemma Front(a: seq<Span>, i: nat, path: seq<string>)
    requires i < |a|
    ensures Tally(AtPath(a, path)) == Plus(Tally(AtPath([a[i]], path)), Tally(AtPath(a[..i] + a[i + 1..], path)))
    ensures AtPath(a, path) == [] <==> AtPath([a[i]], path) == [] && AtPath(a[..i] + a[i + 1..], path) == []
  {
    hide AtPath, Tally;
    assert a == a[..i] + ([a[i]] + a[i + 1..]);
    Apart(a[..i], [a[i]] + a[i + 1..], path);
    Apart([a[i]], a[i + 1..], path);
    Apart(a[..i], a[i + 1..], path);
  }

  lemma Apart(a: seq<Span>, b: seq<Span>, path: seq<string>)
    ensures Tally(AtPath(a + b, path)) == Plus(Tally(AtPath(a, path)), Tally(AtPath(b, path)))
    ensures AtPath(a + b, path) == [] <==> AtPath(a, path) == [] && AtPath(b, path) == []
  {
    hide AtPath, Tally;
    AtPathAppend(a, b, path);
    TallyAppend(AtPath(a, path), AtPath(b, path));
  }

  /** The order of folding is irrelevant. */
  lemma FoldAnyOrder(a: seq<Span>, b: seq<Span>)
    requires multiset(a) == multiset(b)
    ensures Folded(a) == Folded(b)
  {
    hide AtPath, Tally, Folded;
    forall p
      ensures At(Folded(a), p) == At(Folded(b), p) && (Has(Folded(a), p) <==> Has(Folded(b), p))
    {
      FoldedHolds(a, p);
      FoldedHolds(b, p);
      TallyPermuted(a, b, p);
    }
    SameTree(Folded(a), Folded(b));
  }

  /** Merging two folds is folding all their traces. */
  lemma MergeFolds(a: seq<Span>, b: seq<Span>)
    ensures Merge(Folded(a), Folded(b)) == Folded(a + b)
  {
    hide AtPath, Tally, Folded, Merge;
    forall p
      ensures At(Merge(Folded(a), Folded(b)), p) == At(Folded(a + b), p)
      ensures Has(Merge(Folded(a), Folded(b)), p) <==> Has(Folded(a + b), p)
    {
      FoldedHolds(a, p);
      FoldedHolds(b, p);
      FoldedHolds(a + b, p);
      Apart(a, b, p);
      if p == [] {
        RootStays(Folded(a), Folded(b));
        NoSpanAtRoot(a);
        NoSpanAtRoot(a + b);
      } else {
        MergeAt(Folded(a), Folded(b), p);
      }
    }
    SameTree(Merge(Folded(a), Folded(b)), Folded(a + b));
  }

  lemma RootStays(d: Node, s: Node)
    ensures At(Merge(d, s), []) == At(d, [])
  {
  }

  lemma NoSpanAtRoot(spans: seq<Span>)
    ensures Tally(AtPath(spans, [])) == ZERO
  {
  }

  /** The parts folded on their own, merged one after another. */
  function MergedParts(parts: seq<seq<Span>>): Node {
    if parts == [] then EMPTY else Merge(MergedParts(parts[..|parts| - 1]), Folded(parts[|parts| - 1]))
  }

  function Joined(parts: seq<seq<Span>>): seq<Span> {
    if parts == [] then [] else Joined(parts[..|parts| - 1]) + parts[|parts| - 1]
  }

  /** However the traces are split up, and in whatever order the parts are merged, the result is the
      fold of all of them. */
  lemma {:induction false} MergeAnySplit(parts: seq<seq<Span>>, traces: seq<Span>)
    requires multiset(Joined(parts)) == multiset(traces)
    ensures MergedParts(parts) == Folded(traces)
  {
    hide Folded, Merge;
    MergedJoined(parts);
    FoldAnyOrder(Joined(parts), traces);
  }

  lemma {:induction false} MergedJoined(parts: seq<seq<Span>>)
    ensures MergedParts(parts) == Folded(Joined(parts))
  {
    hide Merge, AddAll;
    if parts != [] {
      MergedJoined(parts[..|parts| - 1]);
      MergeFolds(Joined(parts[..|parts| - 1]), parts[|parts| - 1]);
    } else {
      assert AddAll(EMPTY, []) == EMPTY by {
        NothingFolds();
      }
    }
  }

  /** Folding one more trace in at the end. */
  lemma {:induction false} AddLast(n: Node, traces: seq<Span>, sp: Span)
    ensures AddAll(n, traces + [sp]) == Add(AddAll(n, traces), sp)
    decreases |traces|
  {
    hide Add;
    if traces == [] {
      assert traces + [sp] == [sp] && [sp][1..] == [];
      assert AddAll(Add(n, sp), []) == Add(n, sp);
    } else {
      AddLast(Add(n, traces[0]), traces[1..], sp);
      assert (traces + [sp])[1..] == traces[1..] + [sp];
    }
  }

  lemma NothingFolds()
    ensures AddAll(EMPTY, []) == EMPTY
  {
  }

  // ---------------------------------------------------------------- conservation of time

  function NodeAt(n: Node, path: seq<string>): Node
    decreases |path|
  {
    if path == [] then n else NodeAt(Child(n, path[0]), path[1..])
  }

  function TimeOf(s: Sums): int {
    s.total
  }

  function CountOf(s: Sums): int {
    s.count
  }

  /** What the named children come to, by `f`. */
  ghost function SumOf(m: map<string, Node>, names: set<string>, f: Sums -> int): int
    requires names <= m.Keys
  {
    if names == {} then 0 else
      var k :| k in names;
      f(m[k].sums) + SumOf(m, names - {k}, f)
  }

  lemma {:induction false} SumTake(m: map<string, Node>, names: set<string>, k: string, f: Sums -> int)
    requires names <= m.Keys && k in names
    ensures SumOf(m, names, f) == f(m[k].sums) + SumOf(m, names - {k}, f)
    decreases |names|
  {
    var j :| j in names && SumOf(m, names, f) == f(m[j].sums) + SumOf(m, names - {j}, f);
    if j != k {
      SumTake(m, names - {j}, k, f);
      SumTake(m, names - {k}, j, f);
      assert names - {j} - {k} == names - {k} - {j};
    }
  }

  lemma {:induction false} SumAlike(m: map<string, Node>, m': map<string, Node>, names: set<string>, f: Sums -> int)
    requires names <= m.Keys && names <= m'.Keys && forall k :: k in names ==> m[k] == m'[k]
    ensures SumOf(m, names, f) == SumOf(m', names, f)
    decreases |names|
  {
    if names != {} {
      var k :| k in names;
      SumTake(m, names, k, f);
      SumTake(m', names, k, f);
      SumAlike(m, m', names - {k}, f);
    }
  }

  /** Replacing or adding one child. */
  lemma SumUpdate(m: map<string, Node>, k: string, c: Node, f: Sums -> int)
    ensures var m' := m[k := c];
            SumOf(m', m'.Keys, f) == SumOf(m, m.Keys, f) - (if k in m then f(m[k].sums) else 0) + f(c.sums)
  {
    var m' := m[k := c];
    SumTake(m', m'.Keys, k, f);
    assert m'.Keys - {k} == m.Keys - {k};
    SumAlike(m, m', m.Keys - {k}, f);
    if k in m {
      SumTake(m, m.Keys, k, f);
    } else {
      assert m.Keys - {k} == m.Keys;
    }
  }

  /** How far a node's own time and its children's exceed its total. */
  ghost function Gap(n: Node): int {
    n.sums.self + SumOf(n.children, n.children.Keys, TimeOf) - n.sums.total
  }

  /** How far a span's children outlast it. */
  function Over(sp: Span): nat {
    if ChildTime(sp.children) > sp.duration then ChildTime(sp.children) - sp.duration else 0
  }

  function Overs(spans: seq<Span>): nat {
    if spans == [] then 0 else Over(spans[0]) + Overs(spans[1..])
  }

  lemma {:induction false} OversAppend(a: seq<Span>, b: seq<Span>)
    ensures Overs(a + b) == Overs(a) + Overs(b)
    decreases |a|
  {
    hide Over;
    if a == [] {
      assert a + b == b;
    } else {
      var ab := a + b;
      assert ab[1..] == a[1..] + b && ab[0] == a[0];
      OversAppend(a[1..], b);
    }
  }

  lemma GapBump(n: Node, sp: Span)
    ensures Gap(Bump(n, One(sp))) + ChildTime(sp.children) == Gap(n) + Over(sp)
  {
    hide ChildTime, SumOf;
  }

  lemma SumsStay(n: Node, spans: seq<Span>)
    ensures AddAll(n, spans).sums == n.sums
  {
    hide AddAll, Tally;
    AddAllAt(n, spans, []);
    NoSpanAtRoot(spans);
    HasRoot(AddAll(n, spans));
    HasRoot(n);
  }

  /** A new trace below a node adds its duration, and one, to what the children come to. */
  lemma SumAdd(n: Node, sp: Span)
    ensures var m, m' := n.children, Add(n, sp).children;
            && SumOf(m', m'.Keys, TimeOf) == SumOf(m, m.Keys, TimeOf) + sp.duration
            && SumOf(m', m'.Keys, CountOf) == SumOf(m, m.Keys, CountOf) + 1
  {
    hide AddAll, SumOf, SelfTime;
    var c := AddAll(Bump(Child(n, sp.name), One(sp)), sp.children);
    SumsStay(Bump(Child(n, sp.name), One(sp)), sp.children);
    SumUpdate(n.children, sp.name, c, TimeOf);
    SumUpdate(n.children, sp.name, c, CountOf);
  }

  lemma GapAdd(n: Node, sp: Span)
    ensures Gap(Add(n, sp)) == Gap(n) + sp.duration
  {
    hide AddAll, SumOf, SelfTime;
    SumAdd(n, sp);
  }

  /** The counts of the root's children add up to the traces folded. */
  lemma {:induction false} RootCounts(n: Node, traces: seq<Span>)
    ensures var m, m' := n.children, AddAll(n, traces).children;
            SumOf(m', m'.Keys, CountOf) == SumOf(m, m.Keys, CountOf) + |traces|
    decreases |traces|
  {
    hide Add, SumOf;
    if traces != [] {
      SumAdd(n, traces[0]);
      RootCounts(Add(n, traces[0]), traces[1..]);
    }
  }

  lemma {:induction false} AddGap(n: Node, sp: Span, path: seq<string>)
    ensures Gap(NodeAt(Add(n, sp), path)) ==
            Gap(NodeAt(n, path)) + (if path == [] then sp.duration else Overs(AtPath([sp], path)))
    decreases |path|, 0
  {
    hide Add, AddAll, Gap, One, Over, AtPath, Overs;
    if path == [] {
      GapAdd(n, sp);
    } else if path[0] != sp.name {
      ElsewhereStays(n, sp, path);
    } else {
      var c := Child(n, sp.name);
      AddHere(n, sp);
      AddAllGap(Bump(c, One(sp)), sp.children, path[1..]);
      AtPathOne(sp, path);
      GapBump(c, sp);
      if |path| == 1 {
        assert path[1..] == [];
        OversOne(sp);
      } else {
        BumpStays(c, One(sp), path[1..]);
      }
    }
  }

  lemma OversOne(sp: Span)
    ensures Overs([sp]) == Over(sp)
  {
    hide Over;
    assert [sp][1..] == [];
  }

  lemma BumpStays(n: Node, x: Sums, path: seq<string>)
    requires path != []
    ensures NodeAt(Bump(n, x), path) == NodeAt(n, path)
  {
  }

  lemma ElsewhereStays(n: Node, sp: Span, path: seq<string>)
    requires path != [] && path[0] != sp.name
    ensures NodeAt(Add(n, sp), path) == NodeAt(n, path) && Overs(AtPath([sp], path)) == 0
  {
    hide AddAll, One, Over;
    assert [sp][1..] == [];
  }

  lemma {:induction false} AddAllGap(n: Node, spans: seq<Span>, path: seq<string>)
    ensures Gap(NodeAt(AddAll(n, spans), path)) ==
            Gap(NodeAt(n, path)) + (if path == [] then ChildTime(spans) else Overs(AtPath(spans, path)))
    decreases |path|, 1 + |spans|
  {
    hide Add, Gap, NodeAt, AtPath, Overs;
    if spans == [] {
      NothingOver(path);
    } else {
      AddGap(n, spans[0], path);
      AddAllGap(Add(n, spans[0]), spans[1..], path);
      assert spans == [spans[0]] + spans[1..];
      AtPathAppend([spans[0]], spans[1..], path);
      OversAppend(AtPath([spans[0]], path), AtPath(spans[1..], path));
    }
  }

  lemma NothingOver(path: seq<string>)
    ensures Overs(AtPath([], path)) == 0
  {
  }

  lemma {:induction false} EmptyGap(path: seq<string>)
    ensures Gap(NodeAt(EMPTY, path)) == 0
    decreases |path|
  {
    if path != [] {
      EmptyGap(path[1..]);
    }
  }

  lemma {:induction false} NoneOver(spans: seq<Span>)
    ensures Overs(spans) == 0 <==> forall sp :: sp in spans ==> Over(sp) == 0
    decreases |spans|
  {
    hide Over;
    if spans != [] {
      NoneOver(spans[1..]);
    }
  }

  /** At every path, a folded node's total falls short of its self time plus its children's totals by
      exactly what the spans there are outlasted by their children. */
  lemma TimeIsConserved(traces: seq<Span>, path: seq<string>)
    requires path != []
    ensures var n := NodeAt(Folded(traces), path);
            n.sums.total + Overs(AtPath(traces, path)) == n.sums.self + SumOf(n.children, n.children.Keys, TimeOf)
  {
    hide AddAll, AtPath, Overs, SumOf, NodeAt;
    AddAllGap(EMPTY, traces, path);
    EmptyGap(path);
  }

  /** So a node's total is its self time plus its children's totals if and only if no span there is
      outlasted by its children. */
  lemma ConservedExactly(traces: seq<Span>, path: seq<string>)
    requires path != []
    ensures var n := NodeAt(Folded(traces), path);
            n.sums.total == n.sums.self + SumOf(n.children, n.children.Keys, TimeOf) <==>
            forall sp :: sp in AtPath(traces, path) ==> ChildTime(sp.children) <= sp.duration
  {
    hide Folded, AtPath, Overs, SumOf, NodeAt, ChildTime;
    TimeIsConserved(traces, path);
    NoneOver(AtPath(traces, path));
  }
}

/** The folded tree as it is built (internal/span/fold.go): nodes linked by name and updated in place,
    proved to hold what Fold says at every path. */
module FoldTree {
  import opened Fold

  type Path = seq<string>

  // ---------------------------------------------------------------- what a tree holds, path by path

  type Held = map<Path, Sums>

  function Get(m: Held, q: Path): Sums {
    if q in m then m[q] else ZERO
  }

  /** `q` lies below `p`. */
  predicate Under(p: Path, q: Path) {
    |p| < |q| && q[..|p|] == p
  }

  /** The spans that fold to `q` when folded in below `p`. */
  function Below(p: Path, spans: seq<Span>, q: Path): seq<Span> {
    if Under(p, q) then AtPath(spans, q[|p|..]) else []
  }

  /** What folding `spans` in below `p` makes of a tree, at one path. */
  ghost predicate GainedAt(m: Held, m': Held, p: Path, spans: seq<Span>, q: Path) {
    Get(m', q) == Plus(Get(m, q), Tally(Below(p, spans, q))) && (q in m' <==> q in m || Below(p, spans, q) != [])
  }

  ghost predicate Gained(m: Held, m': Held, p: Path, spans: seq<Span>) {
    forall q :: GainedAt(m, m', p, spans, q)
  }

  lemma GainedNothing(m: Held, p: Path)
    ensures Gained(m, m, p, [])
  {
    hide Below, Tally, Get;
    forall q
      ensures GainedAt(m, m, p, [], q)
    {
      BelowNothing(p, q);
    }
  }

  lemma BelowNothing(p: Path, q: Path)
    ensures Below(p, [], q) == [] && Tally([]) == ZERO
  {
  }

  lemma GainedThen(m: Held, m1: Held, m2: Held, p: Path, a: seq<Span>, b: seq<Span>)
    requires Gained(m, m1, p, a) && Gained(m1, m2, p, b)
    ensures Gained(m, m2, p, a + b)
  {
    hide Below, Tally;
    forall q
      ensures GainedAt(m, m2, p, a + b, q)
    {
      assert GainedAt(m, m1, p, a, q) && GainedAt(m1, m2, p, b, q);
      BelowBoth(p, a, b, q);
      TallyAppend(Below(p, a, q), Below(p, b, q));
    }
  }

  lemma GainedStarts(m: Held, p: Path, spans: seq<Span>)
    ensures Gained(m, m, p, spans[..0])
  {
    hide Gained;
    GainedNothing(m, p);
    assert spans[..0] == [];
  }

  lemma GainedNext(m: Held, m1: Held, m2: Held, p: Path, spans: seq<Span>, i: nat)
    requires i < |spans| && Gained(m, m1, p, spans[..i]) && Gained(m1, m2, p, [spans[i]])
    ensures Gained(m, m2, p, spans[..i + 1])
  {
    hide Gained;
    GainedThen(m, m1, m2, p, spans[..i], [spans[i]]);
    assert spans[..i] + [spans[i]] == spans[..i + 1];
  }

  lemma GainedEnds(m: Held, m': Held, p: Path, spans: seq<Span>)
    requires Gained(m, m', p, spans[..|spans|])
    ensures Gained(m, m', p, spans)
  {
    hide Gained;
    assert spans[..|spans|] == spans;
  }

  /** Making a node first, with nothing counted, changes no sum. */
  lemma BumpedFrom(m: Held, q: Path, x: Sums)
    ensures var m1 := if q in m then m else m[q := ZERO];
            m1[q := Plus(m1[q], x)] == m[q := Plus(Get(m, q), x)]
  {
  }

  lemma BelowBoth(p: Path, a: seq<Span>, b: seq<Span>, q: Path)
    ensures Below(p, a + b, q) == Below(p, a, q) + Below(p, b, q)
  {
    hide AtPath;
    if Under(p, q) {
      AtPathAppend(a, b, q[|p|..]);
    }
  }

  /** Counting a span at its own path and folding its children below it is folding the span. */
  lemma GainedSpan(m: Held, m2: Held, p: Path, sp: Span)
    requires Gained(m[p + [sp.name] := Plus(Get(m, p + [sp.name]), One(sp))], m2, p + [sp.name], sp.children)
    ensures Gained(m, m2, p, [sp])
  {
    hide GainedAt;
    forall q
      ensures GainedAt(m, m2, p, [sp], q)
    {
      var at := p + [sp.name];
      assert GainedAt(m[at := Plus(Get(m, at), One(sp))], m2, at, sp.children, q);
      GainedSpanAt(m, m2, p, sp, q);
    }
  }

  lemma GainedSpanAt(m: Held, m2: Held, p: Path, sp: Span, q: Path)
    requires GainedAt(m[p + [sp.name] := Plus(Get(m, p + [sp.name]), One(sp))], m2, p + [sp.name], sp.children, q)
    ensures GainedAt(m, m2, p, [sp], q)
  {
    hide Below, Tally, One;
    BelowSpan(p, sp, q);
  }

  lemma BelowSpan(p: Path, sp: Span, q: Path)
    ensures var at := p + [sp.name];
            if q == at then Below(p, [sp], q) == [sp] && Below(at, sp.children, q) == [] && Tally([sp]) == One(sp)
            else Below(p, [sp], q) == Below(at, sp.children, q)
    ensures Tally([]) == ZERO
  {
    hide One, AtPath;
    TallyOne(sp);
    UnderChild(p, sp.name, q);
    if Under(p, q) {
      var rest := q[|p|..];
      if rest[0] == sp.name {
        AtPathOne(sp, rest);
        if |rest| > 1 {
          assert q[|p| + 1..] == rest[1..];
        } else {
          assert q == p + [sp.name];
        }
      } else {
        AddElsewhere(EMPTY, sp, rest);
      }
    }
  }

  /** A tree that started empty and gained traces holds what folding them gives. */
  lemma GainedIsFolded(m: Held, traces: seq<Span>, q: Path)
    requires Gained(map[[] := ZERO], m, [], traces)
    ensures Get(m, q) == At(Folded(traces), q) && (q in m <==> Has(Folded(traces), q))
  {
    hide GainedAt, Folded, At, Has;
    assert GainedAt(map[[] := ZERO], m, [], traces, q);
    GainedFolded(m, traces, q);
  }

  lemma GainedFolded(m: Held, traces: seq<Span>, q: Path)
    requires GainedAt(map[[] := ZERO], m, [], traces, q)
    ensures Get(m, q) == At(Folded(traces), q) && (q in m <==> Has(Folded(traces), q))
  {
    hide Below, Tally, Folded, At, Has, AtPath, Get, GainedAt;
    FoldedHolds(traces, q);
    BelowTop(traces, q);
    GainedFromNothing(m, traces, q);
    NoSpanAtRoot(traces);
    TallyNone();
  }

  lemma GainedFromNothing(m: Held, traces: seq<Span>, q: Path)
    requires GainedAt(map[[] := ZERO], m, [], traces, q)
    ensures Get(m, q) == Tally(Below([], traces, q)) && (q in m <==> q == [] || Below([], traces, q) != [])
  {
    hide Below, Tally;
  }

  lemma BelowTop(traces: seq<Span>, q: Path)
    ensures Below([], traces, q) == if q == [] then [] else AtPath(traces, q)
  {
    hide AtPath;
    if q != [] {
      assert q[..0] == [] && q[0..] == q;
    }
  }

  lemma TallyNone()
    ensures Tally([]) == ZERO
  {
  }

  // ---------------------------------------------------------------- merging child by child

  /** What merging in `s`, below those children of `p`, makes of a tree, at one path. */
  ghost predicate MergedAt(m: Held, m': Held, p: Path, names: set<string>, s: Held, q: Path) {
    if Under(p, q) && q[|p|] in names
    then Get(m', q) == Plus(Get(m, q), Get(s, q)) && (q in m' <==> q in m || q in s)
    else Get(m', q) == Get(m, q) && (q in m' <==> q in m)
  }

  ghost predicate Merged(m: Held, m': Held, p: Path, names: set<string>, s: Held) {
    forall q :: MergedAt(m, m', p, names, s, q)
  }

  lemma UnderChild(p: Path, k: string, q: Path)
    ensures Under(p + [k], q) || q == p + [k] <==> Under(p, q) && q[|p|] == k
    ensures Under(p + [k], q) <==> Under(p, q) && q[|p|] == k && |q| > |p| + 1
  {
    var c := p + [k];
    if Under(p, q) && q[|p|] == k {
      assert q[..|c|] == c;
      if |q| == |c| {
        assert q == q[..|c|];
      }
    } else if Under(c, q) {
      NotUnder(p, k, q);
    }
  }

  lemma NotUnder(p: Path, k: string, q: Path)
    requires Under(p + [k], q)
    ensures Under(p, q) && q[|p|] == k
  {
    var c := p + [k];
    assert q[..|p|] == q[..|c|][..|p|] == p;
    assert q[|p|] == q[..|c|][|p|];
  }

  lemma MergedNone(m: Held, p: Path, s: Held)
    ensures Merged(m, m, p, {}, s)
  {
    forall q
      ensures MergedAt(m, m, p, {}, s, q)
    {
    }
  }

  /** One more child: its own sums, and everything below it. */
  lemma MergedOne(m: Held, m1: Held, m3: Held, p: Path, names: set<string>, k: string, s: Held, under: set<string>)
    requires Merged(m, m1, p, names, s) && k !in names && p + [k] in s
    requires Merged(m1[p + [k] := Plus(Get(m1, p + [k]), s[p + [k]])], m3, p + [k], under, s)
    requires forall q :: q in s && Under(p + [k], q) ==> q[|p| + 1] in under
    ensures Merged(m, m3, p, names + {k}, s)
  {
    hide MergedAt, Under;
    forall q
      ensures MergedAt(m, m3, p, names + {k}, s, q)
    {
      var c := p + [k];
      var m2 := m1[c := Plus(Get(m1, c), s[c])];
      assert MergedAt(m, m1, p, names, s, q) && MergedAt(m2, m3, c, under, s, q);
      UnderChild(p, k, q);
      GetUpdated(m1, c, Plus(Get(m1, c), s[c]), q);
      GetIn(s, c);
      MergedOneAt(m, m1, m2, m3, p, c, names, k, s, under, q);
    }
  }

  lemma GetUpdated(m: Held, c: Path, x: Sums, q: Path)
    ensures Get(m[c := x], q) == (if q == c then x else Get(m, q)) && (q in m[c := x] <==> q == c || q in m)
  {
  }

  lemma GetIn(m: Held, c: Path)
    requires c in m
    ensures Get(m, c) == m[c]
  {
  }

  lemma MergedOneAt(m: Held, m1: Held, m2: Held, m3: Held, p: Path, c: Path, names: set<string>, k: string, s: Held,
                    under: set<string>, q: Path)
    requires MergedAt(m, m1, p, names, s, q) && k !in names && MergedAt(m2, m3, c, under, s, q)
    requires |c| == |p| + 1 && (Under(c, q) || q == c <==> Under(p, q) && q[|p|] == k)
    requires Get(m2, q) == (if q == c then Plus(Get(m1, q), Get(s, q)) else Get(m1, q)) &&
             (q in m2 <==> q == c || q in m1)
    requires (q == c ==> q in s) && (q in s && Under(c, q) ==> q[|c|] in under) && (q !in s ==> Get(s, q) == ZERO)
    ensures MergedAt(m, m3, p, names + {k}, s, q)
  {
    hide Get, Under, Plus;
    UnderLonger(p, q);
    UnderLonger(c, q);
    PlusZero(Get(m2, q));
    var named := Under(p, q) && q[|p|] in names;
    var deeper := Under(c, q) && q[|c|] in under;
    var here := Under(p, q) && q[|p|] == k;
    MergedValues(Get(m, q), Get(m1, q), Get(m2, q), Get(m3, q), Get(s, q), named, here, q == c, Under(c, q), deeper,
                 q in s);
  }

  /** The same of one path's sums: named before, under the child now merged, at it, below it, reached there. */
  lemma MergedValues(x: Sums, x1: Sums, x2: Sums, x3: Sums, y: Sums, named: bool, here: bool, at: bool, below: bool,
                     reached: bool, other: bool)
    requires x1 == (if named then Plus(x, y) else x) && x2 == (if at then Plus(x1, y) else x1)
    requires x3 == (if reached then Plus(x2, y) else x2)
    requires (below || at <==> here) && !(below && at) && !(here && named) && (reached ==> below)
    requires (other && below ==> reached) && (!other ==> y == ZERO) && (at ==> other) && Plus(x2, ZERO) == x2
    ensures x3 == if named || here then Plus(x, y) else x
  {
    hide Plus;
  }

  lemma UnderLonger(p: Path, q: Path)
    ensures Under(p, q) ==> |q| > |p|
  {
  }

  /** Merging a tree that gained `b` into one that gained `a` leaves one that gained both. */
  lemma MergedGained(m: Held, m': Held, s: Held, names: set<string>, a: seq<Span>, b: seq<Span>)
    requires Gained(map[[] := ZERO], m, [], a) && Gained(map[[] := ZERO], s, [], b)
    requires Merged(m, m', [], names, s) && forall q :: q in s && q != [] ==> q[0] in names
    ensures Gained(map[[] := ZERO], m', [], a + b)
  {
    hide GainedAt, MergedAt;
    forall q
      ensures GainedAt(map[[] := ZERO], m', [], a + b, q)
    {
      var e: Held := map[[] := ZERO];
      assert GainedAt(e, m, [], a, q) && GainedAt(e, s, [], b, q) && MergedAt(m, m', [], names, s, q);
      MergedGainedAt(e, m, m', s, names, a, b, q);
    }
  }

  lemma MergedGainedAt(e: Held, m: Held, m': Held, s: Held, names: set<string>, a: seq<Span>, b: seq<Span>, q: Path)
    requires e == map[[] := ZERO] && GainedAt(e, m, [], a, q) && GainedAt(e, s, [], b, q) &&
             MergedAt(m, m', [], names, s, q)
    requires q in s && q != [] ==> q[0] in names
    ensures GainedAt(e, m', [], a + b, q)
  {
    hide GainedAt, MergedAt, Below, Tally, AtPath, Get, Under;
    GainedFromNothing(m, a, q);
    GainedFromNothing(s, b, q);
    UnderTop(q);
    MergedFromTop(m, m', s, [], names, q);
    BelowBoth([], a, b, q);
    TallyAppend(Below([], a, q), Below([], b, q));
    BelowTop(a, q);
    BelowTop(b, q);
    TallyNone();
    GetStart(q);
    GainedTo(e, m', a + b, q);
  }

  lemma MergedFromTop(m: Held, m': Held, s: Held, p: Path, names: set<string>, q: Path)
    requires |p| == 0 && (Under(p, q) <==> |q| > 0) && MergedAt(m, m', p, names, s, q)
    requires q in s && |q| > 0 ==> q[0] in names
    ensures if |q| == 0 then Get(m', q) == Get(m, q) && (q in m' <==> q in m)
            else Get(m', q) == Plus(Get(m, q), Get(s, q)) && (q in m' <==> q in m || q in s)
  {
    hide Under, Get;
    GetOut(s, q);
    PlusZero(Get(m, q));
  }

  lemma GetOut(m: Held, q: Path)
    ensures q !in m ==> Get(m, q) == ZERO
  {
  }

  lemma PlusZero(x: Sums)
    ensures Plus(x, ZERO) == x && Plus(ZERO, x) == x
  {
  }

  lemma UnderTop(q: Path)
    ensures Under([], q) <==> q != []
  {
    if q != [] {
      assert q[..0] == [];
    }
  }

  lemma GetStart(q: Path)
    ensures Get(map[[] := ZERO], q) == ZERO && (q in map[[] := ZERO] <==> q == [])
  {
  }

  lemma GainedTo(e: Held, m: Held, spans: seq<Span>, q: Path)
    requires Get(e, q) == ZERO && (q in e <==> q == [])
    requires Get(m, q) == Tally(Below([], spans, q)) && (q in m <==> q == [] || Below([], spans, q) != [])
    ensures GainedAt(e, m, [], spans, q)
  {
    hide Below, Tally, Get;
    PlusZero(Get(m, q));
  }

  // ---------------------------------------------------------------- the tree in place

  lemma SamePath(p: Path, k: string, p': Path, k': string)
    ensures p + [k] == p' + [k'] <==> p == p' && k == k'
  {
    if p + [k] == p' + [k'] {
      assert (p + [k])[..|p|] == p && (p' + [k'])[..|p'|] == p';
      assert (p + [k])[|p|] == k;
    }
  }

  class FoldNode {
    const name: string
    var count: nat
    var total: int
    var self: int
    var children: map<string, FoldNode>

    constructor (name: string)
      ensures this.name == name && Counted() == ZERO && children == map[]
    {
      this.name := name;
      count, total, self, children := 0, 0, 0, map[];
    }

    ghost function Counted(): Sums
      reads this
    {
      Sums(count, total, self)
    }
  }

  /** `at` finds every node by its path and `held` is what the tree holds; both are for the proof. */
  class FoldedTree {
    const root: FoldNode
    ghost var at: map<Path, FoldNode>
    ghost var held: Held

    constructor ()
      ensures Valid() && fresh(at.Values) && Holds([])
    {
      root := new FoldNode("");
      at, held := map[[] := root], map[[] := ZERO];
      new;
      GainedNothing(held, []);
    }

    /** At every path this tree has the node, and the sums, of those traces folded together. */
    ghost predicate Holds(traces: seq<Span>)
      reads this
    {
      Gained(map[[] := ZERO], held, [], traces)
    }

    lemma HoldsFolded(traces: seq<Span>, q: Path)
      requires Holds(traces)
      ensures Get(held, q) == At(Folded(traces), q) && (q in held <==> Has(Folded(traces), q))
    {
      GainedIsFolded(held, traces, q);
    }

    /** The child of `p` named `k` is where it should be, or nowhere. */
    ghost predicate Linked(p: Path, k: string)
      reads this`at, at.Values`children
    {
      && (p + [k] in at <==> p in at && k in at[p].children)
      && (p in at && k in at[p].children ==> at[p].children[k] == at[p + [k]])
    }

    ghost predicate Counts(p: Path)
      reads this, at.Values
    {
      p in held && p in at && held[p] == at[p].Counted()
    }

    /** A tree: one node a path, linked by name from the root, each holding its own sums. */
    ghost predicate Valid()
      reads this, at.Values
    {
      && [] in at && at[[]] == root && at.Keys == held.Keys
      && (forall p :: p in at ==> Counts(p))
      && Apart()
      && (forall p, k :: Linked(p, k))
    }

    /** No node is at two paths. */
    ghost predicate Apart()
      reads this`at
    {
      forall p, q :: p in at && q in at && at[p] == at[q] ==> p == q
    }

    lemma Elsewhere(p: Path)
      requires Apart() && p in at
      ensures forall q :: q in at && q != p ==> at[q] != at[p]
    {
    }

    /** Nodes stay where they are, and new ones are new. */
    twostate predicate Grown()
      reads this
    {
      && (forall q :: q in old(at) ==> q in at && at[q] == old(at)[q])
      && (forall q :: q in at && q !in old(at) ==> fresh(at[q]))
    }

    /** The child of a name, made when there is none. */
    method Child(fn: FoldNode, ghost p: Path, name: string) returns (c: FoldNode)
      requires Valid() && p in at && at[p] == fn
      modifies this, fn
      ensures Valid() && Grown() && p + [name] in at && at[p + [name]] == c
      ensures held == if p + [name] in old(held) then old(held) else old(held)[p + [name] := ZERO]
    {
      assert Linked(p, name);
      if name in fn.children {
        return fn.children[name];
      }
      c := new FoldNode(name);
      ghost var q := p + [name];
      fn.children := fn.children[name := c];
      at, held := at[q := c], held[q := ZERO];
      forall pp, kk
        ensures Linked(pp, kk)
      {
        assert old(Linked(pp, kk));
        SamePath(pp, kk, p, name);
        if pp == q {
          assert old(Linked(q, kk)) && q !in old(at);
        }
      }
    }

    /** Add to a node's sums. */
    method Count(fn: FoldNode, ghost p: Path, s: Sums)
      requires Valid() && p in at && at[p] == fn
      modifies fn, this`held
      ensures Valid() && at == old(at) && fn.children == old(fn.children)
      ensures held == old(held)[p := Plus(old(held)[p], s)]
    {
      hide Linked, Apart;
      Elsewhere(p);
      assert Counts(p);
      fn.count, fn.total, fn.self := fn.count + s.count, fn.total + s.total, fn.self + s.self;
      held := held[p := Plus(held[p], s)];
      forall q, k
        ensures Linked(q, k)
      {
        assert old(Linked(q, k));
      }
      forall q | q in at
        ensures Counts(q)
      {
        assert old(Counts(q));
      }
    }

    /** A span's duration less its children's, never below zero. */
    method SelfTime(sp: Span) returns (self: int)
      ensures self == Fold.SelfTime(sp)
    {
      self := sp.duration;
      assert sp.children[0..] == sp.children;
      for i := 0 to |sp.children|
        invariant self - ChildTime(sp.children[i..]) == sp.duration - ChildTime(sp.children)
      {
        assert sp.children[i..][1..] == sp.children[i + 1..];
        self := self - sp.children[i].duration;
      }
      if self < 0 {
        self := 0;
      }
    }

    /** Fold one span in below `fn`. */
    method AddSpan(fn: FoldNode, ghost p: Path, sp: Span)
      requires Valid() && p in at && at[p] == fn
      modifies this, at.Values
      ensures Valid() && Grown() && Gained(old(held), held, p, [sp])
      decreases sp
    {
      hide Gained, Fold.SelfTime, Valid;
      ghost var m, q := held, p + [sp.name];
      var c := Child(fn, p, sp.name);
      var self := SelfTime(sp);
      Count(c, q, Sums(1, sp.duration, self));
      ghost var m1 := held;
      BumpedFrom(m, q, One(sp));
      GainedStarts(m1, q, sp.children);
      for i := 0 to |sp.children|
        invariant Valid() && Grown() && q in at && at[q] == c
        invariant Gained(m1, held, q, sp.children[..i])
      {
        ghost var m2 := held;
        AddSpan(c, q, sp.children[i]);
        GainedNext(m1, m2, held, q, sp.children, i);
      }
      GainedEnds(m1, held, q, sp.children);
      GainedSpan(m, held, p, sp);
    }

    /** Fold one trace in. */
    method Add(sp: Span)
      requires Valid()
      modifies this, at.Values
      ensures Valid() && Grown()
      ensures forall traces :: old(Holds(traces)) ==> Holds(traces + [sp])
    {
      hide Gained, Valid, Linked, Counts;
      RootAt();
      AddSpan(root, [], sp);
      forall traces | old(Holds(traces))
        ensures Holds(traces + [sp])
      {
        GainedThen(map[[] := ZERO], old(held), held, [], traces, [sp]);
      }
    }

    lemma RootAt()
      requires Valid()
      ensures [] in at && at[[]] == root
    {
    }

    /** Every name on the way to a node is a child on the way. */
    lemma {:induction false} OnTheWay(p: Path, q: Path)
      requires Valid() && q in at && Under(p, q) && p in at
      ensures q[|p|] in at[p].children && p + [q[|p|]] in at
      decreases |q|
    {
      var k, up := q[|q| - 1], q[..|q| - 1];
      assert q == up + [k];
      assert Linked(up, k);
      if |up| == |p| {
        assert up == p;
      } else {
        assert up[..|p|] == q[..|p|];
        OnTheWay(p, up);
      }
    }

    /** Everything below a node comes through one of its children. */
    lemma ThroughChildren(p: Path)
      requires Valid() && p in at
      ensures forall q :: q in held && Under(p, q) ==> q[|p|] in at[p].children
    {
      forall q | q in held && Under(p, q)
        ensures q[|p|] in at[p].children
      {
        OnTheWay(p, q);
      }
    }

    ghost function Deeper(p: Path): set<Path>
      reads this
    {
      set q | q in held && Under(p, q)
    }

    lemma DeeperShrinks(p: Path, k: string)
      requires p + [k] in held
      ensures Deeper(p + [k]) < Deeper(p)
    {
      UnderChild(p, k, p + [k]);
      assert p + [k] in Deeper(p) && p + [k] !in Deeper(p + [k]);
      forall q | q in Deeper(p + [k])
        ensures q in Deeper(p)
      {
        UnderChild(p, k, q);
      }
    }

    /** Merge one child of another tree's node in below `dst`, with everything below it. */
    method MergeChild(dst: FoldNode, sc: FoldNode, ghost p: Path, k: string, ghost other: FoldedTree)
      requires Valid() && p in at && at[p] == dst
      requires other != this && other.Valid() && p + [k] in other.at && other.at[p + [k]] == sc &&
               at.Values !! other.at.Values
      modifies this, at.Values
      ensures Valid() && Grown() && at.Values !! other.at.Values
      ensures Merged(old(held)[p + [k] := Plus(Get(old(held), p + [k]), other.held[p + [k]])], held, p + [k],
                     sc.children.Keys, other.held)
      decreases other.Deeper(p), 0
    {
      hide Merged, Valid, Counts;
      ghost var q := p + [k];
      var dc := Child(dst, p, k);
      other.CountsAt(q);
      BumpedFrom(old(held), q, other.held[q]);
      Count(dc, q, Sums(sc.count, sc.total, sc.self));
      assert held == old(held)[q := Plus(Get(old(held), q), other.held[q])];
      other.DeeperShrinks(p, k);
      MergeNode(dc, sc, q, other);
    }

    /** Merge what is below `src`, a node of another tree, in below `dst`. The other tree is only read,
        and none of its nodes becomes one of this tree's. */
    method MergeNode(dst: FoldNode, src: FoldNode, ghost p: Path, ghost other: FoldedTree)
      requires Valid() && p in at && at[p] == dst
      requires other != this && other.Valid() && p in other.at && other.at[p] == src && at.Values !! other.at.Values
      modifies this, at.Values
      ensures Valid() && Grown() && at.Values !! other.at.Values
      ensures Merged(old(held), held, p, src.children.Keys, other.held)
      decreases other.Deeper(p), 1
    {
      hide Merged, Valid, Get;
      ghost var done: set<string> := {};
      MergedNone(held, p, other.held);
      var left := src.children.Keys;
      while left != {}
        invariant Valid() && Grown() && at.Values !! other.at.Values
        invariant done !! left && done + left == src.children.Keys && Merged(old(held), held, p, done, other.held)
      {
        var k :| k in left;
        var sc := src.children[k];
        ghost var m1 := held;
        other.ChildAt(p, k);
        MergeChild(dst, sc, p, k, other);
        other.ThroughChildren(p + [k]);
        MergedOne(old(held), m1, held, p, done, k, other.held, sc.children.Keys);
        left, done := left - {k}, done + {k};
      }
      assert done == src.children.Keys;
    }

    lemma CountsAt(p: Path)
      requires Valid() && p in at
      ensures p in held && held[p] == at[p].Counted()
    {
      assert Counts(p);
    }

    lemma ChildAt(p: Path, k: string)
      requires Valid() && p in at && k in at[p].children
      ensures p + [k] in at && p + [k] in held && at[p].children[k] == at[p + [k]]
    {
      assert Linked(p, k);
    }

    /** Fold another tree into this one. */
    method Merge(other: FoldedTree)
      requires Valid() && other != this && other.Valid() && at.Values !! other.at.Values
      modifies this, at.Values
      ensures Valid() && Grown() && at.Values !! other.at.Values
      ensures unchanged(other) && unchanged(other.at.Values)
      ensures forall a, b :: old(Holds(a)) && other.Holds(b) ==> Holds(a + b)
    {
      hide Merged, Gained, Valid, Linked, Counts;
      RootAt();
      other.RootAt();
      ghost var names := other.root.children.Keys;
      MergeNode(root, other.root, [], other);
      other.ThroughChildren([]);
      forall a, b | old(Holds(a)) && other.Holds(b)
        ensures Holds(a + b)
      {
        forall q | q in other.held && q != []
          ensures q[0] in names
        {
          UnderTop(q);
        }
        MergedGained(old(held), held, other.held, names, a, b);
      }
    }
  }

  /** Fold one worker's traces into a tree of its own. */
  method FoldPart(traces: seq<Span>) returns (tree: FoldedTree)
    ensures tree.Valid() && fresh(tree) && fresh(tree.at.Values) && tree.Holds(traces)
  {
    hide FoldedTree.Holds, FoldedTree.Valid, Gained;
    tree := new FoldedTree();
    assert traces[..0] == [];
    for i := 0 to |traces|
      invariant tree.Valid() && fresh(tree) && fresh(tree.at.Values) && tree.Holds(traces[..i])
    {
      ghost var before := tree.at;
      tree.Add(traces[i]);
      ValuesFrom(before, tree.at);
      assert traces[..i] + [traces[i]] == traces[..i + 1];
    }
    assert traces[..|traces|] == traces;
  }

  /** Each worker folds its own traces, and the parts are merged one after another: the tree holds, at
      every path, the sums of all the traces folded together, in whatever order. */
  method FoldParts(parts: seq<seq<Span>>) returns (tree: FoldedTree)
    ensures tree.Valid() && fresh(tree) && fresh(tree.at.Values)
    ensures forall traces, q :: multiset(Joined(parts)) == multiset(traces) ==>
              Get(tree.held, q) == At(Folded(traces), q) && (q in tree.held <==> Has(Folded(traces), q))
  {
    hide Joined, Folded, FoldedTree.Holds, Gained, FoldedTree.Valid, Get;
    tree := new FoldedTree();
    NoParts(parts);
    for i := 0 to |parts|
      invariant tree.Valid() && fresh(tree) && fresh(tree.at.Values) && tree.Holds(Joined(parts[..i]))
    {
      var part := FoldPart(parts[i]);
      ghost var before := tree.at;
      tree.Merge(part);
      ValuesFrom(before, tree.at);
      OnePart(parts, i);
    }
    assert parts[..|parts|] == parts;
    forall traces, q | multiset(Joined(parts)) == multiset(traces)
      ensures Get(tree.held, q) == At(Folded(traces), q) && (q in tree.held <==> Has(Folded(traces), q))
    {
      FoldAnyOrder(Joined(parts), traces);
      tree.HoldsFolded(Joined(parts), q);
    }
  }

  /** Every node of a tree that grew was there before, or is at a new path. */
  lemma ValuesFrom(before: map<Path, FoldNode>, after: map<Path, FoldNode>)
    requires forall q :: q in before ==> q in after && after[q] == before[q]
    ensures forall n :: n in after.Values ==>
              n in before.Values || exists q :: q in after && q !in before && after[q] == n
  {
    forall n | n in after.Values
      ensures n in before.Values || exists q :: q in after && q !in before && after[q] == n
    {
      var q :| q in after && after[q] == n;
      if q in before {
        assert before[q] == n;
      }
    }
  }

  lemma NoParts(parts: seq<seq<Span>>)
    ensures Joined(parts[..0]) == []
  {
  }

  lemma OnePart(parts: seq<seq<Span>>, i: nat)
    requires i < |parts|
    ensures Joined(parts[..i + 1]) == Joined(parts[..i]) + parts[i]
  {
    assert parts[..i + 1][..i] == parts[..i];
  }
}

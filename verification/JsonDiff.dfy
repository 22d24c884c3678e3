/** The structural diff of two JSON documents (internal/report/diff.go:331-408) and the paths it
    prints, which JsonPath reads and follows. */
module JsonDiff {
  import opened Options
  import opened JsonPath
  import opened Order
  import opened Sequences
  import opened CompactJson

  datatype Kind = Added | Removed | Changed

  /** One difference, where it is and what stands there on each side. */
  datatype Found = Found(at: seq<Seg>, old_: Option<Json>, new_: Option<Json>)

  /** One difference as it is reported; an absent side is the empty string. */
  datatype Change = Change(path: string, kind: Kind, old_: string, new_: string)

  /** How a value is rendered for display: compact JSON. */
  type Rendering = Json -> string

  /** Nothing is rendered like anything else; compact JSON is one such rendering (CompactIsFaithful). */
  ghost predicate Faithful(scalar: Rendering) {
    forall a, b :: scalar(a) == scalar(b) ==> a == b
  }

  // ---------------------------------------------------------------- the differences of two values

  /** The differences of two values at `at`: maps key by key in ascending order, lists index by index,
      anything else by its rendering. */
  ghost function Diffs(scalar: Rendering, at: seq<Seg>, a: Json, b: Json): seq<Found>
    decreases a, b, 2, 0
  {
    if a.Object? && b.Object? then
      DiffKeys(scalar, at, a, b, SortedKeys(a.fields.Keys + b.fields.Keys))
    else if a.List? && b.List? then
      DiffItems(scalar, at, a, b, 0)
    else if scalar(a) != scalar(b) then [Found(at, Some(a), Some(b))]
    else []
  }

  ghost function DiffKeys(scalar: Rendering, at: seq<Seg>, a: Json, b: Json, keys: seq<string>): seq<Found>
    requires a.Object? && b.Object? && forall k :: k in keys ==> k in a.fields || k in b.fields
    decreases a, b, 1, |keys|
  {
    if keys == [] then [] else
      AtKey(scalar, at, a, b, keys[0]) + DiffKeys(scalar, at, a, b, keys[1..])
  }

  ghost function AtKey(scalar: Rendering, at: seq<Seg>, a: Json, b: Json, k: string): seq<Found>
    requires a.Object? && b.Object? && (k in a.fields || k in b.fields)
    decreases a, b, 0, 0
  {
    var child := at + [Key(k)];
    if k !in a.fields then [Found(child, None, Some(b.fields[k]))]
    else if k !in b.fields then [Found(child, Some(a.fields[k]), None)]
    else Diffs(scalar, child, a.fields[k], b.fields[k])
  }

  ghost function DiffItems(scalar: Rendering, at: seq<Seg>, a: Json, b: Json, i: nat): seq<Found>
    requires a.List? && b.List?
    decreases a, b, 1, |a.items| + |b.items| - i
  {
    if i >= |a.items| && i >= |b.items| then [] else
      AtIndex(scalar, at, a, b, i) + DiffItems(scalar, at, a, b, i + 1)
  }

  ghost function AtIndex(scalar: Rendering, at: seq<Seg>, a: Json, b: Json, i: nat): seq<Found>
    requires a.List? && b.List? && (i < |a.items| || i < |b.items|)
    decreases a, b, 0, 0
  {
    var child := at + [Index(i)];
    if i >= |a.items| then [Found(child, None, Some(b.items[i]))]
    else if i >= |b.items| then [Found(child, Some(a.items[i]), None)]
    else Diffs(scalar, child, a.items[i], b.items[i])
  }

  // ---------------------------------------------------------------- every difference stands where it says

  /** What a difference says of the two documents is so. */
  ghost predicate Stands(left: Json, right: Json, f: Found) {
    Query(left, f.at) == f.old_ && Query(right, f.at) == f.new_ && f.old_ != f.new_
  }

  lemma ChildStands(left: Json, right: Json, at: seq<Seg>, s: Seg, a: Json, b: Json)
    requires Query(left, at) == Some(a) && Query(right, at) == Some(b)
    ensures Query(left, at + [s]) == Follow(a, s) && Query(right, at + [s]) == Follow(b, s)
  {
    hide Follow;
    QueryThen(left, at, s);
    QueryThen(right, at, s);
  }

  lemma {:induction false} DiffsStand(scalar: Rendering, left: Json, right: Json, at: seq<Seg>, a: Json, b: Json,
          f: Found)
    requires Query(left, at) == Some(a) && Query(right, at) == Some(b) && f in Diffs(scalar, at, a, b)
    ensures Stands(left, right, f)
    decreases a, b, 2, 0
  {
    hide Query;
    if a.Object? && b.Object? {
      KeysStand(scalar, left, right, at, a, b, SortedKeys(a.fields.Keys + b.fields.Keys), f);
    } else if a.List? && b.List? {
      ItemsStand(scalar, left, right, at, a, b, 0, f);
    }
  }

  lemma {:induction false} KeysStand(scalar: Rendering, left: Json, right: Json, at: seq<Seg>, a: Json, b: Json,
          keys: seq<string>, f: Found)
    requires a.Object? && b.Object? && forall k :: k in keys ==> k in a.fields || k in b.fields
    requires Query(left, at) == Some(a) && Query(right, at) == Some(b) && f in DiffKeys(scalar, at, a, b, keys)
    ensures Stands(left, right, f)
    decreases a, b, 1, |keys|
  {
    hide Query, Diffs;
    var k := keys[0];
    ChildStands(left, right, at, Key(k), a, b);
    if f in DiffKeys(scalar, at, a, b, keys[1..]) {
      KeysStand(scalar, left, right, at, a, b, keys[1..], f);
    } else if k in a.fields && k in b.fields {
      DiffsStand(scalar, left, right, at + [Key(k)], a.fields[k], b.fields[k], f);
    }
  }

  lemma {:induction false} ItemsStand(scalar: Rendering, left: Json, right: Json, at: seq<Seg>, a: Json, b: Json,
          i: nat, f: Found)
    requires a.List? && b.List?
    requires Query(left, at) == Some(a) && Query(right, at) == Some(b) && f in DiffItems(scalar, at, a, b, i)
    ensures Stands(left, right, f)
    decreases a, b, 1, |a.items| + |b.items| - i
  {
    hide Query, Diffs;
    ChildStands(left, right, at, Index(i), a, b);
    if f in DiffItems(scalar, at, a, b, i + 1) {
      ItemsStand(scalar, left, right, at, a, b, i + 1, f);
    } else if i < |a.items| && i < |b.items| {
      DiffsStand(scalar, left, right, at + [Index(i)], a.items[i], b.items[i], f);
    }
  }

  // ---------------------------------------------------------------- nothing is missed

  lemma {:induction false} SameNone(scalar: Rendering, at: seq<Seg>, a: Json)
    ensures Diffs(scalar, at, a, a) == []
    decreases a, 2, 0
  {
    if a.Object? {
      SameKeys(scalar, at, a, SortedKeys(a.fields.Keys + a.fields.Keys));
    } else if a.List? {
      SameItems(scalar, at, a, 0);
    }
  }

  lemma {:induction false} SameKeys(scalar: Rendering, at: seq<Seg>, a: Json, keys: seq<string>)
    requires a.Object? && forall k :: k in keys ==> k in a.fields
    ensures DiffKeys(scalar, at, a, a, keys) == []
    decreases a, 1, |keys|
  {
    hide Diffs;
    if keys != [] {
      SameNone(scalar, at + [Key(keys[0])], a.fields[keys[0]]);
      SameKeys(scalar, at, a, keys[1..]);
    }
  }

  lemma {:induction false} SameItems(scalar: Rendering, at: seq<Seg>, a: Json, i: nat)
    requires a.List?
    ensures DiffItems(scalar, at, a, a, i) == []
    decreases a, 1, |a.items| + |a.items| - i
  {
    hide Diffs;
    if i < |a.items| {
      SameNone(scalar, at + [Index(i)], a.items[i]);
      SameItems(scalar, at, a, i + 1);
    }
  }

  /** One place is the other, or inside it. */
  predicate Along(p: seq<Seg>, q: seq<Seg>) {
    p <= q || q <= p
  }

  /** A difference somewhere along a place. */
  ghost predicate Told(fs: seq<Found>, q: seq<Seg>) {
    exists f :: f in fs && Along(f.at, q)
  }

  /** All indexes count from the front, as printed ones do. */
  predicate Forward(segs: seq<Seg>) {
    forall i :: 0 <= i < |segs| ==> segs[i].Key? || segs[i].at >= 0
  }

  lemma {:induction false} KeyTold(scalar: Rendering, at: seq<Seg>, a: Json, b: Json, keys: seq<string>, k: string,
          q: seq<Seg>)
    requires a.Object? && b.Object? && (forall j :: j in keys ==> j in a.fields || j in b.fields) && k in keys
    requires at + [Key(k)] <= q
    requires k in a.fields && k in b.fields ==> Told(Diffs(scalar, at + [Key(k)], a.fields[k], b.fields[k]), q)
    ensures Told(DiffKeys(scalar, at, a, b, keys), q)
    decreases |keys|
  {
    hide Diffs;
    var rest := DiffKeys(scalar, at, a, b, keys[1..]);
    if keys[0] != k {
      KeyTold(scalar, at, a, b, keys[1..], k, q);
      var f :| f in rest && Along(f.at, q);
      assert f in DiffKeys(scalar, at, a, b, keys);
    } else if k in a.fields && k in b.fields {
      var f :| f in Diffs(scalar, at + [Key(k)], a.fields[k], b.fields[k]) && Along(f.at, q);
      assert f in DiffKeys(scalar, at, a, b, keys);
    } else {
      var f := DiffKeys(scalar, at, a, b, keys)[0];
      assert f.at == at + [Key(k)] && f in DiffKeys(scalar, at, a, b, keys);
    }
  }

  lemma {:induction false} ItemTold(scalar: Rendering, at: seq<Seg>, a: Json, b: Json, i: nat, n: nat, q: seq<Seg>)
    requires a.List? && b.List? && i <= n && (n < |a.items| || n < |b.items|)
    requires at + [Index(n)] <= q
    requires n < |a.items| && n < |b.items| ==> Told(Diffs(scalar, at + [Index(n)], a.items[n], b.items[n]), q)
    ensures Told(DiffItems(scalar, at, a, b, i), q)
    decreases n - i
  {
    hide Diffs;
    var rest := DiffItems(scalar, at, a, b, i + 1);
    if i < n {
      ItemTold(scalar, at, a, b, i + 1, n, q);
      var f :| f in rest && Along(f.at, q);
      assert f in DiffItems(scalar, at, a, b, i);
    } else if n < |a.items| && n < |b.items| {
      var f :| f in Diffs(scalar, at + [Index(n)], a.items[n], b.items[n]) && Along(f.at, q);
      assert f in DiffItems(scalar, at, a, b, i);
    } else {
      var f := DiffItems(scalar, at, a, b, i)[0];
      assert f.at == at + [Index(n)] && f in DiffItems(scalar, at, a, b, i);
    }
  }

  lemma AlongUp(p: seq<Seg>, q: seq<Seg>, r: seq<Seg>)
    requires Along(p, q) && r <= q
    ensures Along(p, r)
  {
  }

  lemma ToldUp(fs: seq<Found>, q: seq<Seg>, r: seq<Seg>)
    requires Told(fs, q) && r <= q
    ensures Told(fs, r)
  {
    hide Along;
    var f :| f in fs && Along(f.at, q);
    AlongUp(f.at, q, r);
  }

  lemma MoreKeys(m: map<string, Json>, m': map<string, Json>)
    requires forall k :: k in m ==> k in m' && m'[k] == m[k]
    ensures m == m' || exists k :: k in m' && k !in m
  {
    if forall k :: k in m' ==> k in m {
      assert m == m';
    }
  }

  /** Two different containers of a kind differ at some child. */
  lemma DifferSomewhere(a: Json, b: Json) returns (s: Seg)
    requires a != b && ((a.Object? && b.Object?) || (a.List? && b.List?))
    ensures Follow(a, s) != Follow(b, s) && (s.Key? || s.at >= 0)
  {
    if a.Object? {
      if k :| k in a.fields && (k !in b.fields || a.fields[k] != b.fields[k]) {
        s := Key(k);
      } else {
        MoreKeys(a.fields, b.fields);
        var k :| k in b.fields && k !in a.fields;
        s := Key(k);
      }
    } else if |a.items| != |b.items| {
      s := Index(if |a.items| < |b.items| then |a.items| else |b.items|);
    } else {
      var i :| 0 <= i < |a.items| && a.items[i] != b.items[i];
      s := Index(i);
    }
  }

  /** Wherever the two documents answer differently, a difference is reported there, above or below. */
  lemma {:induction false} AllTold(scalar: Rendering, at: seq<Seg>, a: Json, b: Json, rel: seq<Seg>)
    requires Faithful(scalar) && Forward(rel) && Query(a, rel) != Query(b, rel)
    ensures Told(Diffs(scalar, at, a, b), at + rel)
    decreases a, if rel == [] then 1 else 0
  {
    if rel == [] {
      assert at + rel == at;
      if (a.Object? && b.Object?) || (a.List? && b.List?) {
        var s := DifferSomewhere(a, b);
        QueryOne(a, s);
        QueryOne(b, s);
        AllTold(scalar, at, a, b, [s]);
        ToldUp(Diffs(scalar, at, a, b), at + [s], at);
      } else {
        ToldHere(scalar, at, a, b, at);
      }
    } else {
      hide Diffs, Faithful, Told;
      var s, rest := rel[0], rel[1..];
      assert Forward(rest) && at + rel == at + [s] + rest;
      if a.Object? && b.Object? && s.Key? {
        if s.name in a.fields && s.name in b.fields {
          AllTold(scalar, at + [s], a.fields[s.name], b.fields[s.name], rest);
        }
        KeyTold(scalar, at, a, b, SortedKeys(a.fields.Keys + b.fields.Keys), s.name, at + rel);
        ByKeys(scalar, at, a, b);
      } else if a.List? && b.List? && s.Index? {
        if s.at < |a.items| && s.at < |b.items| {
          AllTold(scalar, at + [s], a.items[s.at], b.items[s.at], rest);
        }
        ItemTold(scalar, at, a, b, 0, s.at, at + rel);
        ByItems(scalar, at, a, b);
      } else {
        ToldHere(scalar, at, a, b, at + rel);
      }
    }
  }

  lemma QueryOne(j: Json, s: Seg)
    ensures Query(j, [s]) == Follow(j, s)
  {
    assert [s][1..] == [];
  }

  lemma ByKeys(scalar: Rendering, at: seq<Seg>, a: Json, b: Json)
    requires a.Object? && b.Object?
    ensures Diffs(scalar, at, a, b) == DiffKeys(scalar, at, a, b, SortedKeys(a.fields.Keys + b.fields.Keys))
  {
  }

  lemma ByItems(scalar: Rendering, at: seq<Seg>, a: Json, b: Json)
    requires a.List? && b.List?
    ensures Diffs(scalar, at, a, b) == DiffItems(scalar, at, a, b, 0)
  {
  }

  lemma ToldHere(scalar: Rendering, at: seq<Seg>, a: Json, b: Json, q: seq<Seg>)
    requires Faithful(scalar) && a != b && !(a.Object? && b.Object?) && !(a.List? && b.List?) && at <= q
    ensures Told(Diffs(scalar, at, a, b), q)
  {
    assert scalar(a) != scalar(b);
    assert Diffs(scalar, at, a, b)[0] == Found(at, Some(a), Some(b));
    assert Found(at, Some(a), Some(b)) in Diffs(scalar, at, a, b);
  }

  /** There are no differences if and only if the documents are equal. */
  lemma NoneExactly(scalar: Rendering, a: Json, b: Json)
    requires Faithful(scalar)
    ensures Diffs(scalar, [], a, b) == [] <==> a == b
  {
    hide Diffs, Faithful;
    if a == b {
      SameNone(scalar, [], a);
    } else {
      AllTold(scalar, [], a, b, []);
    }
  }

  lemma CompactIsFaithful()
    ensures Faithful(Compact)
  {
    forall a, b | Compact(a) == Compact(b)
      ensures a == b
    {
      CompactTells(a, b);
    }
  }

  /** Rendered as compact JSON, there are no differences if and only if the documents are equal. */
  lemma CompactNoneExactly(a: Json, b: Json)
    ensures Diffs(Compact, [], a, b) == [] <==> a == b
  {
    CompactIsFaithful();
    NoneExactly(Compact, a, b);
  }

  // ---------------------------------------------------------------- the report

  /** Every key, however deep, is one that a dot can name, and no list is longer than an int can count. */
  ghost predicate Named(j: Json) {
    match j
    case Object(fields) => forall k :: k in fields ==> Plain(Key(k)) && Named(fields[k])
    case List(items) => |items| <= MAX_INT && forall i :: 0 <= i < |items| ==> Named(items[i])
    case _ => true
  }

  function Report(scalar: Rendering, f: Found): Change {
    Change(Print(f.at),
           if f.old_.None? then Added else if f.new_.None? then Removed else Changed,
           if f.old_.None? then "" else scalar(f.old_.value),
           if f.new_.None? then "" else scalar(f.new_.value))
  }

  function ReportAll(scalar: Rendering, fs: seq<Found>): seq<Change> {
    if fs == [] then [] else [Report(scalar, fs[0])] + ReportAll(scalar, fs[1..])
  }

  /** The report of two documents. */
  ghost function Changes(scalar: Rendering, left: Json, right: Json): seq<Change> {
    ReportAll(scalar, Diffs(scalar, [], left, right))
  }

  lemma {:induction false} Reported(scalar: Rendering, fs: seq<Found>, c: Change) returns (f: Found)
    requires c in ReportAll(scalar, fs)
    ensures f in fs && c == Report(scalar, f)
    decreases |fs|
  {
    if c == Report(scalar, fs[0]) {
      f := fs[0];
    } else {
      f := Reported(scalar, fs[1..], c);
    }
  }

  /** A place in a document whose keys a dot can name is printed so that it reads back. */
  lemma {:induction false} PlacesPlain(j: Json, at: seq<Seg>)
    requires Named(j) && Forward(at) && Query(j, at).Some?
    ensures forall i :: 0 <= i < |at| ==> Plain(at[i])
    decreases |at|
  {
    if at != [] {
      PlacesPlain(Follow(j, at[0]).value, at[1..]);
      AllOrFirst(at);
    }
  }

  lemma {:induction false} DiffsForward(scalar: Rendering, at: seq<Seg>, a: Json, b: Json, f: Found)
    requires f in Diffs(scalar, at, a, b) && Forward(at)
    ensures Forward(f.at)
    decreases a, b, 2, 0
  {
    if a.Object? && b.Object? {
      KeysForward(scalar, at, a, b, SortedKeys(a.fields.Keys + b.fields.Keys), f);
    } else if a.List? && b.List? {
      ItemsForward(scalar, at, a, b, 0, f);
    }
  }

  lemma {:induction false} KeysForward(scalar: Rendering, at: seq<Seg>, a: Json, b: Json, keys: seq<string>, f: Found)
    requires a.Object? && b.Object? && forall k :: k in keys ==> k in a.fields || k in b.fields
    requires f in DiffKeys(scalar, at, a, b, keys) && Forward(at)
    ensures Forward(f.at)
    decreases a, b, 1, |keys|
  {
    hide Diffs;
    var k := keys[0];
    if f in DiffKeys(scalar, at, a, b, keys[1..]) {
      KeysForward(scalar, at, a, b, keys[1..], f);
    } else if k in a.fields && k in b.fields {
      DiffsForward(scalar, at + [Key(k)], a.fields[k], b.fields[k], f);
    }
  }

  lemma {:induction false} ItemsForward(scalar: Rendering, at: seq<Seg>, a: Json, b: Json, i: nat, f: Found)
    requires a.List? && b.List?
    requires f in DiffItems(scalar, at, a, b, i) && Forward(at)
    ensures Forward(f.at)
    decreases a, b, 1, |a.items| + |b.items| - i
  {
    hide Diffs;
    if f in DiffItems(scalar, at, a, b, i + 1) {
      ItemsForward(scalar, at, a, b, i + 1, f);
    } else if i < |a.items| && i < |b.items| {
      DiffsForward(scalar, at + [Index(i)], a.items[i], b.items[i], f);
    }
  }

  /** In documents whose keys a dot can name, every reported path reads back, and following it gives
      what the change says stood there on each side, or nothing on the side that lacks it. */
  lemma ChangesResolve(scalar: Rendering, left: Json, right: Json, c: Change)
    requires Named(left) && Named(right) && c in Changes(scalar, left, right)
    ensures Parse(c.path).Some?
    ensures var segs := Parse(c.path).value;
            var l, r := Query(left, segs), Query(right, segs);
            && l != r
            && (c.kind == Added <==> l.None?) && (c.kind == Removed <==> r.None?)
            && (l.Some? ==> c.old_ == scalar(l.value)) && (r.Some? ==> c.new_ == scalar(r.value))
  {
    hide Diffs, Print, Parse, Plain, Follow, Named;
    var f := Reported(scalar, Diffs(scalar, [], left, right), c);
    DiffsStand(scalar, left, right, [], left, right, f);
    DiffsForward(scalar, [], left, right, f);
    if f.old_.Some? {
      PlacesPlain(left, f.at);
    } else {
      PlacesPlain(right, f.at);
    }
    PrintReadsBack(f.at);
  }

  /** Each difference is reported once and in its place, with an empty text for a side that lacks it. */
  lemma {:induction false} ReportedAt(scalar: Rendering, fs: seq<Found>, k: nat)
    ensures |ReportAll(scalar, fs)| == |fs|
    ensures k < |fs| ==>
              var c, f := ReportAll(scalar, fs)[k], fs[k];
              && c.path == Print(f.at) && (c.kind == Added <==> f.old_.None?)
              && (c.kind == Removed <==> f.new_.None? && f.old_.Some?)
              && c.old_ == (match f.old_ { case None => "" case Some(v) => scalar(v) })
              && c.new_ == (match f.new_ { case None => "" case Some(v) => scalar(v) })
    decreases |fs|
  {
    hide Print;
    if fs != [] {
      ReportedAt(scalar, fs[1..], if k == 0 then 0 else k - 1);
    }
  }

  const DOTTED := Object(map["a.b" := Null])

  /** A key with a dot in it is reported under a path that reads back as two keys, and names another
      value than the one that was removed. */
  lemma DottedKeyMisleads(scalar: Rendering)
    ensures Changes(scalar, DOTTED, Object(map[])) == [Change("$.a.b", Removed, scalar(Null), "")]
    ensures Parse("$.a.b") == Some([Key("a"), Key("b")]) && Query(DOTTED, [Key("a"), Key("b")]) == None
  {
    hide Diffs, Print, Parse;
    DottedDiff(scalar);
    PrintDotted();
    PrintReadsBack([Key("a"), Key("b")]);
    ReportOne(scalar, Found([Key("a.b")], Some(Null), None));
  }

  lemma ReportOne(scalar: Rendering, f: Found)
    ensures ReportAll(scalar, [f]) == [Report(scalar, f)]
  {
    hide Report;
    assert [f][1..] == [] && ReportAll(scalar, []) == [];
  }

  lemma PrintDotted()
    ensures Print([Key("a.b")]) == Print([Key("a"), Key("b")]) == "$.a.b"
  {
    PrintOne(Key("a.b"));
    PrintOne(Key("b"));
    assert [Key("a"), Key("b")][1..] == [Key("b")];
    assert "." + "a" + ".b" == ".a.b" && "." + "b" == ".b" && "." + "a.b" == ".a.b" && "$" + ".a.b" == "$.a.b";
  }

  lemma PrintOne(s: Seg)
    ensures PrintAll([s]) == PrintSeg(s)
  {
    hide PrintSeg;
    assert [s][1..] == [] && PrintAll([]) == "";
  }

  lemma DottedDiff(scalar: Rendering)
    ensures Diffs(scalar, [], DOTTED, Object(map[])) == [Found([Key("a.b")], Some(Null), None)]
  {
    var a, b := DOTTED, Object(map[]);
    var keys := SortedKeys(a.fields.Keys + b.fields.Keys);
    assert Ascending(Less, ["a.b"]);
    LessIsOrder();
    OneAscending(Less, keys, ["a.b"]);
    assert keys[1..] == [] && [] + [Key("a.b")] == [Key("a.b")];
    assert DiffKeys(scalar, [], a, b, []) == [];
  }

  // ---------------------------------------------------------------- the walk as it runs

  lemma {:induction false} ReportBoth(scalar: Rendering, a: seq<Found>, b: seq<Found>)
    ensures ReportAll(scalar, a + b) == ReportAll(scalar, a) + ReportAll(scalar, b)
    decreases |a|
  {
    hide Report;
    if a == [] {
      assert a + b == b;
    } else {
      ReportBoth(scalar, a[1..], b);
      DropInto(a, b, 1);
      assert (a + b)[0] == a[0];
      Assoc([Report(scalar, a[0])], ReportAll(scalar, a[1..]), ReportAll(scalar, b));
    }
  }

  lemma {:induction false} PrintOnto(segs: seq<Seg>, s: Seg)
    ensures Print(segs + [s]) == Print(segs) + PrintSeg(s)
  {
    PrintAllOnto(segs, s);
  }

  lemma {:induction false} PrintAllOnto(segs: seq<Seg>, s: Seg)
    ensures PrintAll(segs + [s]) == PrintAll(segs) + PrintSeg(s)
    decreases |segs|
  {
    hide PrintSeg;
    if segs == [] {
      PrintOne(s);
      assert segs + [s] == [s];
    } else {
      PrintAllOnto(segs[1..], s);
      assert (segs + [s])[1..] == segs[1..] + [s];
    }
  }

  /** What was reported, and what the rest will be. */
  ghost function WithRest(out: seq<Change>, scalar: Rendering, rest: seq<Found>): seq<Change> {
    out + ReportAll(scalar, rest)
  }

  lemma RestBoth(out: seq<Change>, scalar: Rendering, a: seq<Found>, b: seq<Found>)
    ensures WithRest(out, scalar, a + b) == WithRest(out + ReportAll(scalar, a), scalar, b)
    ensures WithRest(out, scalar, []) == out
  {
    ReportBoth(scalar, a, b);
    assert out + (ReportAll(scalar, a) + ReportAll(scalar, b)) == out + ReportAll(scalar, a) + ReportAll(scalar, b);
    assert out + [] == out;
  }

  lemma ByRendering(scalar: Rendering, at: seq<Seg>, a: Json, b: Json)
    requires !(a.Object? && b.Object?) && !(a.List? && b.List?)
    ensures Diffs(scalar, at, a, b) == if scalar(a) != scalar(b) then [Found(at, Some(a), Some(b))] else []
  {
  }

  lemma KeyStep(scalar: Rendering, at: seq<Seg>, a: Json, b: Json, keys: seq<string>, i: nat)
    requires a.Object? && b.Object? && i < |keys| && forall k :: k in keys ==> k in a.fields || k in b.fields
    ensures keys[i] in a.fields || keys[i] in b.fields
    ensures DiffKeys(scalar, at, a, b, keys[i..]) ==
            AtKey(scalar, at, a, b, keys[i]) + DiffKeys(scalar, at, a, b, keys[i + 1..])
  {
    hide Diffs, AtKey;
    assert keys[i..][1..] == keys[i + 1..];
  }

  lemma NoKeys(scalar: Rendering, at: seq<Seg>, a: Json, b: Json, keys: seq<string>)
    requires a.Object? && b.Object?
    ensures DiffKeys(scalar, at, a, b, keys[|keys|..]) == []
  {
  }

  lemma ItemStep(scalar: Rendering, at: seq<Seg>, a: Json, b: Json, i: nat)
    requires a.List? && b.List? && (i < |a.items| || i < |b.items|)
    ensures DiffItems(scalar, at, a, b, i) == AtIndex(scalar, at, a, b, i) + DiffItems(scalar, at, a, b, i + 1)
  {
    hide Diffs, AtIndex;
  }

  lemma NoItems(scalar: Rendering, at: seq<Seg>, a: Json, b: Json, n: nat)
    requires a.List? && b.List? && n >= |a.items| && n >= |b.items|
    ensures DiffItems(scalar, at, a, b, n) == []
  {
  }

  /** The list the walk appends to. */
  class ChangeList {
    var out: seq<Change>

    constructor ()
      ensures out == []
    {
      out := [];
    }

    method Append(scalar: Rendering, c: Change, ghost f: Found)
      requires c == Report(scalar, f)
      modifies this
      ensures out == old(out) + ReportAll(scalar, [f])
    {
      ReportOne(scalar, f);
      out := out + [c];
    }

    method WalkJson(scalar: Rendering, path: string, ghost at: seq<Seg>, a: Json, b: Json)
      requires path == Print(at)
      modifies this
      ensures out == old(out) + ReportAll(scalar, Diffs(scalar, at, a, b))
      decreases a, b, 1
    {
      hide Diffs, Print;
      if a.Object? && b.Object? {
        ByKeys(scalar, at, a, b);
        WalkKeys(scalar, path, at, a, b);
      } else if a.List? && b.List? {
        ByItems(scalar, at, a, b);
        WalkItems(scalar, path, at, a, b);
      } else {
        ByRendering(scalar, at, a, b);
        if scalar(a) != scalar(b) {
          Append(scalar, Change(path, Changed, scalar(a), scalar(b)), Found(at, Some(a), Some(b)));
        } else {
          assert out + [] == out;
        }
      }
    }

    method WalkKeys(scalar: Rendering, path: string, ghost at: seq<Seg>, a: Json, b: Json)
      requires path == Print(at) && a.Object? && b.Object?
      modifies this
      ensures out == old(out) + ReportAll(scalar, DiffKeys(scalar, at, a, b, SortedKeys(a.fields.Keys + b.fields.Keys)))
      decreases a, b, 0, 1
    {
      hide Diffs, DiffKeys, AtKey, Print, ReportAll, SortedKeys, Report;
      var keys := SortKeys(a.fields.Keys + b.fields.Keys);
      ghost var goal := WithRest(out, scalar, DiffKeys(scalar, at, a, b, keys));
      assert keys[0..] == keys;
      for i := 0 to |keys|
        invariant WithRest(out, scalar, DiffKeys(scalar, at, a, b, keys[i..])) == goal
      {
        assert keys[i] in keys;
        KeyStep(scalar, at, a, b, keys, i);
        ghost var before := out;
        WalkKey(scalar, path, at, a, b, keys[i]);
        RestBoth(before, scalar, AtKey(scalar, at, a, b, keys[i]), DiffKeys(scalar, at, a, b, keys[i + 1..]));
      }
      NoKeys(scalar, at, a, b, keys);
      RestBoth(out, scalar, [], []);
    }

    /** One key: added, removed, or walked into. */
    method WalkKey(scalar: Rendering, path: string, ghost at: seq<Seg>, a: Json, b: Json, k: string)
      requires path == Print(at) && a.Object? && b.Object? && (k in a.fields || k in b.fields)
      modifies this
      ensures out == old(out) + ReportAll(scalar, AtKey(scalar, at, a, b, k))
      decreases a, b, 0, 0
    {
      hide Diffs, Print, ReportAll;
      var child := path + "." + k;
      PrintOnto(at, Key(k));
      ghost var at' := at + [Key(k)];
      assert child == Print(at') by {
        assert path + ("." + k) == path + "." + k;
      }
      if k !in a.fields {
        Append(scalar, Change(child, Added, "", scalar(b.fields[k])), Found(at', None, Some(b.fields[k])));
      } else if k !in b.fields {
        Append(scalar, Change(child, Removed, scalar(a.fields[k]), ""), Found(at', Some(a.fields[k]), None));
      } else {
        WalkJson(scalar, child, at', a.fields[k], b.fields[k]);
      }
    }

    method WalkItems(scalar: Rendering, path: string, ghost at: seq<Seg>, a: Json, b: Json)
      requires path == Print(at) && a.List? && b.List?
      modifies this
      ensures out == old(out) + ReportAll(scalar, DiffItems(scalar, at, a, b, 0))
      decreases a, b, 0, 1
    {
      hide Diffs, DiffItems, AtIndex, Print, ReportAll, Report;
      ghost var goal := WithRest(out, scalar, DiffItems(scalar, at, a, b, 0));
      var n := if |a.items| > |b.items| then |a.items| else |b.items|;
      for i := 0 to n
        invariant WithRest(out, scalar, DiffItems(scalar, at, a, b, i)) == goal
      {
        ItemStep(scalar, at, a, b, i);
        ghost var before := out;
        WalkItem(scalar, path, at, a, b, i);
        RestBoth(before, scalar, AtIndex(scalar, at, a, b, i), DiffItems(scalar, at, a, b, i + 1));
      }
      NoItems(scalar, at, a, b, n);
      RestBoth(out, scalar, [], []);
    }

    /** One index: added, removed, or walked into. */
    method WalkItem(scalar: Rendering, path: string, ghost at: seq<Seg>, a: Json, b: Json, i: nat)
      requires path == Print(at) && a.List? && b.List? && (i < |a.items| || i < |b.items|)
      modifies this
      ensures out == old(out) + ReportAll(scalar, AtIndex(scalar, at, a, b, i))
      decreases a, b, 0, 0
    {
      hide Diffs, Print, ReportAll;
      var child := path + "[" + Itoa(i) + "]";
      PrintOnto(at, Index(i));
      ghost var at' := at + [Index(i)];
      assert child == Print(at') by {
        assert path + ("[" + Itoa(i) + "]") == path + "[" + Itoa(i) + "]";
      }
      if i >= |a.items| {
        Append(scalar, Change(child, Added, "", scalar(b.items[i])), Found(at', None, Some(b.items[i])));
      } else if i >= |b.items| {
        Append(scalar, Change(child, Removed, scalar(a.items[i]), ""), Found(at', Some(a.items[i]), None));
      } else {
        WalkJson(scalar, child, at', a.items[i], b.items[i]);
      }
    }
  }
}

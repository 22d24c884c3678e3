/** Where the structural diff of two JSON documents (internal/report/diff.go:331-398) reports: as far down as the two
    have anything in common, no place twice or inside another, and in order. */
module DiffPlaces {
  import opened Options
  import opened JsonPath
  import opened Order
  import opened JsonDiff

  // ---------------------------------------------------------------- as far down as can be

  /** What stands on both sides is not compared further: never two objects or two lists. What stands on one side
      only is missing in a place that both sides have. */
  ghost predicate Sharp(left: Json, right: Json, f: Found) {
    match (f.old_, f.new_)
    case (Some(a), Some(b)) => !(a.Object? && b.Object?) && !(a.List? && b.List?)
    case _ =>
      var n := |f.at| - 1;
      n >= 0 && match (Query(left, f.at[..n]), Query(right, f.at[..n]))
                case (Some(a), Some(b)) => (a.Object? && b.Object?) || (a.List? && b.List?)
                case _ => false
  }

  lemma MissingSharp(left: Json, right: Json, at: seq<Seg>, s: Seg, a: Json, b: Json, f: Found)
    requires Query(left, at) == Some(a) && Query(right, at) == Some(b) && f.at == at + [s]
    requires (a.Object? && b.Object?) || (a.List? && b.List?)
    requires f.old_.None? || f.new_.None?
    ensures Sharp(left, right, f)
  {
    hide Query;
    assert f.at[..|f.at| - 1] == at;
  }

  lemma {:induction false} DiffsSharp(scalar: Rendering, left: Json, right: Json, at: seq<Seg>, a: Json, b: Json,
                                      f: Found)
    requires Query(left, at) == Some(a) && Query(right, at) == Some(b) && f in Diffs(scalar, at, a, b)
    ensures Sharp(left, right, f)
    decreases a, b, 2, 0
  {
    if a.Object? && b.Object? {
      KeysSharp(scalar, left, right, at, a, b, SortedKeys(a.fields.Keys + b.fields.Keys), f);
    } else if a.List? && b.List? {
      ItemsSharp(scalar, left, right, at, a, b, 0, f);
    }
  }

  lemma {:induction false} KeysSharp(scalar: Rendering, left: Json, right: Json, at: seq<Seg>, a: Json, b: Json,
                                     keys: seq<string>, f: Found)
    requires a.Object? && b.Object? && forall k :: k in keys ==> k in a.fields || k in b.fields
    requires Query(left, at) == Some(a) && Query(right, at) == Some(b) && f in DiffKeys(scalar, at, a, b, keys)
    ensures Sharp(left, right, f)
    decreases a, b, 1, |keys|
  {
    hide Query, Diffs, Sharp;
    var k := keys[0];
    ChildStands(left, right, at, Key(k), a, b);
    if f in DiffKeys(scalar, at, a, b, keys[1..]) {
      KeysSharp(scalar, left, right, at, a, b, keys[1..], f);
    } else if k in a.fields && k in b.fields {
      DiffsSharp(scalar, left, right, at + [Key(k)], a.fields[k], b.fields[k], f);
    } else {
      MissingSharp(left, right, at, Key(k), a, b, f);
    }
  }

  lemma {:induction false} ItemsSharp(scalar: Rendering, left: Json, right: Json, at: seq<Seg>, a: Json, b: Json,
                                      i: nat, f: Found)
    requires a.List? && b.List?
    requires Query(left, at) == Some(a) && Query(right, at) == Some(b) && f in DiffItems(scalar, at, a, b, i)
    ensures Sharp(left, right, f)
    decreases a, b, 1, |a.items| + |b.items| - i
  {
    hide Query, Diffs, Sharp;
    ChildStands(left, right, at, Index(i), a, b);
    if f in DiffItems(scalar, at, a, b, i + 1) {
      ItemsSharp(scalar, left, right, at, a, b, i + 1, f);
    } else if i < |a.items| && i < |b.items| {
      DiffsSharp(scalar, left, right, at + [Index(i)], a.items[i], b.items[i], f);
    } else {
      MissingSharp(left, right, at, Index(i), a, b, f);
    }
  }

  // ---------------------------------------------------------------- in order, and apart

  predicate SegLess(s: Seg, t: Seg) {
    match (s, t)
    case (Key(a), Key(b)) => Less(a, b)
    case (Index(i), Index(j)) => i < j
    case _ => false
  }

  /** The two places part at the same depth: neither is the other, or inside it. */
  predicate Precedes(p: seq<Seg>, q: seq<Seg>) {
    exists n :: 0 <= n < |p| && n < |q| && p[..n] == q[..n] && SegLess(p[n], q[n])
  }

  predicate InOrder(fs: seq<Found>) {
    forall i, j :: 0 <= i < j < |fs| ==> Precedes(fs[i].at, fs[j].at)
  }

  predicate Under(fs: seq<Found>, at: seq<Seg>) {
    forall f :: f in fs ==> at <= f.at
  }

  /** Every difference is under `at` in a child after `s`. */
  predicate AllAfter(fs: seq<Found>, at: seq<Seg>, s: Seg) {
    forall f :: f in fs ==> at <= f.at && |f.at| > |at| && SegLess(s, f.at[|at|])
  }

  lemma OrderedBoth(x: seq<Found>, y: seq<Found>, at: seq<Seg>, s: Seg)
    requires InOrder(x) && InOrder(y) && Under(x, at + [s]) && AllAfter(y, at, s)
    ensures InOrder(x + y)
  {
    hide SegLess;
    var all, n := x + y, |at|;
    forall i, j | 0 <= i < j < |all|
      ensures Precedes(all[i].at, all[j].at)
    {
      if i < |x| <= j {
        var f, g := x[i], y[j - |x|];
        assert all[i] == f && all[j] == g && f in x && g in y;
        var p, q := f.at, g.at;
        assert (at + [s])[n] == s && p[n] == s && p[..n] == at && q[..n] == at;
      } else if j < |x| {
        assert all[i] == x[i] && all[j] == x[j];
      } else {
        assert all[i] == y[i - |x|] && all[j] == y[j - |x|];
      }
    }
  }

  lemma OneInOrder(f: Found)
    ensures InOrder([f]) && InOrder([])
  {
  }

  lemma {:induction false} DiffsInOrder(scalar: Rendering, at: seq<Seg>, a: Json, b: Json)
    ensures InOrder(Diffs(scalar, at, a, b)) && Under(Diffs(scalar, at, a, b), at)
    decreases a, b, 2, 0
  {
    hide InOrder;
    OneInOrder(Found(at, Some(a), Some(b)));
    if a.Object? && b.Object? {
      KeysInOrder(scalar, at, a, b, SortedKeys(a.fields.Keys + b.fields.Keys));
    } else if a.List? && b.List? {
      ItemsInOrder(scalar, at, a, b, 0);
    }
  }

  lemma {:induction false} KeysInOrder(scalar: Rendering, at: seq<Seg>, a: Json, b: Json, keys: seq<string>)
    requires a.Object? && b.Object? && Ascending(Less, keys)
    requires forall k :: k in keys ==> k in a.fields || k in b.fields
    ensures var fs := DiffKeys(scalar, at, a, b, keys);
            InOrder(fs) && Under(fs, at) && forall j :: AllBefore(j, keys) ==> AllAfter(fs, at, Key(j))
    decreases a, b, 1, |keys|
  {
    hide InOrder, Diffs, Less, Under, AllAfter;
    if keys == [] {
      NothingUnder(at);
    } else {
      var k := keys[0];
      KeysInOrder(scalar, at, a, b, keys[1..]);
      var x, y := AtKey(scalar, at, a, b, k), DiffKeys(scalar, at, a, b, keys[1..]);
      assert AllBefore(k, keys[1..]);
      OneInOrder(Found(at + [Key(k)], None, None));
      KeyInOrder(scalar, at, a, b, k);
      OrderedBoth(x, y, at, Key(k));
      UnderBoth(x, y, at, Key(k));
      forall j | AllBefore(j, keys)
        ensures AllAfter(x + y, at, Key(j))
      {
        assert Less(j, keys[0]);
        assert AllBefore(j, keys[1..]) by {
          forall i | 0 <= i < |keys[1..]|
            ensures Less(j, keys[1..][i])
          {
            assert keys[1..][i] == keys[i + 1];
          }
        }
        AfterBoth(x, y, at, Key(k), Key(j));
      }
    }
  }

  lemma KeyInOrder(scalar: Rendering, at: seq<Seg>, a: Json, b: Json, k: string)
    requires a.Object? && b.Object? && (k in a.fields || k in b.fields)
    ensures InOrder(AtKey(scalar, at, a, b, k)) && Under(AtKey(scalar, at, a, b, k), at + [Key(k)])
    decreases a, b, 0, 0
  {
    hide InOrder, Diffs;
    if k in a.fields && k in b.fields {
      DiffsInOrder(scalar, at + [Key(k)], a.fields[k], b.fields[k]);
    } else {
      OneInOrder(AtKey(scalar, at, a, b, k)[0]);
    }
  }

  lemma {:induction false} ItemsInOrder(scalar: Rendering, at: seq<Seg>, a: Json, b: Json, i: nat)
    requires a.List? && b.List?
    ensures var fs := DiffItems(scalar, at, a, b, i);
            InOrder(fs) && Under(fs, at) && forall j :: j < i ==> AllAfter(fs, at, Index(j))
    decreases a, b, 1, |a.items| + |b.items| - i
  {
    hide InOrder, Diffs, Under, AllAfter;
    if i >= |a.items| && i >= |b.items| {
      NothingUnder(at);
    } else {
      ItemsInOrder(scalar, at, a, b, i + 1);
      var x, y := AtIndex(scalar, at, a, b, i), DiffItems(scalar, at, a, b, i + 1);
      ItemInOrder(scalar, at, a, b, i);
      OrderedBoth(x, y, at, Index(i));
      UnderBoth(x, y, at, Index(i));
      forall j | j < i
        ensures AllAfter(x + y, at, Index(j))
      {
        AfterBoth(x, y, at, Index(i), Index(j));
      }
    }
  }

  lemma ItemInOrder(scalar: Rendering, at: seq<Seg>, a: Json, b: Json, i: nat)
    requires a.List? && b.List? && (i < |a.items| || i < |b.items|)
    ensures InOrder(AtIndex(scalar, at, a, b, i)) && Under(AtIndex(scalar, at, a, b, i), at + [Index(i)])
    decreases a, b, 0, 0
  {
    hide InOrder, Diffs;
    if i < |a.items| && i < |b.items| {
      DiffsInOrder(scalar, at + [Index(i)], a.items[i], b.items[i]);
    } else {
      OneInOrder(AtIndex(scalar, at, a, b, i)[0]);
    }
  }

  predicate AllBefore(j: string, keys: seq<string>) {
    forall i :: 0 <= i < |keys| ==> Less(j, keys[i])
  }

  lemma NothingUnder(at: seq<Seg>)
    ensures InOrder([]) && Under([], at) && forall s :: AllAfter([], at, s)
  {
  }

  lemma UnderBoth(x: seq<Found>, y: seq<Found>, at: seq<Seg>, s: Seg)
    requires Under(x, at + [s]) && Under(y, at)
    ensures Under(x + y, at)
  {
    assert at <= at + [s];
  }

  lemma AfterBoth(x: seq<Found>, y: seq<Found>, at: seq<Seg>, s: Seg, before: Seg)
    requires Under(x, at + [s]) && SegLess(before, s) && AllAfter(y, at, before)
    ensures AllAfter(x + y, at, before)
  {
    hide SegLess;
    forall f | f in x + y
      ensures at <= f.at && |f.at| > |at| && SegLess(before, f.at[|at|])
    {
      if f in x {
        assert (at + [s])[|at|] == s && f.at[|at|] == s;
      }
    }
  }
}

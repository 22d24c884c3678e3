/** The longest-common-subsequence table behind the diff engine (internal/report/diff.go), the edit
    script the forward walk reads out of it, and the proof that no alignment keeps more elements. */
module Lcs {

  /** What the table is for: one pair of indices for each element an alignment keeps. */
  type Alignment = seq<(nat, nat)>

  /** An alignment pairs equal elements and never crosses itself. */
  ghost predicate IsAlignment<T>(a: seq<T>, b: seq<T>, p: Alignment) {
    && (forall k :: 0 <= k < |p| ==> p[k].0 < |a| && p[k].1 < |b| && a[p[k].0] == b[p[k].1])
    && (forall k, l :: 0 <= k < l < |p| ==> p[k].0 < p[l].0 && p[k].1 < p[l].1)
  }

  function Max(x: nat, y: nat): nat {
    if x >= y then x else y
  }

  /** The recurrence the table satisfies, read from the front of the two sequences. */
  function Length<T(==)>(a: seq<T>, b: seq<T>): nat
    decreases |a| + |b|
  {
    if a == [] || b == [] then 0
    else if a[0] == b[0] then Length(a[1..], b[1..]) + 1
    else Max(Length(a[1..], b), Length(a, b[1..]))
  }

  /** One step of the walk: keep a pair, drop a left element, or insert a right one. */
  datatype Edit<T> = Keep(item: T) | Drop(item: T) | Insert(item: T)

  /** The edit the walk makes next: keep when equal, else follow the larger neighbour, preferring to
      drop; once a side runs out the other is drained. */
  function Next<T(==)>(a: seq<T>, b: seq<T>): (e: Edit<T>)
    requires a != [] || b != []
    ensures e.Keep? ==> a != [] && b != [] && e.item == a[0] == b[0]
    ensures e.Drop? ==> a != [] && e.item == a[0]
    ensures e.Insert? ==> b != [] && e.item == b[0]
  {
    if b == [] then Drop(a[0])
    else if a == [] then Insert(b[0])
    else if a[0] == b[0] then Keep(a[0])
    else if Length(a[1..], b) >= Length(a, b[1..]) then Drop(a[0])
    else Insert(b[0])
  }

  /** What an edit leaves of the left side. */
  function RestLeft<T>(e: Edit<T>, a: seq<T>): seq<T>
    requires e.Insert? || a != []
  {
    if e.Insert? then a else a[1..]
  }

  /** What an edit leaves of the right side. */
  function RestRight<T>(e: Edit<T>, b: seq<T>): seq<T>
    requires e.Drop? || b != []
  {
    if e.Drop? then b else b[1..]
  }

  /** The whole walk. */
  function Script<T(==)>(a: seq<T>, b: seq<T>): seq<Edit<T>>
    decreases |a| + |b|
  {
    if a == [] && b == [] then [] else
      var e := Next(a, b);
      [e] + Script(RestLeft(e, a), RestRight(e, b))
  }

  /** The left text a script was made from. */
  function LeftOf<T>(s: seq<Edit<T>>): seq<T> {
    if s == [] then [] else if s[0].Insert? then LeftOf(s[1..]) else [s[0].item] + LeftOf(s[1..])
  }

  /** The right text a script was made from. */
  function RightOf<T>(s: seq<Edit<T>>): seq<T> {
    if s == [] then [] else if s[0].Drop? then RightOf(s[1..]) else [s[0].item] + RightOf(s[1..])
  }

  /** The elements a script keeps. */
  function KeptOf<T>(s: seq<Edit<T>>): seq<T> {
    if s == [] then [] else if s[0].Keep? then [s[0].item] + KeptOf(s[1..]) else KeptOf(s[1..])
  }

  /** The same pairs, counted from di and dj. */
  ghost function Shift(p: Alignment, di: nat, dj: nat): Alignment
    requires forall k :: 0 <= k < |p| ==> p[k].0 >= di && p[k].1 >= dj
  {
    seq(|p|, k requires 0 <= k < |p| => (p[k].0 - di, p[k].1 - dj))
  }

  /** The same pairs, counted from di and dj before. */
  ghost function Lift(q: Alignment, di: nat, dj: nat): Alignment {
    seq(|q|, k requires 0 <= k < |q| => (q[k].0 + di, q[k].1 + dj))
  }

  lemma ShiftAligns<T>(a: seq<T>, b: seq<T>, p: Alignment, di: nat, dj: nat)
    requires IsAlignment(a, b, p) && di <= |a| && dj <= |b|
    requires p != [] ==> p[0].0 >= di && p[0].1 >= dj
    ensures forall k :: 0 <= k < |p| ==> p[k].0 >= di && p[k].1 >= dj
    ensures IsAlignment(a[di..], b[dj..], Shift(p, di, dj))
  {
    assert forall k :: 0 < k < |p| ==> p[0].0 < p[k].0 && p[0].1 < p[k].1;
  }

  lemma LiftAligns<T>(a: seq<T>, b: seq<T>, q: Alignment, di: nat, dj: nat)
    requires di <= |a| && dj <= |b| && IsAlignment(a[di..], b[dj..], q)
    ensures var p := Lift(q, di, dj); IsAlignment(a, b, p) && (p != [] ==> p[0].0 >= di && p[0].1 >= dj)
  {
  }

  lemma LengthFront<T>(a: seq<T>, b: seq<T>)
    requires a != [] && b != []
    ensures a[0] == b[0] ==> Length(a, b) == Length(a[1..], b[1..]) + 1
    ensures a[0] != b[0] ==> Length(a, b) >= Length(a[1..], b[0..]) && Length(a, b) >= Length(a[0..], b[1..])
  {
    assert a[0..] == a && b[0..] == b;
  }

  lemma FirstPair<T>(a: seq<T>, b: seq<T>, p: Alignment)
    requires IsAlignment(a, b, p) && p != []
    ensures p[0].0 < |a| && p[0].1 < |b| && a[p[0].0] == b[p[0].1]
  {
  }

  lemma RestAligns<T>(a: seq<T>, b: seq<T>, p: Alignment)
    requires IsAlignment(a, b, p) && p != []
    ensures IsAlignment(a, b, p[1..]) && (|p| > 1 ==> p[0].0 < p[1].0 && p[0].1 < p[1].1)
  {
  }

  /** No alignment of the two sequences keeps more pairs than the recurrence says. */
  lemma {:induction false} NoAlignmentKeepsMore<T>(a: seq<T>, b: seq<T>, p: Alignment)
    requires IsAlignment(a, b, p)
    ensures |p| <= Length(a, b)
    decreases |a| + |b|
  {
    hide Length, IsAlignment;
    if p != [] {
      FirstPair(a, b, p);
      LengthFront(a, b);
      var di, dj, q := if a[0] == b[0] || p[0].0 > 0 then 1 else 0,
                       if a[0] == b[0] || p[0].0 == 0 then 1 else 0,
                       if a[0] == b[0] then p[1..] else p;
      RestAligns(a, b, p);
      ShiftAligns(a, b, q, di, dj);
      NoAlignmentKeepsMore(a[di..], b[dj..], Shift(q, di, dj));
    }
  }

  /** Some alignment keeps exactly that many, so the recurrence is the maximum. */
  lemma {:induction false} SomeAlignmentReaches<T>(a: seq<T>, b: seq<T>) returns (p: Alignment)
    ensures IsAlignment(a, b, p)
    ensures |p| == Length(a, b)
    decreases |a| + |b|
  {
    if a == [] || b == [] {
      p := [];
    } else {
      var e := Next(a, b);
      LengthStep(a, b);
      hide Next, Length;
      var di, dj := if e.Insert? then 0 else 1, if e.Drop? then 0 else 1;
      p := SomeAlignmentReaches(a[di..], b[dj..]);
      LiftAligns(a, b, p, di, dj);
      p := Lift(p, di, dj);
      if e.Keep? {
        p := [(0, 0)] + p;
      }
    }
  }

  /** The walk keeps a pair where the two sides agree, and where they do not it drops the left one whenever
      nothing is lost by that. */
  lemma FirstEdit<T>(a: seq<T>, b: seq<T>)
    requires a != [] && b != []
    ensures var s := Script(a, b);
            && s != []
            && (a[0] == b[0] ==> s[0] == Keep(a[0]))
            && (a[0] != b[0] && Length(a[1..], b) == Length(a, b) ==> s[0] == Drop(a[0]))
            && (a[0] != b[0] && Length(a[1..], b) < Length(a, b) ==> s[0] == Insert(b[0]))
  {
    hide Script;
    assert Script(a, b) == [Next(a, b)] + Script(RestLeft(Next(a, b), a), RestRight(Next(a, b), b)) by {
      ScriptStarts(a, b);
    }
  }

  lemma ScriptStarts<T>(a: seq<T>, b: seq<T>)
    requires a != [] && b != []
    ensures Script(a, b) == [Next(a, b)] + Script(RestLeft(Next(a, b), a), RestRight(Next(a, b), b))
  {
    hide Next;
  }

  /** The walk loses nothing on either side. */
  lemma {:induction false} ScriptSides<T>(a: seq<T>, b: seq<T>)
    ensures LeftOf(Script(a, b)) == a && RightOf(Script(a, b)) == b
    decreases |a| + |b|
  {
    hide Length, Next;
    if a != [] || b != [] {
      var e := Next(a, b);
      ScriptSides(RestLeft(e, a), RestRight(e, b));
    }
  }

  /** Each edit leaves as long a common subsequence to be found, but for the element it keeps. */
  lemma LengthStep<T>(a: seq<T>, b: seq<T>)
    requires a != [] || b != []
    ensures var e := Next(a, b);
            Length(a, b) == Length(RestLeft(e, a), RestRight(e, b)) + (if e.Keep? then 1 else 0)
  {
  }

  /** The walk keeps as much as any alignment can. */
  lemma {:induction false} ScriptKeepsTheMost<T>(a: seq<T>, b: seq<T>)
    ensures |KeptOf(Script(a, b))| == Length(a, b)
    decreases |a| + |b|
  {
    if a != [] || b != [] {
      LengthStep(a, b);
      hide Length, Next;
      var e := Next(a, b);
      ScriptKeepsTheMost(RestLeft(e, a), RestRight(e, b));
    }
  }

  /** The walk at (i, j), in terms of the elements and lengths the loops look at. */
  lemma NextAt<T>(a: seq<T>, b: seq<T>, i: nat, j: nat)
    requires i <= |a| && j <= |b| && (i < |a| || j < |b|)
    ensures var e := Next(a[i..], b[j..]);
            && e == (if j == |b| then Drop(a[i])
                     else if i == |a| then Insert(b[j])
                     else if a[i] == b[j] then Keep(a[i])
                     else if Length(a[i + 1..], b[j..]) >= Length(a[i..], b[j + 1..]) then Drop(a[i])
                     else Insert(b[j]))
            && RestLeft(e, a[i..]) == (if e.Insert? then a[i..] else a[i + 1..])
            && RestRight(e, b[j..]) == (if e.Drop? then b[j..] else b[j + 1..])
  {
    if i < |a| {
      assert a[i..][1..] == a[i + 1..];
    }
    if j < |b| {
      assert b[j..][1..] == b[j + 1..];
    }
  }

  /** Entry (i, j) is the length for the suffixes that start there. */
  ghost predicate IsTable<T>(table: array2<nat>, a: seq<T>, b: seq<T>)
    reads table
  {
    && table.Length0 == |a| + 1 && table.Length1 == |b| + 1
    && forall i, j :: 0 <= i <= |a| && 0 <= j <= |b| ==> table[i, j] == Length(a[i..], b[j..])
  }

  lemma ReadTable<T>(table: array2<nat>, a: seq<T>, b: seq<T>, i: nat, j: nat)
    requires IsTable(table, a, b) && i <= |a| && j <= |b|
    ensures table.Length0 == |a| + 1 && table.Length1 == |b| + 1
    ensures table[i, j] == Length(a[i..], b[j..])
  {
  }

  lemma LengthAt<T>(a: seq<T>, b: seq<T>, i: nat, j: nat)
    requires i < |a| && j < |b|
    ensures Length(a[i..], b[j..]) ==
            if a[i] == b[j] then Length(a[i + 1..], b[j + 1..]) + 1
            else Max(Length(a[i + 1..], b[j..]), Length(a[i..], b[j + 1..]))
  {
    assert a[i..][1..] == a[i + 1..] && b[j..][1..] == b[j + 1..];
  }

  lemma NothingLeft<T>(a: seq<T>, b: seq<T>)
    ensures forall i :: 0 <= i <= |a| ==> Length(a[i..], b[|b|..]) == 0
    ensures forall j :: 0 <= j <= |b| ==> Length(a[|a|..], b[j..]) == 0
  {
  }

  /** The table, filled in place from the far corner. */
  method Table<T(==)>(a: seq<T>, b: seq<T>) returns (table: array2<nat>)
    ensures fresh(table)
    ensures IsTable(table, a, b)
  {
    hide Length;
    NothingLeft(a, b);
    table := new nat[|a| + 1, |b| + 1]((i, j) => 0);
    var i := |a|;
    while i > 0
      invariant 0 <= i <= |a|
      invariant forall k, l :: i <= k <= |a| && 0 <= l <= |b| ==> table[k, l] == Length(a[k..], b[l..])
      invariant forall k :: 0 <= k <= |a| ==> table[k, |b|] == 0
    {
      i := i - 1;
      var j := |b|;
      while j > 0
        invariant 0 <= j <= |b|
        invariant forall k, l :: i < k <= |a| && 0 <= l <= |b| ==> table[k, l] == Length(a[k..], b[l..])
        invariant forall l :: j <= l <= |b| ==> table[i, l] == Length(a[i..], b[l..])
        invariant forall k :: 0 <= k <= |a| ==> table[k, |b|] == 0
      {
        j := j - 1;
        LengthAt(a, b, i, j);
        if a[i] == b[j] {
          table[i, j] := table[i + 1, j + 1] + 1;
        } else {
          table[i, j] := Max(table[i + 1, j], table[i, j + 1]);
        }
      }
    }
  }
}

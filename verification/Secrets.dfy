/** Scrubbing secrets from text (internal/secret/secret.go): each registered value is replaced, longest
    first, and what that guarantees. */
module Secrets {

  const PLACEHOLDER := "[redacted]"

  /** Every occurrence of a non-empty value, left to right, replaced by the placeholder. */
  function ReplaceAll(t: string, v: string): string
    requires v != ""
  {
    if t == "" then ""
    else if v <= t then PLACEHOLDER + ReplaceAll(t[|v|..], v)
    else [t[0]] + ReplaceAll(t[1..], v)
  }

  predicate OccursAt(t: string, v: string, k: int) {
    0 <= k && k + |v| <= |t| && t[k..k + |v|] == v
  }

  predicate Contains(t: string, v: string) {
    exists k :: 0 <= k <= |t| && OccursAt(t, v, k)
  }

  /** The value, laid over the placeholder so that it starts `k` places in, agrees where they meet. */
  predicate Agrees(v: string, k: int) {
    forall i :: 0 <= i < |v| && 0 <= k + i < |PLACEHOLDER| ==> v[i] == PLACEHOLDER[k + i]
  }

  /** The value can be laid over the placeholder somewhere. */
  predicate Overlaps(v: string) {
    exists k :: -|v| < k < |PLACEHOLDER| && Agrees(v, k)
  }

  /** The value can be laid over the placeholder so that it starts inside it. */
  predicate StartsInside(v: string) {
    exists k :: 0 <= k < |PLACEHOLDER| && Agrees(v, k)
  }

  predicate NoneBefore(t: string, w: string, m: int) {
    forall j :: 0 <= j < m ==> !OccursAt(t, w, j)
  }

  /** A beginning of `v` can be put before `w`, untouched by what replaces `w`, so that the placeholder
      completes it. */
  predicate RunsInto(v: string, w: string) {
    exists m :: 0 < m < |v| && Agrees(v, 0 - m) && NoneBefore(v[..m] + w, w, m)
  }

  /** Replacing `w` can leave `v` behind in a text that did not hold it, or held it as `w` itself. */
  predicate Makes(w: string, v: string) {
    StartsInside(v) || RunsInto(v, w)
  }

  lemma MadeOverlaps(w: string, v: string)
    requires v != "" && Makes(w, v)
    ensures Overlaps(v)
  {
    hide Agrees, NoneBefore;
    if StartsInside(v) {
      var k :| 0 <= k < |PLACEHOLDER| && Agrees(v, k);
      assert -|v| < k;
    } else {
      var m :| 0 < m < |v| && Agrees(v, 0 - m) && NoneBefore(v[..m] + w, w, m);
      assert -|v| < 0 - m;
    }
  }

  /** A value without brackets that is no part of the placeholder's word; the empty value is part of it. */
  predicate Plain(v: string) {
    '[' !in v && ']' !in v && !Contains("redacted", v)
  }

  lemma NothingIsPart()
    ensures !Plain("")
  {
    assert OccursAt("redacted", "", 0);
  }

  /** A plain value overlaps the placeholder nowhere. */
  lemma PlainValue(v: string)
    requires v != "" && Plain(v)
    ensures !Overlaps(v)
  {
    forall k | -|v| < k < |PLACEHOLDER|
      ensures !Agrees(v, k)
    {
      if k <= 0 {
        assert PLACEHOLDER[k + -k] == '[' && v[-k] in v;
      } else if k + |v| > 9 {
        assert PLACEHOLDER[k + (9 - k)] == ']' && v[9 - k] in v;
      } else {
        InnerValue(v, k);
      }
    }
  }

  lemma InnerValue(v: string, k: int)
    requires 1 <= k && k + |v| <= 9 && !Contains("redacted", v)
    ensures !Agrees(v, k)
  {
    if Agrees(v, k) {
      assert PLACEHOLDER[1..9] == "redacted";
      assert "redacted"[k - 1..k - 1 + |v|] == v by {
        forall i | 0 <= i < |v|
          ensures "redacted"[k - 1 + i] == v[i]
        {
          assert PLACEHOLDER[k + i] == PLACEHOLDER[1..9][k - 1 + i];
        }
      }
      assert OccursAt("redacted", v, k - 1);
    }
  }

  // ---------------------------------------------------------------- one value

  /** An occurrence that reaches into a placeholder agrees with it. */
  lemma Reaches(w: string, k: int, t: string, j: nat)
    requires j + |PLACEHOLDER| <= |t| && t[j..j + |PLACEHOLDER|] == PLACEHOLDER
    requires OccursAt(t, w, k) && j - |w| < k < j + |PLACEHOLDER|
    ensures Agrees(w, k - j)
  {
    forall i | 0 <= i < |w| && 0 <= k - j + i < |PLACEHOLDER|
      ensures w[i] == PLACEHOLDER[k - j + i]
    {
      assert t[k..k + |w|][i] == t[k + i] == t[j..j + |PLACEHOLDER|][k - j + i];
    }
  }

  /** A beginning of `w` was copied, and what replacing makes of the rest of the text completes it. */
  lemma {:induction false} Completed(t: string, v: string, w: string, m: nat)
    requires v != "" && 0 < m <= |w| && w[..m] <= t && NoneBefore(t, v, m) && w[m..] <= ReplaceAll(t[m..], v)
    ensures (w != v && Contains(t, w)) || Makes(v, w)
    decreases |w| - m
  {
    hide Makes, Contains;
    var rest := t[m..];
    if m == |w| {
      assert w[..m] == w;
      assert !OccursAt(t, v, 0);
      OccursFirst(t, w);
    } else if v <= rest {
      RunsOn(t, v, w, m);
    } else {
      assert ReplaceAll(rest, v)[1..] == ReplaceAll(rest[1..], v) && rest[1..] == t[m + 1..];
      assert w[m..][0] == ReplaceAll(rest, v)[0] == t[m] && w[m + 1..] == w[m..][1..];
      assert w[..m + 1] == w[..m] + [w[m]] && t[..m + 1] == t[..m] + [t[m]];
      assert !OccursAt(t, v, m);
      Completed(t, v, w, m + 1);
    }
  }

  lemma RunsOn(t: string, v: string, w: string, m: nat)
    requires v != "" && 0 < m < |w| && w[..m] <= t && NoneBefore(t, v, m) && v <= t[m..]
    requires w[m..] <= ReplaceAll(t[m..], v)
    ensures Makes(v, w)
  {
    var out := ReplaceAll(t[m..], v);
    assert PLACEHOLDER <= out;
    forall i | 0 <= i < |w| && 0 <= i - m < |PLACEHOLDER|
      ensures w[i] == PLACEHOLDER[i - m]
    {
      assert w[m..][i - m] == out[i - m];
    }
    assert Agrees(w, 0 - m);
    var start := w[..m] + v;
    assert start == t[..m + |v|];
    forall j | 0 <= j < m
      ensures !OccursAt(start, v, j)
    {
      assert !OccursAt(t, v, j);
      PartOccurs(t, m + |v|, v, j);
    }
    assert RunsInto(w, v);
  }

  /** What occurs after replacing `v` occurred before, and is not `v`, unless replacing can make it. */
  lemma {:induction false} OnlyKept(t: string, v: string, w: string, k: int)
    requires v != "" && w != "" && OccursAt(ReplaceAll(t, v), w, k)
    ensures (w != v && Contains(t, w)) || Makes(v, w)
    decreases |t|
  {
    hide Makes, Contains;
    var out := ReplaceAll(t, v);
    if t != "" && v <= t {
      var n := |PLACEHOLDER|;
      if k < n {
        StartsThere(out, w, k, v);
      } else {
        assert out[n..] == ReplaceAll(t[|v|..], v);
        Later(out, w, k, n);
        OnlyKept(t[|v|..], v, w, k - n);
        Earlier(t, w, |v|);
      }
    } else if t != "" {
      var rest := ReplaceAll(t[1..], v);
      assert out[1..] == rest;
      if k > 0 {
        Later(out, w, k, 1);
        OnlyKept(t[1..], v, w, k - 1);
        Earlier(t, w, 1);
      } else {
        assert w == out[..|w|] && w[1..] == rest[..|w| - 1];
        assert w[..1] == [w[0]] && t[..1] == [t[0]] && w[0] == t[0];
        assert !OccursAt(t, v, 0);
        Completed(t, v, w, 1);
      }
    }
  }

  lemma StartsThere(out: string, w: string, k: int, v: string)
    requires w != "" && PLACEHOLDER <= out && k < |PLACEHOLDER| && OccursAt(out, w, k)
    ensures Makes(v, w)
  {
    assert out[0..0 + |PLACEHOLDER|] == PLACEHOLDER;
    Reaches(w, k, out, 0);
    assert StartsInside(w);
  }

  lemma OccursFirst(t: string, w: string)
    requires w <= t
    ensures Contains(t, w)
  {
    assert OccursAt(t, w, 0);
  }

  lemma Later(t: string, w: string, k: int, n: nat)
    requires OccursAt(t, w, k) && n <= k
    ensures OccursAt(t[n..], w, k - n)
  {
    assert t[n..][k - n..k - n + |w|] == t[k..k + |w|];
  }

  lemma Earlier(t: string, w: string, n: nat)
    requires n <= |t|
    ensures Contains(t[n..], w) ==> Contains(t, w)
  {
    if k :| 0 <= k <= |t[n..]| && OccursAt(t[n..], w, k) {
      assert t[n..][k..k + |w|] == t[n + k..n + k + |w|];
      assert OccursAt(t, w, n + k);
    }
  }

  /** A text without the value is left as it is. */
  lemma {:induction false} NothingToReplace(t: string, v: string)
    requires v != "" && !Contains(t, v)
    ensures ReplaceAll(t, v) == t
    decreases |t|
  {
    if t != "" {
      if v <= t {
        assert OccursAt(t, v, 0);
        assert false;
      }
      Earlier(t, v, 1);
      NothingToReplace(t[1..], v);
    }
  }

  /** A value survives its own replacement in some text if and only if it can start inside the
      placeholder, or run into one that stands for the value itself. */
  lemma LeaksExactly(v: string)
    requires v != ""
    ensures (exists t :: Contains(ReplaceAll(t, v), v)) <==> Makes(v, v)
  {
    hide Makes, ReplaceAll, OccursAt;
    if t :| Contains(ReplaceAll(t, v), v) {
      var k :| OccursAt(ReplaceAll(t, v), v, k);
      OnlyKept(t, v, v, k);
    }
    if Makes(v, v) {
      MadeLeaks(v);
    }
  }

  lemma MadeLeaks(v: string)
    requires v != "" && Makes(v, v)
    ensures exists t :: Contains(ReplaceAll(t, v), v)
  {
    hide Agrees, ReplaceAll, NoneBefore, OccursAt;
    if StartsInside(v) {
      var k :| 0 <= k < |PLACEHOLDER| && Agrees(v, k);
      LeavesFrom(v, k);
    } else {
      var m :| 0 < m < |v| && Agrees(v, 0 - m) && NoneBefore(v[..m] + v, v, m);
      LeavesAfter(v, m);
    }
  }

  lemma LeavesFrom(v: string, k: nat)
    requires v != "" && k < |PLACEHOLDER| && Agrees(v, k)
    ensures exists t :: Contains(ReplaceAll(t, v), v)
  {
    hide Agrees, ReplaceAll, OccursAt;
    var n := |PLACEHOLDER| - k;
    var b := if |v| <= n then "" else v[n..];
    NothingInShort(b, v);
    ReplacesFirst(v + b, v);
    assert (v + b)[|v|..] == b;
    SpelledInside(v, k, b);
    assert Contains(ReplaceAll(v + b, v), v);
  }

  lemma SpelledInside(v: string, k: nat, b: string)
    requires k < |PLACEHOLDER| && Agrees(v, k)
    requires b == if |v| <= |PLACEHOLDER| - k then "" else v[|PLACEHOLDER| - k..]
    ensures OccursAt(PLACEHOLDER + b, v, k)
  {
    var out := PLACEHOLDER + b;
    forall i | 0 <= i < |v|
      ensures out[k + i] == v[i]
    {
      assert k + i < |PLACEHOLDER| ==> v[i] == PLACEHOLDER[k + i];
    }
    assert out[k..k + |v|] == v;
  }

  lemma LeavesAfter(v: string, m: nat)
    requires 0 < m < |v| && Agrees(v, 0 - m) && NoneBefore(v[..m] + v, v, m)
    ensures exists t :: Contains(ReplaceAll(t, v), v)
  {
    hide Agrees, ReplaceAll, NoneBefore, OccursAt;
    var n := m + |PLACEHOLDER|;
    var b := if |v| <= n then "" else v[n..];
    var t := v[..m] + v + b;
    FirstAfter(v[..m], v, b);
    Spelled(v, m, b);
    NothingInShort(b, v);
    OccursFirst(v[..m] + (PLACEHOLDER + b), v);
  }

  lemma Spelled(v: string, m: nat, b: string)
    requires 0 < m < |v| && Agrees(v, 0 - m)
    requires b == if |v| <= m + |PLACEHOLDER| then "" else v[m + |PLACEHOLDER|..]
    ensures v <= v[..m] + (PLACEHOLDER + b) && |b| < |v|
  {
    var out := v[..m] + (PLACEHOLDER + b);
    forall i | 0 <= i < |v|
      ensures out[i] == v[i]
    {
      assert m <= i < m + |PLACEHOLDER| ==> v[i] == PLACEHOLDER[i - m];
    }
    assert v == out[..|v|];
  }

  /** A text in which the value does not begin before `p` is over is copied up to there. */
  lemma {:induction false} FirstAfter(p: string, v: string, b: string)
    requires v != "" && NoneBefore(p + v, v, |p|)
    ensures ReplaceAll(p + v + b, v) == p + (PLACEHOLDER + ReplaceAll(b, v))
    decreases |p|
  {
    hide ReplaceAll, OccursAt;
    var t := p + v + b;
    if p == "" {
      assert t[|v|..] == b && v <= t;
      ReplacesFirst(t, v);
    } else {
      var q := p[1..];
      assert p == [p[0]] + q && t[1..] == q + v + b && t[0] == p[0];
      NoneLater(p, v);
      FirstAfter(q, v, b);
      NotFirst(p + v, v, b);
      CopiesFirst(t, v);
      Regroup([p[0]], q, PLACEHOLDER + ReplaceAll(b, v));
    }
  }

  lemma ReplacesFirst(t: string, v: string)
    requires v != "" && v <= t
    ensures ReplaceAll(t, v) == PLACEHOLDER + ReplaceAll(t[|v|..], v)
  {
  }

  lemma CopiesFirst(t: string, v: string)
    requires v != "" && t != "" && !(v <= t)
    ensures ReplaceAll(t, v) == [t[0]] + ReplaceAll(t[1..], v)
  {
  }

  lemma Regroup(a: string, b: string, c: string)
    ensures a + (b + c) == a + b + c
  {
  }

  lemma NotFirst(t: string, v: string, b: string)
    requires !OccursAt(t, v, 0) && |v| <= |t|
    ensures !(v <= t + b)
  {
    assert t[0..|v|] == (t + b)[..|v|];
  }

  lemma NoneLater(p: string, v: string)
    requires p != "" && NoneBefore(p + v, v, |p|)
    ensures NoneBefore(p[1..] + v, v, |p[1..]|)
  {
    forall j | 0 <= j < |p[1..]|
      ensures !OccursAt(p[1..] + v, v, j)
    {
      assert !OccursAt(p + v, v, j + 1);
      assert (p + v)[j + 1..j + 1 + |v|] == (p[1..] + v)[j..j + |v|];
    }
  }

  lemma {:induction false} NothingInShort(t: string, v: string)
    requires |t| < |v|
    ensures ReplaceAll(t, v) == t
    decreases |t|
  {
    if t != "" {
      NothingInShort(t[1..], v);
    }
  }

  // ---------------------------------------------------------------- all of them

  predicate NoneEmpty(vs: seq<string>) {
    forall i :: 0 <= i < |vs| ==> vs[i] != ""
  }

  /** Each value in turn. */
  function Redacted(vs: seq<string>, t: string): string
    requires NoneEmpty(vs)
    decreases |vs|
  {
    if vs == [] then t else Redacted(vs[1..], ReplaceAll(t, vs[0]))
  }

  /** The values of a set, longest first; equally long ones in any order. */
  ghost predicate LongestFirst(vs: seq<string>, values: set<string>) {
    && (forall v :: v in vs <==> v in values)
    && (forall i, j :: 0 <= i < j < |vs| ==> |vs[i]| >= |vs[j]| && vs[i] != vs[j])
  }

  /** No registered value can be made by replacing one that is no longer. */
  ghost predicate Safe(values: set<string>) {
    forall v, w :: v in values && w in values && |w| <= |v| ==> !Makes(w, v)
  }

  /** Values that overlap the placeholder nowhere are safe, in whatever company. */
  lemma ApartIsSafe(values: set<string>)
    requires "" !in values && forall v :: v in values ==> !Overlaps(v)
    ensures Safe(values)
  {
    hide Overlaps, Makes;
    forall v, w | v in values && w in values
      ensures !Makes(w, v)
    {
      if Makes(w, v) {
        MadeOverlaps(w, v);
        assert false;
      }
    }
  }

  /** Gone once, and not made by what comes after. */
  lemma {:induction false} GoneStays(vs: seq<string>, t: string, w: string)
    requires NoneEmpty(vs) && w != "" && !Contains(t, w) && forall v :: v in vs ==> !Makes(v, w)
    ensures !Contains(Redacted(vs, t), w)
    decreases |vs|
  {
    hide Makes, Contains, ReplaceAll;
    if vs != [] {
      assert vs == [vs[0]] + vs[1..];
      GoneOnce(t, vs[0], w);
      GoneStays(vs[1..], ReplaceAll(t, vs[0]), w);
    }
  }

  lemma GoneOnce(t: string, v: string, w: string)
    requires v != "" && w != "" && !Makes(v, w) && (w == v || !Contains(t, w))
    ensures !Contains(ReplaceAll(t, v), w)
  {
    hide Makes, ReplaceAll, OccursAt;
    forall k
      ensures !OccursAt(ReplaceAll(t, v), w, k)
    {
      if OccursAt(ReplaceAll(t, v), w, k) {
        OnlyKept(t, v, w, k);
      }
    }
  }

  lemma {:induction false} GoneInTurn(vs: seq<string>, t: string, w: string)
    requires NoneEmpty(vs) && w in vs
    requires forall i, j :: 0 <= i < j < |vs| ==> |vs[i]| >= |vs[j]|
    requires forall v :: v in vs && |v| <= |w| ==> !Makes(v, w)
    ensures !Contains(Redacted(vs, t), w)
    decreases |vs|
  {
    hide Makes, Contains, ReplaceAll;
    assert vs == [vs[0]] + vs[1..];
    if w == vs[0] {
      GoneOnce(t, w, w);
      assert forall i :: 1 <= i < |vs| ==> |vs[0]| >= |vs[i]|;
      GoneStays(vs[1..], ReplaceAll(t, w), w);
    } else {
      GoneInTurn(vs[1..], ReplaceAll(t, vs[0]), w);
    }
  }

  lemma {:induction false} CleanStays(vs: seq<string>, t: string)
    requires forall i :: 0 <= i < |vs| ==> vs[i] != "" && !Contains(t, vs[i])
    ensures Redacted(vs, t) == t
    decreases |vs|
  {
    hide Contains, ReplaceAll;
    if vs != [] {
      NothingToReplace(t, vs[0]);
      CleanStays(vs[1..], t);
    }
  }

  /** In a safe set, redacted text contains no registered value, and redacting again, in whatever order,
      changes nothing. */
  lemma RedactedIsClean(values: set<string>, vs: seq<string>, again: seq<string>, t: string)
    requires LongestFirst(vs, values) && LongestFirst(again, values)
    requires "" !in values && Safe(values)
    ensures NoneEmpty(vs) && NoneEmpty(again)
    ensures forall v :: v in values ==> !Contains(Redacted(vs, t), v)
    ensures Redacted(again, Redacted(vs, t)) == Redacted(vs, t)
  {
    hide Makes, Contains, Redacted;
    assert forall i :: 0 <= i < |vs| ==> vs[i] in vs;
    assert forall i :: 0 <= i < |again| ==> again[i] in again;
    forall v | v in values
      ensures !Contains(Redacted(vs, t), v)
    {
      GoneInTurn(vs, t, v);
    }
    CleanStays(again, Redacted(vs, t));
  }

  lemma PlainIsSafe(values: set<string>)
    requires forall v :: v in values ==> Plain(v)
    ensures "" !in values && Safe(values)
  {
    hide Plain, Overlaps;
    NothingIsPart();
    forall v | v in values
      ensures !Overlaps(v)
    {
      PlainValue(v);
    }
    ApartIsSafe(values);
  }

  /** When no registered value has a bracket in it or is part of "redacted", redacted text contains none of
      them, and redacting again, in whatever order, changes nothing. */
  lemma PlainIsClean(values: set<string>, vs: seq<string>, again: seq<string>, t: string)
    requires LongestFirst(vs, values) && LongestFirst(again, values) && forall v :: v in values ==> Plain(v)
    ensures NoneEmpty(vs) && NoneEmpty(again)
    ensures forall v :: v in values ==> !Contains(Redacted(vs, t), v)
    ensures Redacted(again, Redacted(vs, t)) == Redacted(vs, t)
  {
    hide Plain, Safe, Contains, Redacted;
    PlainIsSafe(values);
    RedactedIsClean(values, vs, again, t);
  }

  /** For a set of one value this is exact: every text comes out clean if and only if the set is safe. */
  lemma OneIsCleanExactly(v: string)
    requires v != ""
    ensures NoneEmpty([v]) && LongestFirst([v], {v})
    ensures (forall t :: !Contains(Redacted([v], t), v)) <==> Safe({v})
  {
    hide Makes, Contains, Redacted, ReplaceAll;
    LeaksExactly(v);
    assert Safe({v}) <==> !Makes(v, v);
    forall t
      ensures NoneEmpty([v]) && Redacted([v], t) == ReplaceAll(t, v)
    {
      OneRedacted(v, t);
    }
    if Safe({v}) {
      assert forall t :: !Contains(ReplaceAll(t, v), v);
    } else {
      var t :| Contains(ReplaceAll(t, v), v);
      assert Contains(Redacted([v], t), v);
    }
  }

  lemma OneRedacted(v: string, t: string)
    requires v != ""
    ensures NoneEmpty([v]) && Redacted([v], t) == ReplaceAll(t, v)
  {
    assert [v][1..] == [] && Redacted([], ReplaceAll(t, v)) == ReplaceAll(t, v);
  }

  /** A text with none of the values in it is left as it is. */
  lemma {:induction false} NothingToScrub(vs: seq<string>, t: string)
    requires NoneEmpty(vs) && forall v :: v in vs ==> !Contains(t, v)
    ensures Redacted(vs, t) == t
    decreases |vs|
  {
    hide Contains, ReplaceAll;
    if vs != [] {
      NothingToReplace(t, vs[0]);
      NothingToScrub(vs[1..], t);
    }
  }

  /** Values one after another: the later ones scrub what the earlier ones left. */
  lemma {:induction false} ScrubbedInTurn(vs: seq<string>, ws: seq<string>, t: string)
    requires NoneEmpty(vs) && NoneEmpty(ws)
    ensures NoneEmpty(vs + ws) && Redacted(vs + ws, t) == Redacted(ws, Redacted(vs, t))
    decreases |vs|
  {
    hide ReplaceAll;
    if vs == [] {
      assert vs + ws == ws;
    } else {
      assert (vs + ws)[1..] == vs[1..] + ws;
      ScrubbedInTurn(vs[1..], ws, ReplaceAll(t, vs[0]));
    }
  }

  /** A value that is part of the placeholder is never scrubbed, whatever else is registered. */
  lemma {:induction false} PartIsNeverScrubbed(vs: seq<string>, v: string, t: string)
    requires NoneEmpty(vs) && Contains(PLACEHOLDER, v)
    ensures Contains(t, v) ==> Contains(Redacted(vs, t), v)
    decreases |vs|
  {
    hide Contains, ReplaceAll;
    if vs != [] {
      if Contains(t, vs[0]) {
        Shows(t, vs[0]);
        PartOfPart(ReplaceAll(t, vs[0]), PLACEHOLDER, v);
      } else {
        NothingToReplace(t, vs[0]);
      }
      PartIsNeverScrubbed(vs[1..], v, ReplaceAll(t, vs[0]));
    }
  }

  lemma PartOfPart(t: string, u: string, v: string)
    requires Contains(t, u) && Contains(u, v)
    ensures Contains(t, v)
  {
    var j :| 0 <= j <= |t| && OccursAt(t, u, j);
    var k :| 0 <= k <= |u| && OccursAt(u, v, k);
    assert u == t[j..j + |u|] && v == u[k..k + |v|];
    forall i | 0 <= i < |v|
      ensures t[j + k + i] == v[i]
    {
      assert t[j + k + i] == t[j..j + |u|][k + i] == u[k..k + |v|][i];
    }
    assert t[j + k..j + k + |v|] == v;
    assert OccursAt(t, v, j + k);
  }

  /** Where there was something to replace, the placeholder shows. */
  lemma {:induction false} Shows(t: string, v: string)
    requires v != "" && Contains(t, v)
    ensures Contains(ReplaceAll(t, v), PLACEHOLDER)
    decreases |t|
  {
    var out := ReplaceAll(t, v);
    if v <= t {
      OccursFirst(out, PLACEHOLDER);
    } else {
      var k :| 0 <= k <= |t| && OccursAt(t, v, k);
      assert k != 0 && t != "";
      Later(t, v, k, 1);
      Shows(t[1..], v);
      assert out[1..] == ReplaceAll(t[1..], v);
      Earlier(out, PLACEHOLDER, 1);
    }
  }

  /** Longest first: a registered value becomes one placeholder, whatever shorter ones it contains. */
  lemma {:induction false} WholeValue(values: set<string>, vs: seq<string>, v: string)
    requires LongestFirst(vs, values) && v in values
    requires "" !in values && forall w :: w in values ==> !Overlaps(w)
    ensures NoneEmpty(vs)
    ensures Redacted(vs, v) == PLACEHOLDER
    decreases |vs|
  {
    hide Overlaps, Contains;
    assert forall i :: 0 <= i < |vs| ==> vs[i] in vs;
    WholeFrom(vs, v);
  }

  lemma {:induction false} WholeFrom(vs: seq<string>, v: string)
    requires v in vs && forall i :: 0 <= i < |vs| ==> vs[i] != "" && !Overlaps(vs[i])
    requires forall i, j :: 0 <= i < j < |vs| ==> |vs[i]| >= |vs[j]| && vs[i] != vs[j]
    ensures Redacted(vs, v) == PLACEHOLDER
    decreases |vs|
  {
    hide Overlaps, Contains;
    if vs[0] == v {
      AllReplaced(v);
      forall i | 0 <= i < |vs[1..]|
        ensures !Contains(PLACEHOLDER, vs[1..][i])
      {
        NotInPlaceholder(vs[i + 1]);
      }
      CleanStays(vs[1..], PLACEHOLDER);
    } else {
      var j :| 0 <= j < |vs| && vs[j] == v;
      assert vs == [vs[0]] + vs[1..];
      LongerNotIn(v, vs[0]);
      NothingToReplace(v, vs[0]);
      WholeFrom(vs[1..], v);
    }
  }

  lemma AllReplaced(v: string)
    requires v != ""
    ensures ReplaceAll(v, v) == PLACEHOLDER
  {
    assert v[|v|..] == "" && PLACEHOLDER + "" == PLACEHOLDER;
  }

  lemma LongerNotIn(t: string, w: string)
    requires |w| >= |t| && w != t
    ensures !Contains(t, w)
  {
    assert t[0..|t|] == t;
  }

  lemma NotInPlaceholder(w: string)
    requires w != "" && !Overlaps(w)
    ensures !Contains(PLACEHOLDER, w)
  {
    forall k | 0 <= k <= |PLACEHOLDER|
      ensures !OccursAt(PLACEHOLDER, w, k)
    {
      if OccursAt(PLACEHOLDER, w, k) {
        assert PLACEHOLDER[0..0 + |PLACEHOLDER|] == PLACEHOLDER;
        Reaches(w, k, PLACEHOLDER, 0);
      }
    }
  }

  lemma PartOccurs(t: string, n: nat, v: string, k: int)
    requires n <= |t|
    ensures OccursAt(t[..n], v, k) ==> OccursAt(t, v, k)
  {
  }

  /** Any part of a clean text is clean. */
  lemma PartClean(t: string, n: nat, v: string)
    requires n <= |t| && !Contains(t, v)
    ensures !Contains(t[..n], v)
  {
    if k :| 0 <= k <= n && OccursAt(t[..n], v, k) {
      assert t[..n][k..k + |v|] == t[k..k + |v|];
      assert OccursAt(t, v, k);
    }
  }

  // ---------------------------------------------------------------- the set as it runs

  class SecretSet {
    var values: set<string>

    constructor ()
      ensures Valid() && values == {}
    {
      values := {};
    }

    predicate Valid()
      reads this
    {
      "" !in values
    }

    /** Register a secret; empty ones are ignored. */
    method Add(v: string)
      requires Valid()
      modifies this
      ensures Valid() && values == if v == "" then old(values) else old(values) + {v}
    {
      if v == "" {
        return;
      }
      values := values + {v};
    }

    /** The secrets longest first. Which of two equally long ones comes first is left open. */
    method Ordered() returns (vs: seq<string>)
      ensures LongestFirst(vs, values)
    {
      vs := [];
      var left := values;
      while left != {}
        invariant left <= values && forall v :: v in vs <==> v in values - left
        invariant forall i, j :: 0 <= i < j < |vs| ==> |vs[i]| >= |vs[j]| && vs[i] != vs[j]
        invariant forall i, w :: 0 <= i < |vs| && w in left ==> |vs[i]| >= |w|
      {
        SomeLongest(left);
        var v :| v in left && forall w :: w in left ==> |v| >= |w|;
        assert forall i :: 0 <= i < |vs| ==> vs[i] in vs;
        vs := vs + [v];
        left := left - {v};
      }
    }

    lemma {:induction false} SomeLongest(s: set<string>)
      requires s != {}
      ensures exists v :: v in s && forall w :: w in s ==> |v| >= |w|
      decreases |s|
    {
      var v :| v in s;
      if s - {v} != {} {
        SomeLongest(s - {v});
        var u :| u in s - {v} && forall w :: w in s - {v} ==> |u| >= |w|;
        var top := if |u| >= |v| then u else v;
        assert top in s && forall w :: w in s ==> |top| >= |w|;
      } else {
        assert s == {v};
      }
    }

    method Redact(text: string) returns (out: string)
      requires Valid()
      ensures exists vs :: LongestFirst(vs, values) && NoneEmpty(vs) && out == Redacted(vs, text)
      ensures Safe(values) ==> forall v :: v in values ==> !Contains(out, v)
    {
      hide Makes, Contains, ReplaceAll;
      var vs := Ordered();
      assert forall i :: 0 <= i < |vs| ==> vs[i] in vs;
      out := text;
      assert vs[0..] == vs;
      for i := 0 to |vs|
        invariant Redacted(vs[i..], out) == Redacted(vs, text)
      {
        assert vs[i] in vs && vs[i..][1..] == vs[i + 1..];
        out := ReplaceAll(out, vs[i]);
      }
      if Safe(values) {
        RedactedIsClean(values, vs, vs, text);
      }
    }
  }
}

/** Keeping a bounded number of per-flow-run records (internal/collector/samples.go): everything notable,
    and successes at an even stride. */
module Samples {
  import opened Arithmetic

  datatype Outcome = Ok | Failed | Throttled | Skipped

  datatype Sample = Sample(flow: string, outcome: Outcome, throttled: bool)

  /** A kept record, with its ordinal in the run. */
  datatype FlowRun = FlowRun(ordinal: nat, sample: Sample)

  datatype Kept = Kept(total: nat, kept: nat, everyNth: nat, runs: seq<FlowRun>)

  const CEILING := 10000

  /** What is never thinned: anything but a plain success. */
  predicate IsNotable(s: Sample) {
    s.outcome != Ok || s.throttled
  }

  function Notables(ss: seq<Sample>): (n: nat)
    ensures n <= |ss|
  {
    if ss == [] then 0 else Notables(ss[..|ss| - 1]) + if IsNotable(ss[|ss| - 1]) then 1 else 0
  }

  /** One of every how many successes is kept. */
  function Stride(total: nat, notable: nat): (stride: nat)
    requires notable <= total
    ensures stride > 0
  {
    var budget, successes := CEILING - notable, total - notable;
    if budget >= successes then 1
    else if budget <= 0 then successes + 1
    else
      AtLeastOne(successes, budget);
      (successes + budget - 1) / budget
  }

  lemma AtLeastOne(a: int, b: int)
    requires a > b > 0
    ensures (a + b - 1) / b >= 1
  {
  }

  /** A plain success is not notable, and everything else is. */
  lemma NotableTold(s: Sample)
    ensures !IsNotable(s) <==> s == Sample(s.flow, Ok, false)
  {
  }

  /** No smaller stride would do: with one, more successes would have their turn than there is room for. */
  lemma StrideIsLeast(total: nat, notable: nat, k: nat)
    requires notable <= total && notable < 10_000 && 0 < k < Stride(total, notable)
    ensures CeilDiv(total - notable, k) > 10_000 - notable
  {
    var b, s := CEILING - notable, total - notable;
    var stride, r := Stride(total, notable), (s + b - 1) % b;
    assert s + b - 1 == stride * b + r;
    Multiples(k, stride - 1, b);
    Distribute(stride, -1, b);
    Below(b, s, k);
  }

  /** Whether the record at `i` is wanted: notable, or its turn among the successes. */
  predicate Wanted(ss: seq<Sample>, stride: nat, i: nat)
    requires i < |ss| && stride > 0
  {
    IsNotable(ss[i]) || (i - Notables(ss[..i])) % stride == 0
  }

  /** The wanted records before `i`, in order. */
  function WantedBefore(ss: seq<Sample>, stride: nat, i: nat): seq<FlowRun>
    requires i <= |ss| && stride > 0
  {
    if i == 0 then []
    else if Wanted(ss, stride, i - 1) then WantedBefore(ss, stride, i - 1) + [FlowRun(i - 1, ss[i - 1])]
    else WantedBefore(ss, stride, i - 1)
  }

  function First<T>(s: seq<T>, n: nat): seq<T> {
    if |s| <= n then s else s[..n]
  }

  /** What a run's records are thinned to. */
  function Sampled(ss: seq<Sample>): Kept {
    if ss == [] then Kept(0, 0, 1, []) else
      var stride := Stride(|ss|, Notables(ss));
      var runs := First(WantedBefore(ss, stride, |ss|), CEILING);
      Kept(|ss|, |runs|, stride, runs)
  }

  lemma NotablesNext(ss: seq<Sample>, i: nat)
    requires i < |ss|
    ensures Notables(ss[..i + 1]) == Notables(ss[..i]) + (if IsNotable(ss[i]) then 1 else 0)
    ensures Notables(ss[..0]) == 0 && ss[..|ss|] == ss
  {
    assert ss[..i + 1][..i] == ss[..i];
  }

  /** Two passes: count what is notable, then keep what is wanted, up to the ceiling. */
  method BuildSamples(ss: seq<Sample>) returns (out: Kept)
    ensures out == Sampled(ss)
  {
    hide Notables, IsNotable;
    if ss == [] {
      return Kept(0, 0, 1, []);
    }
    var notable := 0;
    NotablesNext(ss, 0);
    for i := 0 to |ss|
      invariant notable == Notables(ss[..i])
    {
      NotablesNext(ss, i);
      if IsNotable(ss[i]) {
        notable := notable + 1;
      }
    }
    var stride := Stride(|ss|, notable);
    var runs, seen := [], 0;
    for i := 0 to |ss|
      invariant seen == i - Notables(ss[..i]) && runs == First(WantedBefore(ss, stride, i), CEILING)
    {
      NotablesNext(ss, i);
      var keep := IsNotable(ss[i]);
      if !keep {
        keep := seen % stride == 0;
        seen := seen + 1;
      }
      if keep && |runs| < CEILING {
        runs := runs + [FlowRun(i, ss[i])];
      }
    }
    return Kept(|ss|, |runs|, stride, runs);
  }

  // ---------------------------------------------------------------- an even stride

  /** How many successes come before `i`. */
  function Successes(ss: seq<Sample>, i: nat): nat
    requires i <= |ss|
  {
    |ss[..i]| - Notables(ss[..i])
  }

  lemma SuccessesNext(ss: seq<Sample>, i: nat)
    requires i < |ss|
    ensures Successes(ss, i + 1) == Successes(ss, i) + if IsNotable(ss[i]) then 0 else 1
  {
    hide Notables;
    NotablesNext(ss, i);
  }

  /** Every number in between is some success's. */
  lemma {:induction false} SuccessNumbered(ss: seq<Sample>, i: nat, j: nat, c: nat) returns (m: nat)
    requires i <= j <= |ss| && Successes(ss, i) <= c < Successes(ss, j)
    ensures i <= m < j && !IsNotable(ss[m]) && Successes(ss, m) == c
    decreases j
  {
    hide Successes, IsNotable;
    if i == j {
      assert false;
    }
    SuccessesNext(ss, j - 1);
    if c < Successes(ss, j - 1) {
      m := SuccessNumbered(ss, i, j - 1, c);
    } else {
      m := j - 1;
    }
  }

  lemma {:induction false} SuccessesRise(ss: seq<Sample>, i: nat, j: nat)
    requires i <= j <= |ss|
    ensures Successes(ss, i) <= Successes(ss, j)
    decreases j - i
  {
    hide Successes, IsNotable;
    if i < j {
      SuccessesNext(ss, j - 1);
      SuccessesRise(ss, i, j - 1);
    }
  }

  /** From one success that is wanted to the next there are as many successes as the stride says. */
  lemma EvenlySpaced(ss: seq<Sample>, stride: nat, i: nat, j: nat)
    requires i < j < |ss| && stride > 0 && !IsNotable(ss[i]) && !IsNotable(ss[j])
    requires Wanted(ss, stride, i) && Wanted(ss, stride, j)
    requires forall m :: i < m < j && !IsNotable(ss[m]) ==> !Wanted(ss, stride, m)
    ensures Successes(ss, j) - Successes(ss, i) == stride
  {
    hide Notables, IsNotable;
    var c := Successes(ss, i);
    SuccessesNext(ss, i);
    SuccessesRise(ss, i + 1, j);
    var n := Successes(ss, j) - c;
    MultipleApart(c, n, stride);
    if n > stride {
      var m := SuccessNumbered(ss, i + 1, j, c + stride);
      MultipleApart(c, stride, stride);
    }
  }

  lemma MultipleApart(c: nat, n: nat, k: nat)
    requires k > 0 && c % k == 0
    ensures (c + n) % k == 0 <==> n % k == 0
    ensures n % k == 0 && n > 0 ==> n >= k
  {
    var q := c / k;
    assert c == q * k;
    if (c + n) % k == 0 {
      var p := (c + n) / k;
      assert c + n == p * k;
      Distribute(p, -q, k);
      Quotient(n, p - q, k);
    }
    if n % k == 0 {
      var p := n / k;
      Distribute(q, p, k);
      Quotient(c + n, q + p, k);
    }
  }

  // ---------------------------------------------------------------- how many are wanted

  lemma CeilNext(n: nat, k: nat)
    requires k > 0
    ensures CeilDiv(0, k) == 0
    ensures CeilDiv(n + 1, k) == CeilDiv(n, k) + if n % k == 0 then 1 else 0
  {
    hide CeilDiv;
    CeilUp(n, k, n / k, n % k);
    CeilAt(n, k, n / k, n % k);
  }

  lemma CeilUp(n: nat, k: nat, q: int, r: int)
    requires k > 0 && n == q * k + r && 0 <= r < k
    ensures CeilDiv(n + 1, k) == q + 1
  {
    Distribute(q, 1, k);
    Quotient(n + k, q + 1, k);
  }

  lemma CeilAt(n: nat, k: nat, q: int, r: int)
    requires k > 0 && n == q * k + r && 0 <= r < k
    ensures CeilDiv(0, k) == 0 && CeilDiv(n, k) == q + if r == 0 then 0 else 1
  {
    Distribute(q, 1, k);
    if n == 0 {
      Quotient(0, 0, k);
      Quotient(0, q, k);
    } else {
      Quotient(n + k - 1, if r == 0 then q else q + 1, k);
    }
  }

  lemma {:induction false} WantedCount(ss: seq<Sample>, stride: nat, i: nat)
    requires i <= |ss| && stride > 0
    ensures |WantedBefore(ss, stride, i)| == Notables(ss[..i]) + CeilDiv(i - Notables(ss[..i]), stride)
  {
    hide Notables, IsNotable, CeilDiv;
    if i == 0 {
      CeilNext(0, stride);
      NoNotables(ss[..0]);
    } else {
      WantedCount(ss, stride, i - 1);
      NotablesNext(ss, i - 1);
      CeilNext(i - 1 - Notables(ss[..i - 1]), stride);
    }
  }

  lemma NoNotables(ss: seq<Sample>)
    requires |ss| == 0
    ensures Notables(ss) == 0
  {
  }

  /** The stride leaves room: the successes it picks fit the budget. */
  lemma StrideFits(total: nat, notable: nat)
    requires notable <= total && notable < CEILING
    ensures CeilDiv(total - notable, Stride(total, notable)) <= CEILING - notable
  {
    var b, s := CEILING - notable, total - notable;
    if b >= s {
      Quotient(s, s, 1);
    } else {
      var k := Stride(total, notable);
      var r := (s + b - 1) % b;
      assert s + b - 1 == k * b + r;
      assert k * b >= s;
      var q := CeilDiv(s, k);
      assert s + k - 1 == q * k + (s + k - 1) % k;
      assert (b + 1) * k == k * b + k;
      if q > b {
        Grows(b + 1, q, k);
      }
    }
  }

  lemma Grows(a: int, b: int, k: int)
    requires a <= b && k > 0
    ensures a * k <= b * k
  {
  }

  /** Every record at the wanted ordinals, in order, and no other. */
  lemma {:induction false} WantedExactly(ss: seq<Sample>, stride: nat, i: nat)
    requires i <= |ss| && stride > 0
    ensures var w := WantedBefore(ss, stride, i);
            && (forall j :: 0 <= j < |w| ==>
                 w[j].ordinal < i && w[j].sample == ss[w[j].ordinal] && Wanted(ss, stride, w[j].ordinal))
            && (forall j, k :: 0 <= j < k < |w| ==> w[j].ordinal < w[k].ordinal)
            && (forall n :: 0 <= n < i && Wanted(ss, stride, n) ==> FlowRun(n, ss[n]) in w)
  {
    hide Wanted;
    if i > 0 {
      WantedExactly(ss, stride, i - 1);
    }
  }

  /** With fewer notable flow-runs than the ceiling, all of them are kept, and of the successes exactly
      those whose turn it is; the ceiling never cuts in. */
  lemma NotablesAllKept(ss: seq<Sample>)
    requires ss != [] && Notables(ss) < 10_000
    ensures var out := Sampled(ss);
            && |out.runs| == Notables(ss) + CeilDiv(|ss| - Notables(ss), out.everyNth) <= 10_000
            && out.runs == WantedBefore(ss, out.everyNth, |ss|)
            && forall n :: 0 <= n < |ss| ==> (FlowRun(n, ss[n]) in out.runs <==> Wanted(ss, out.everyNth, n))
  {
    hide Wanted, Notables, CeilDiv, Stride;
    var stride := Stride(|ss|, Notables(ss));
    WantedCount(ss, stride, |ss|);
    assert ss[..|ss|] == ss;
    StrideFits(|ss|, Notables(ss));
    WantedExactly(ss, stride, |ss|);
  }

  /** Kept records are in the order of the run, no two the same, and never more than the ceiling. */
  lemma KeptInOrder(ss: seq<Sample>)
    ensures var runs := Sampled(ss).runs;
            && |runs| <= 10_000 && Sampled(ss).kept == |runs| && Sampled(ss).total == |ss|
            && (forall j :: 0 <= j < |runs| ==> runs[j].ordinal < |ss| && runs[j].sample == ss[runs[j].ordinal])
            && (forall j, k :: 0 <= j < k < |runs| ==> runs[j].ordinal < runs[k].ordinal)
  {
    hide Wanted, Stride;
    if ss != [] {
      WantedExactly(ss, Stride(|ss|, Notables(ss)), |ss|);
    }
  }

  /** Every flow-run is present if and only if there are no more than the ceiling. */
  lemma CompleteExactly(ss: seq<Sample>)
    ensures Sampled(ss).kept == Sampled(ss).total <==> |ss| <= 10_000
  {
    hide Notables, WantedBefore;
    if ss != [] {
      var stride := Stride(|ss|, Notables(ss));
      WantedCount(ss, stride, |ss|);
      assert ss[..|ss|] == ss;
      if |ss| <= CEILING {
        assert stride == 1;
        Quotient(|ss| - Notables(ss), |ss| - Notables(ss), 1);
      }
    }
  }

  // ---------------------------------------------------------------- when there is no room for successes

  /** A success comes before some notable flow-run. */
  predicate SuccessBefore(ss: seq<Sample>) {
    exists i, j :: 0 <= i < j < |ss| && !IsNotable(ss[i]) && IsNotable(ss[j])
  }

  /** Every notable flow-run is kept. */
  predicate KeepsNotables(ss: seq<Sample>, runs: seq<FlowRun>) {
    forall n :: 0 <= n < |ss| && IsNotable(ss[n]) ==> FlowRun(n, ss[n]) in runs
  }

  /** With more notable flow-runs than the ceiling, one is left out. */
  lemma {:induction false} TooManyNotables(ss: seq<Sample>, runs: seq<FlowRun>, i: nat)
    requires i <= |ss| && forall n :: 0 <= n < i && IsNotable(ss[n]) ==> FlowRun(n, ss[n]) in runs
    requires forall j, k :: 0 <= j < k < |runs| ==> runs[j].ordinal < runs[k].ordinal
    ensures Notables(ss[..i]) <= |set r | r in runs && r.ordinal < i|
  {
    hide IsNotable, Notables;
    if i == 0 {
      NoNotables(ss[..0]);
    } else {
      TooManyNotables(ss, runs, i - 1);
      NotablesNext(ss, i - 1);
      var before, now := set r | r in runs && r.ordinal < i - 1, set r | r in runs && r.ordinal < i;
      if IsNotable(ss[i - 1]) {
        assert before + {FlowRun(i - 1, ss[i - 1])} <= now;
        Subset(before + {FlowRun(i - 1, ss[i - 1])}, now);
      } else {
        assert before <= now;
        Subset(before, now);
      }
    }
  }

  lemma {:induction false} Subset<T>(a: set<T>, b: set<T>)
    requires a <= b
    ensures |a| <= |b|
    decreases |a|
  {
    if a != {} {
      var x :| x in a;
      Subset(a - {x}, b - {x});
    }
  }

  lemma {:induction false} SetOfSeq(runs: seq<FlowRun>, i: nat)
    ensures |set r | r in runs && r.ordinal < i| <= |runs|
    decreases |runs|
  {
    var s := set r | r in runs && r.ordinal < i;
    if runs != [] {
      SetOfSeq(runs[1..], i);
      var t := set r | r in runs[1..] && r.ordinal < i;
      assert runs == [runs[0]] + runs[1..];
      assert s <= t + {runs[0]};
      Subset(s, t + {runs[0]});
    }
  }

  /** Before any success, only notable flow-runs are wanted, and with no room for successes only the
      first of those. */
  lemma {:induction false} FullStride(ss: seq<Sample>, stride: nat, n: nat)
    requires n < |ss| && stride > 0 && |ss| - Notables(ss) < stride
    ensures !IsNotable(ss[n]) && Wanted(ss, stride, n) ==> Notables(ss[..n]) == n
  {
    SuccessesGrow(ss, n);
    if !IsNotable(ss[n]) && Wanted(ss, stride, n) {
      Small(n - Notables(ss[..n]), stride);
    }
  }

  lemma Small(a: nat, k: nat)
    requires a < k && a % k == 0
    ensures a == 0
  {
  }

  lemma {:induction false} SuccessesGrow(ss: seq<Sample>, n: nat)
    requires n <= |ss|
    ensures n - Notables(ss[..n]) <= |ss| - Notables(ss)
    decreases |ss| - n
  {
    hide IsNotable, Notables;
    if n < |ss| {
      SuccessesGrow(ss, n + 1);
      NotablesNext(ss, n);
    } else {
      assert ss[..n] == ss;
    }
  }

  /** All notable flow-runs are kept if and only if there are fewer than the ceiling, or exactly as many
      and no success before the last of them: when they fill the ceiling, the first success is wanted
      all the same and takes the place of the last notable one after it. */
  lemma NotablesKeptExactly(ss: seq<Sample>)
    ensures KeepsNotables(ss, Sampled(ss).runs) <==>
            Notables(ss) < 10_000 || (Notables(ss) == 10_000 && !SuccessBefore(ss))
  {
    hide Wanted, Notables, CeilDiv, WantedBefore;
    if ss == [] {
      NoNotables(ss);
      return;
    }
    var stride := Stride(|ss|, Notables(ss));
    var w := WantedBefore(ss, stride, |ss|);
    var runs := First(w, CEILING);
    assert ss[..|ss|] == ss;
    WantedCount(ss, stride, |ss|);
    WantedExactly(ss, stride, |ss|);
    NotableWanted(ss, stride);
    if Notables(ss) < CEILING {
      StrideFits(|ss|, Notables(ss));
    } else if Notables(ss) > CEILING {
      if KeepsNotables(ss, runs) {
        TooManyNotables(ss, runs, |ss|);
        SetOfSeq(runs, |ss|);
      }
    } else {
      Brimful(ss, w, stride);
    }
  }

  lemma NotableWanted(ss: seq<Sample>, stride: nat)
    requires stride > 0
    ensures forall n :: 0 <= n < |ss| && IsNotable(ss[n]) ==> Wanted(ss, stride, n)
  {
  }

  /** As many notable flow-runs as the ceiling. */
  lemma Brimful(ss: seq<Sample>, w: seq<FlowRun>, stride: nat)
    requires Notables(ss) == CEILING <= |ss| && stride == Stride(|ss|, CEILING) && w == WantedBefore(ss, stride, |ss|)
    ensures KeepsNotables(ss, First(w, CEILING)) <==> !SuccessBefore(ss)
  {
    hide Wanted, Notables, CeilDiv, WantedBefore, IsNotable;
    assert ss[..|ss|] == ss;
    WantedCount(ss, stride, |ss|);
    WantedExactly(ss, stride, |ss|);
    NotableWanted(ss, stride);
    var s := |ss| - CEILING;
    if s == 0 {
      NoSuccess(ss);
      OneOf(0, stride);
    } else {
      OneOf(s, stride);
      assert |w| == CEILING + 1;
      LastWanted(ss, w, stride);
    }
  }

  lemma OneOf(s: nat, stride: nat)
    requires stride > s || s == 0
    requires stride > 0
    ensures CeilDiv(s, stride) == if s == 0 then 0 else 1
  {
    if s > 0 {
      Quotient(s + stride - 1, 1, stride);
    }
  }

  lemma {:induction false} NoSuccess(ss: seq<Sample>)
    requires Notables(ss) == |ss|
    ensures forall i :: 0 <= i < |ss| ==> IsNotable(ss[i])
    decreases |ss|
  {
    if ss != [] {
      NoSuccess(ss[..|ss| - 1]);
    }
  }

  lemma {:induction false} AllNotable(ss: seq<Sample>)
    requires forall i :: 0 <= i < |ss| ==> IsNotable(ss[i])
    ensures Notables(ss) == |ss|
    decreases |ss|
  {
    if ss != [] {
      AllNotable(ss[..|ss| - 1]);
    }
  }

  /** One more is wanted than there is room for: the last of them is dropped, and it is notable exactly
      when a success comes before a notable flow-run. */
  lemma LastWanted(ss: seq<Sample>, w: seq<FlowRun>, stride: nat)
    requires Notables(ss) == CEILING < |ss| && stride == |ss| - CEILING + 1 && w == WantedBefore(ss, stride, |ss|)
    requires |w| == CEILING + 1
    ensures KeepsNotables(ss, First(w, CEILING)) <==> !SuccessBefore(ss)
  {
    hide Wanted, Notables, WantedBefore, IsNotable;
    WantedExactly(ss, stride, |ss|);
    NotableWanted(ss, stride);
    var last := w[CEILING].ordinal;
    assert w[CEILING] == FlowRun(last, ss[last]);
    assert w[CEILING] !in w[..CEILING];
    assert forall n :: 0 <= n < |ss| && Wanted(ss, stride, n) && n != last ==> FlowRun(n, ss[n]) in w[..CEILING] by {
      assert w == w[..CEILING] + [w[CEILING]];
    }
    FullStride(ss, stride, last);
    assert forall n :: 0 <= n < last ==> ss[..last][n] == ss[n];
    if IsNotable(ss[last]) {
      SuccessUnder(ss, stride, last, w);
    } else if SuccessBefore(ss) {
      var i, j :| 0 <= i < j < |ss| && !IsNotable(ss[i]) && IsNotable(ss[j]);
      assert FlowRun(j, ss[j]) in w;
      NoSuccess(ss[..last]);
    }
  }

  /** A notable last one: some success was wanted before it. */
  lemma SuccessUnder(ss: seq<Sample>, stride: nat, last: nat, w: seq<FlowRun>)
    requires last < |ss| && IsNotable(ss[last]) && stride > 0 && Notables(ss) < |ss|
    requires w == WantedBefore(ss, stride, |ss|) && forall j :: 0 <= j < |w| ==> w[j].ordinal <= last
    ensures SuccessBefore(ss)
  {
    hide Notables, WantedBefore;
    if forall i :: 0 <= i < last ==> IsNotable(ss[i]) {
      if forall i :: 0 <= i < |ss| ==> IsNotable(ss[i]) {
        AllNotable(ss);
      } else {
        FirstSuccess(ss, stride, w, last);
      }
    } else {
      var i :| 0 <= i < last && !IsNotable(ss[i]);
    }
  }

  lemma FirstSuccess(ss: seq<Sample>, stride: nat, w: seq<FlowRun>, last: nat)
    requires last < |ss| && stride > 0 && w == WantedBefore(ss, stride, |ss|) && IsNotable(ss[last])
    requires forall i :: 0 <= i < last ==> IsNotable(ss[i])
    requires exists i :: 0 <= i < |ss| && !IsNotable(ss[i])
    ensures exists j :: 0 <= j < |w| && w[j].ordinal > last
  {
    hide Notables, WantedBefore, IsNotable;
    var i :| 0 <= i < |ss| && !IsNotable(ss[i]);
    var k := Least(ss, i);
    AllNotable(ss[..k]);
    FirstWanted(ss, stride, k);
    WantedExactly(ss, stride, |ss|);
    assert FlowRun(k, ss[k]) in w;
  }

  lemma FirstWanted(ss: seq<Sample>, stride: nat, k: nat)
    requires k < |ss| && stride > 0 && Notables(ss[..k]) == k
    ensures Wanted(ss, stride, k)
  {
    hide Notables;
  }

  lemma {:induction false} Least(ss: seq<Sample>, i: nat) returns (k: nat)
    requires i < |ss| && !IsNotable(ss[i])
    ensures k <= i && !IsNotable(ss[k]) && forall j :: 0 <= j < k ==> IsNotable(ss[j])
    decreases i
  {
    if j :| 0 <= j < i && !IsNotable(ss[j]) {
      k := Least(ss, j);
    } else {
      k := i;
    }
  }
}

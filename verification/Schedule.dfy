/** Planning a sustained run (internal/planner/planner.go:109-166, 238-250) and following the plan
    (internal/executor/pool.go:284-389, 572-590): how many users are spawned, and when open-model jobs
    are offered. Durations are whole nanoseconds, without a width; fractions are exact. */
module Schedule {
  import opened Arithmetic
  import opened Options

  datatype Segment = Segment(startVus: int, endVus: int, duration: int)

  /** So many requests in a window. */
  datatype Rate = Rate(count: int, per: int)

  /** The parts of a validated profile that sustained modes read. A parsed ramp has no negative count and
      lasts some time; a parsed cap allows something. */
  datatype Profile = Profile(vus: int, ramp: Option<Segment>, hold: int, cap: Option<Rate>)

  datatype Plan = Plan(segments: seq<Segment>, cap: Option<Rate>, peakVus: int, duration: int)

  predicate Parsed(p: Profile) {
    && (p.ramp.Some? ==> p.ramp.value.startVus >= 0 && p.ramp.value.endVus >= 0 && p.ramp.value.duration > 0)
    && (p.cap.Some? ==> p.cap.value.count > 0 && p.cap.value.per > 0)
  }

  function Total(segs: seq<Segment>): int {
    if segs == [] then 0 else segs[0].duration + Total(segs[1..])
  }

  /** An optional ramp, then a hold at its end or at the flat count. */
  method PlanSustained(p: Profile) returns (plan: Option<Plan>)
    requires Parsed(p)
    ensures plan.None? <==> (p.ramp.None? && p.hold <= 0) || (if p.ramp.Some? then p.ramp.value.endVus else p.vus) <= 0
    ensures plan.Some? ==> Planned(p, plan.value)
  {
    var segs: seq<Segment> := [];
    var peak := p.vus;
    if p.ramp.Some? {
      segs := segs + [p.ramp.value];
      peak := p.ramp.value.endVus;
    }
    if p.hold > 0 {
      segs := segs + [Segment(peak, peak, p.hold)];
    }
    if segs == [] || peak <= 0 {
      return None;
    }
    var total := Length(segs);
    return Some(Plan(segs, p.cap, peak, total));
  }

  method Length(segs: seq<Segment>) returns (total: int)
    ensures total == Total(segs)
  {
    total := 0;
    assert segs[0..] == segs;
    for i := 0 to |segs|
      invariant total + Total(segs[i..]) == Total(segs)
    {
      assert segs[i..][1..] == segs[i + 1..];
      total := total + segs[i].duration;
    }
  }

  /** What a plan of a profile is: at most a ramp and a hold, in that order, meeting at the peak. */
  predicate Planned(p: Profile, plan: Plan) {
    && plan.segments != [] && plan.peakVus > 0 && plan.cap == p.cap && plan.duration == Total(plan.segments)
    && plan.peakVus == (if p.ramp.Some? then p.ramp.value.endVus else p.vus)
    && plan.segments ==
       (if p.ramp.Some? then [p.ramp.value] else []) +
       (if p.hold > 0 then [Segment(plan.peakVus, plan.peakVus, p.hold)] else [])
  }

  /** A ramp that does not go down. */
  predicate Ascends(p: Profile) {
    p.ramp.Some? ==> p.ramp.value.startVus <= p.ramp.value.endVus
  }

  // ---------------------------------------------------------------- the curve

  /** Go's conversion of a float to an int: toward zero. */
  function Trunc(x: real): int {
    if x >= 0.0 then x.Floor else -((-x).Floor)
  }

  /** How far a ramp has gone, rounded to whole users. */
  function Gone(s: Segment, t: int): int
    requires s.duration > 0
  {
    Trunc(Part(t as real, s.duration as real, (s.endVus - s.startVus) as real) + 0.5)
  }

  /** The fraction of a time that has passed, of a number. */
  function Part(t: real, d: real, w: real): real
    requires d > 0.0
  {
    t / d * w
  }

  /** The curve at an elapsed time, from the segments left and the time they start at. */
  function CurveFrom(segs: seq<Segment>, base: int, elapsed: int, last: int): int
    decreases |segs|
  {
    if segs == [] then last
    else if segs[0].duration <= 0 then CurveFrom(segs[1..], base, elapsed, last)
    else if elapsed < base + segs[0].duration then segs[0].startVus + Gone(segs[0], elapsed - base)
    else CurveFrom(segs[1..], base + segs[0].duration, elapsed, last)
  }

  function Curve(segs: seq<Segment>, elapsed: int): int {
    if segs == [] then 0 else CurveFrom(segs, 0, elapsed, segs[|segs| - 1].endVus)
  }

  method CurveAt(segs: seq<Segment>, elapsed: int) returns (vus: int)
    ensures vus == Curve(segs, elapsed)
  {
    if segs == [] {
      return 0;
    }
    var base := 0;
    ghost var last := segs[|segs| - 1].endVus;
    assert segs[0..] == segs;
    for i := 0 to |segs|
      invariant CurveFrom(segs[i..], base, elapsed, last) == Curve(segs, elapsed)
    {
      assert segs[i..][1..] == segs[i + 1..];
      if segs[i].duration > 0 {
        if elapsed < base + segs[i].duration {
          return segs[i].startVus + Gone(segs[i], elapsed - base);
        }
        base := base + segs[i].duration;
      }
    }
    return segs[|segs| - 1].endVus;
  }

  lemma Fraction(a: real, b: real, d: real)
    requires d > 0.0
    ensures a <= b ==> a / d <= b / d
    ensures a >= 0.0 ==> a / d >= 0.0
    ensures a <= d ==> a / d <= 1.0
    ensures 0.0 / d == 0.0
  {
  }

  lemma NonNegative(x: real, w: real)
    requires x >= 0.0 && w >= 0.0
    ensures x * w >= 0.0
  {
  }

  lemma Scaled(x: real, y: real, w: real)
    requires 0.0 <= x <= y <= 1.0 && w >= 0.0
    ensures 0.0 <= x * w <= y * w <= w
  {
    NonNegative(x, w);
    NonNegative(y - x, w);
    NonNegative(1.0 - y, w);
    assert (y - x) * w == y * w - x * w && (1.0 - y) * w == w - y * w;
  }

  lemma Rounds(x: real, y: real, n: int)
    requires 0.0 <= x <= y <= n as real
    ensures 0 <= Trunc(x + 0.5) <= Trunc(y + 0.5) <= n
  {
  }

  lemma WholeAndHalf(n: int)
    ensures (n as real + 0.5).Floor == n && (0.5 as real).Floor == 0
  {
  }

  /** An ascending ramp rises from its start to its end. */
  lemma GoneRises(s: Segment, t: int, u: int)
    requires s.duration > 0 && s.startVus <= s.endVus && 0 <= t <= u <= s.duration
    ensures 0 <= Gone(s, t) <= Gone(s, u) <= s.endVus - s.startVus
  {
    hide Trunc, Part;
    var d, w := s.duration as real, (s.endVus - s.startVus) as real;
    PartRises(t as real, u as real, d, w);
    Rounds(Part(t as real, d, w), Part(u as real, d, w), s.endVus - s.startVus);
  }

  lemma PartRises(t: real, u: real, d: real, w: real)
    requires 0.0 <= t <= u <= d && d > 0.0 && w >= 0.0
    ensures 0.0 <= Part(t, d, w) <= Part(u, d, w) <= w
  {
    var x, y := t / d, u / d;
    Fraction(t, u, d);
    Fraction(u, d, d);
    Scaled(x, y, w);
    assert Part(t, d, w) == x * w;
    assert Part(u, d, w) == y * w;
  }

  lemma GoneAtStart(s: Segment)
    requires s.duration > 0
    ensures Gone(s, 0) == 0
  {
    assert Part(0.0, s.duration as real, (s.endVus - s.startVus) as real) == 0.0;
    WholeAndHalf(0);
  }

  lemma GoneFlat(s: Segment, t: int)
    requires s.duration > 0 && s.startVus == s.endVus
    ensures Gone(s, t) == 0
  {
    assert Part(t as real, s.duration as real, 0.0) == 0.0;
    WholeAndHalf(0);
  }

  /** How far a ramp has gone is its share of the straight line from its start to its end, to the nearest whole
      user; halves are rounded up. Going down, what is cut off toward zero leaves up to one user more. */
  lemma GoneIsNearest(s: Segment, t: int)
    requires s.duration > 0 && 0 <= t <= s.duration
    ensures var gone, line, d := Gone(s, t) as real, t as real * (s.endVus - s.startVus) as real, s.duration as real;
            if s.endVus >= s.startVus then (gone - 0.5) * d <= line < (gone + 0.5) * d
            else if 2.0 * line < -d then (gone - 1.5) * d < line <= (gone - 0.5) * d
            else gone == 0.0
  {
    hide Trunc, Part;
    var d, w := s.duration as real, (s.endVus - s.startVus) as real;
    var x, line := Part(t as real, d, w), t as real * w;
    PartTimes(t as real, d, w);
    if w >= 0.0 {
      NonNegative(t as real, w);
      assert line >= 0.0;
    } else {
      NonNegative(t as real, -w);
      assert -line == t as real * -w;
    }
    TruncIs(x + 0.5);
    Nearest(Gone(s, t), x, d, line);
  }

  lemma Nearest(n: int, x: real, d: real, line: real)
    requires d > 0.0 && x * d == line && n == Trunc(x + 0.5)
    ensures line >= 0.0 ==> (n as real - 0.5) * d <= line < (n as real + 0.5) * d
    ensures line <= 0.0 && 2.0 * line < -d ==> (n as real - 1.5) * d < line <= (n as real - 0.5) * d
    ensures line <= 0.0 && 2.0 * line >= -d ==> n == 0
  {
    hide Trunc;
    var g := n as real;
    TruncIs(x + 0.5);
    assert 0.0 * d == 0.0 && -0.5 * d == -d / 2.0;
    Against(x, 0.0, d, line);
    Against(x, -0.5, d, line);
    Against(x, g - 0.5, d, line);
    Against(x, g + 0.5, d, line);
    Against(x, g - 1.5, d, line);
  }

  lemma Against(x: real, y: real, d: real, line: real)
    requires d > 0.0 && x * d == line
    ensures x < y <==> line < y * d
    ensures x <= y <==> line <= y * d
  {
    Scale(x, y, d);
  }

  lemma PartTimes(t: real, d: real, w: real)
    requires d > 0.0
    ensures Part(t, d, w) * d == t * w
  {
    var q := t / d;
    assert q * d == t;
    assert q * w * d == q * d * w;
  }

  lemma Signs(x: real, d: real)
    requires d > 0.0
    ensures x * d >= 0.0 <==> x >= 0.0
  {
  }

  lemma Scale(x: real, y: real, d: real)
    requires d > 0.0
    ensures x <= y <==> x * d <= y * d
    ensures x < y <==> x * d < y * d
  {
    assert (y - x) * d == y * d - x * d;
    Signs(y - x, d);
    Signs(x - y, d);
    assert (x - y) * d == x * d - y * d;
  }

  lemma TruncIs(x: real)
    ensures x >= 0.0 ==> Trunc(x) as real <= x < Trunc(x) as real + 1.0
    ensures x < 0.0 ==> Trunc(x) as real - 1.0 < x <= Trunc(x) as real
  {
  }

  /** The time the first `n` segments take; one without a duration takes none. */
  function Until(segs: seq<Segment>, n: nat): int
    requires n <= |segs|
  {
    if n == 0 then 0 else Until(segs, n - 1) + (if segs[n - 1].duration > 0 then segs[n - 1].duration else 0)
  }

  /** While segment `i` lasts the curve is its ramp, and after the last one it stays where that ends. */
  lemma CurveInSegment(segs: seq<Segment>, i: nat, t: int)
    requires t >= 0 && i <= |segs| && segs != [] && Until(segs, i) <= t
    requires i < |segs| ==> segs[i].duration > 0 && t < Until(segs, i) + segs[i].duration
    ensures Curve(segs, t) == if i < |segs| then segs[i].startVus + Gone(segs[i], t - Until(segs, i))
                              else segs[|segs| - 1].endVus
  {
    hide Gone;
    assert segs[0..] == segs;
    CurveSkips(segs, 0, i, t);
  }

  lemma {:induction false} CurveSkips(segs: seq<Segment>, j: nat, i: nat, t: int)
    requires segs != [] && j <= i <= |segs| && Until(segs, i) <= t
    requires i < |segs| ==> segs[i].duration > 0 && t < Until(segs, i) + segs[i].duration
    ensures var last := segs[|segs| - 1].endVus;
            CurveFrom(segs[j..], Until(segs, j), t, last)
            == if i < |segs| then segs[i].startVus + Gone(segs[i], t - Until(segs, i)) else last
    decreases i - j
  {
    hide Gone;
    if j < i {
      UntilRises(segs, j + 1, i);
      assert segs[j..][1..] == segs[j + 1..];
      CurveSkips(segs, j + 1, i, t);
    }
  }

  lemma {:induction false} UntilRises(segs: seq<Segment>, j: nat, i: nat)
    requires j <= i <= |segs|
    ensures Until(segs, j) <= Until(segs, i)
    decreases i - j
  {
    if j < i {
      UntilRises(segs, j, i - 1);
    }
  }

  /** A plan lasts as long as its ramp and its hold together. */
  lemma PlanLasts(p: Profile, plan: Plan)
    requires Parsed(p) && Planned(p, plan)
    ensures plan.duration == (match p.ramp { case None => 0 case Some(r) => r.duration })
                             + (if p.hold > 0 then p.hold else 0)
  {
    var segs := plan.segments;
    assert Total(segs) == segs[0].duration + Total(segs[1..]);
    if |segs| == 2 {
      assert segs[1..][0] == segs[1] && segs[1..][1..] == [];
    }
  }

  /** The curve of a plan: the ramp while it lasts, then the peak. */
  lemma CurveOf(p: Profile, plan: Plan, t: int)
    requires Parsed(p) && Planned(p, plan) && t >= 0
    ensures Curve(plan.segments, t) ==
            if p.ramp.Some? && t < p.ramp.value.duration then p.ramp.value.startVus + Gone(p.ramp.value, t)
            else plan.peakVus
  {
    hide Gone;
    var segs := plan.segments;
    var holds := if p.hold > 0 then [Segment(plan.peakVus, plan.peakVus, p.hold)] else [];
    if p.hold > 0 {
      GoneFlat(holds[0], if p.ramp.Some? then t - p.ramp.value.duration else t);
    }
    HeldAt(holds, if p.ramp.Some? then p.ramp.value.duration else 0, t, plan.peakVus);
    if p.ramp.Some? {
      assert segs[1..] == holds;
    } else {
      assert segs == holds;
    }
  }

  lemma HeldAt(holds: seq<Segment>, base: int, t: int, peak: int)
    requires |holds| <= 1 && (holds != [] ==> holds[0].startVus == holds[0].endVus == peak && holds[0].duration > 0)
    ensures CurveFrom(holds, base, t, peak) == peak
  {
    hide Gone;
    if holds != [] {
      assert holds[1..] == [];
      GoneFlat(holds[0], t - base);
    }
  }

  /** An ascending plan never falls and never passes its peak. */
  lemma CurveRises(p: Profile, plan: Plan, t: int, u: int)
    requires Parsed(p) && Planned(p, plan) && Ascends(p) && 0 <= t <= u
    ensures 0 <= Curve(plan.segments, t) <= Curve(plan.segments, u) <= plan.peakVus
  {
    hide Gone, Curve;
    CurveOf(p, plan, t);
    CurveOf(p, plan, u);
    if p.ramp.Some? && t < p.ramp.value.duration {
      GoneRises(p.ramp.value, t, if u < p.ramp.value.duration then u else p.ramp.value.duration);
    }
  }

  /** The curve stays within the peak if and only if the ramp does not go down: the peak is taken from
      the ramp's end, and a descending one starts above it. */
  lemma PeakIsPeakExactly(p: Profile, plan: Plan)
    requires Parsed(p) && Planned(p, plan)
    ensures (forall t :: t >= 0 ==> Curve(plan.segments, t) <= plan.peakVus) <==> Ascends(p)
  {
    hide Gone, Curve;
    if Ascends(p) {
      forall t | t >= 0
        ensures Curve(plan.segments, t) <= plan.peakVus
      {
        CurveRises(p, plan, t, t);
      }
    } else {
      CurveOf(p, plan, 0);
      GoneAtStart(p.ramp.value);
    }
  }

  // ---------------------------------------------------------------- the closed model

  /** What CheckCeilings lets through, for the users and for the declared rate. */
  predicate UnderCeilings(plan: Plan, maxVus: int, maxRps: int) {
    && (maxVus > 0 ==> plan.peakVus <= maxVus)
    && (maxRps > 0 && plan.cap.Some? && plan.cap.value.per > 0 ==>
          plan.cap.value.count as real / (plan.cap.value.per as real / 1000000000.0) <= maxRps as real)
  }

  /** Users spawned by the clock readings of a run, up to its end. */
  function Spawned(plan: Plan, ticks: seq<int>, sofar: int): int
    decreases |ticks|
  {
    if ticks == [] || ticks[0] >= plan.duration then sofar else
      var target := Curve(plan.segments, ticks[0]);
      Spawned(plan, ticks[1..], if target > sofar then target else sofar)
  }

  /** The users of a single pass: at least one. */
  function Peak(plan: Plan): int {
    if plan.peakVus < 1 then 1 else plan.peakVus
  }

  /** In a single pass, every user at once; else spawn up to the curve at once, and again at every tick
      before the deadline; users are never taken back. `ticks` are the ticker's readings until the run is
      over or cancelled. */
  method RunClosed(plan: Plan, once: bool, ticks: seq<int>) returns (spawned: int)
    ensures once ==> 1 <= spawned && plan.peakVus <= spawned && spawned in {1, plan.peakVus}
    ensures !once ==>
              spawned == Spawned(plan, ticks, if Curve(plan.segments, 0) > 0 then Curve(plan.segments, 0) else 0)
  {
    hide Curve;
    spawned := 0;
    if once {
      for i := 0 to Peak(plan)
        invariant spawned == i
      {
        spawned := spawned + 1;
      }
      return;
    }
    var target := CurveAt(plan.segments, 0);
    spawned := SpawnTo(spawned, target);
    assert ticks[0..] == ticks;
    ghost var goal := Spawned(plan, ticks, spawned);
    for i := 0 to |ticks|
      invariant Spawned(plan, ticks[i..], spawned) == goal
    {
      assert ticks[i..][1..] == ticks[i + 1..];
      if ticks[i] >= plan.duration {
        return;
      }
      target := CurveAt(plan.segments, ticks[i]);
      spawned := SpawnTo(spawned, target);
    }
  }

  method SpawnTo(sofar: int, target: int) returns (spawned: int)
    ensures spawned == if target > sofar then target else sofar
  {
    spawned := sofar;
    while spawned < target
      invariant sofar <= spawned && (spawned <= target || spawned == sofar)
    {
      spawned := spawned + 1;
    }
  }

  /** As many users are spawned as the curve ever asks for at a reading within the run, and no more. */
  lemma {:induction false} SpawnedIsMost(plan: Plan, ticks: seq<int>, sofar: int)
    ensures var n := Spawned(plan, ticks, sofar);
            && n >= sofar
            && (forall i :: 0 <= i < |ticks| && InTime(plan, ticks, i) ==> n >= Curve(plan.segments, ticks[i]))
            && (n > sofar ==>
                  exists i :: 0 <= i < |ticks| && InTime(plan, ticks, i) && n == Curve(plan.segments, ticks[i]))
    decreases |ticks|
  {
    hide Curve;
    if ticks != [] && ticks[0] < plan.duration {
      var target := Curve(plan.segments, ticks[0]);
      var sofar1 := if target > sofar then target else sofar;
      SpawnedIsMost(plan, ticks[1..], sofar1);
      var n := Spawned(plan, ticks, sofar);
      forall i | 0 <= i < |ticks| && InTime(plan, ticks, i)
        ensures n >= Curve(plan.segments, ticks[i])
      {
        if i > 0 {
          InTimeLater(plan, ticks, i - 1);
          assert ticks[i] == ticks[1..][i - 1];
        }
      }
      if n > sofar1 {
        var i :| 0 <= i < |ticks[1..]| && InTime(plan, ticks[1..], i) && n == Curve(plan.segments, ticks[1..][i]);
        InTimeLater(plan, ticks, i);
        assert ticks[i + 1] == ticks[1..][i];
      } else if n > sofar {
        assert InTime(plan, ticks, 0);
      }
    } else if ticks != [] {
      assert forall i :: 0 <= i < |ticks| ==> !InTime(plan, ticks, i);
    }
  }

  /** No reading up to this one is past the end of the run. */
  predicate InTime(plan: Plan, ticks: seq<int>, i: int) {
    forall j :: 0 <= j <= i && j < |ticks| ==> ticks[j] < plan.duration
  }

  lemma InTimeLater(plan: Plan, ticks: seq<int>, i: nat)
    requires ticks != [] && ticks[0] < plan.duration && i + 1 < |ticks|
    ensures InTime(plan, ticks, i + 1) <==> InTime(plan, ticks[1..], i)
  {
    if InTime(plan, ticks[1..], i) {
      forall j | 0 <= j <= i + 1
        ensures ticks[j] < plan.duration
      {
        assert j > 0 ==> ticks[j] == ticks[1..][j - 1];
      }
    }
    if InTime(plan, ticks, i + 1) {
      forall j | 0 <= j <= i
        ensures ticks[1..][j] < plan.duration
      {
        assert ticks[1..][j] == ticks[j + 1];
      }
    }
  }

  /** What passes a target's ceilings: as many users as it allows at most, and a cap that asks for no more requests
      than it allows over the same number of nanoseconds. A ceiling that is not positive is not set. */
  lemma CeilingsAre(plan: Plan, maxVus: int, maxRps: int)
    requires plan.cap.Some? ==> plan.cap.value.count > 0 && plan.cap.value.per > 0
    ensures UnderCeilings(plan, maxVus, maxRps) <==>
              && (maxVus <= 0 || plan.peakVus <= maxVus)
              && (maxRps <= 0 || plan.cap.None?
                  || plan.cap.value.count * 1_000_000_000 <= maxRps * plan.cap.value.per)
  {
    if plan.cap.Some? {
      RateOver(plan.cap.value.count as real, plan.cap.value.per as real, maxRps as real);
    }
  }

  lemma RateOver(c: real, p: real, m: real)
    requires p > 0.0
    ensures c / (p / 1000000000.0) <= m <==> c * 1000000000.0 <= m * p
  {
    var s := p / 1000000000.0;
    assert s > 0.0 && s * 1000000000.0 == p;
    var q := c / s;
    assert q * s == c;
    Scale(q, m, s);
    assert m * s * 1000000000.0 == m * p;
  }

  lemma {:induction false} SpawnedWithin(p: Profile, plan: Plan, ticks: seq<int>, sofar: int)
    requires Parsed(p) && Planned(p, plan) && Ascends(p) && sofar <= plan.peakVus
    requires forall i :: 0 <= i < |ticks| ==> ticks[i] >= 0
    ensures Spawned(plan, ticks, sofar) <= plan.peakVus
    decreases |ticks|
  {
    hide Curve;
    if ticks != [] && ticks[0] < plan.duration {
      CurveRises(p, plan, ticks[0], ticks[0]);
      var target := Curve(plan.segments, ticks[0]);
      SpawnedWithin(p, plan, ticks[1..], if target > sofar then target else sofar);
    }
  }

  /** An ascending plan that passes its target's ceiling never spawns more users than it allows,
      whatever the ticks. */
  lemma CeilingHolds(p: Profile, plan: Plan, ticks: seq<int>, maxVus: int, maxRps: int)
    requires Parsed(p) && Planned(p, plan) && Ascends(p)
    requires maxVus > 0 && UnderCeilings(plan, maxVus, maxRps) && forall i :: 0 <= i < |ticks| ==> ticks[i] >= 0
    ensures Spawned(plan, ticks, if Curve(plan.segments, 0) > 0 then Curve(plan.segments, 0) else 0) <= maxVus
  {
    hide Curve;
    CurveRises(p, plan, 0, 0);
    SpawnedWithin(p, plan, ticks, Curve(plan.segments, 0));
  }

  // ---------------------------------------------------------------- the open model

  /** The time between two jobs: the exact one, cut to whole nanoseconds. */
  function Interval(r: Rate): int
    requires r.count > 0 && r.per > 0
  {
    Trunc(1000000000.0 / (r.count as real / (r.per as real / 1000000000.0)))
  }

  /** A job: when it is due and when a worker took it, from the start of the run. */
  datatype Job = Job(intended: int, offered: int)

  /** When job n is taken: when it is due, or once the job before it was taken, and `late(n)` more while
      every worker is busy. An overdue job waits for no timer. */
  function Offer(interval: int, late: nat -> nat, n: nat): int {
    var ready := if n == 0 then 0 else Offer(interval, late, n - 1);
    (if n * interval > ready then n * interval else ready) + late(n)
  }

  /** Offer job n when it is due, or as soon after as the clock and the workers let it, until the run's
      time is up or it is cancelled. `late` is how much later than it could be each offer is taken. */
  method RunOpen(duration: int, interval: int, late: nat -> nat, cancelled: nat -> bool) returns (jobs: seq<Job>)
    requires interval > 0
    ensures forall n :: 0 <= n < |jobs| ==> jobs[n] == Job(n * interval, Offer(interval, late, n))
    ensures forall n :: 0 <= n < |jobs| ==> jobs[n].intended < duration && jobs[n].offered >= n * interval
    ensures forall m, n :: 0 <= m < n < |jobs| ==> jobs[m].offered <= jobs[n].offered
    ensures |jobs| <= CeilDiv(duration, interval)
    ensures (forall n :: !cancelled(n)) ==> |jobs| == CeilDiv(duration, interval)
    ensures |jobs| < CeilDiv(duration, interval) ==> cancelled(|jobs|)
  {
    hide Offer, CeilDiv;
    jobs := [];
    var n, clock := 0, 0;
    while true
      invariant n == |jobs| <= CeilDiv(duration, interval)
      invariant forall k :: 0 <= k < n ==> jobs[k] == Job(k * interval, Offer(interval, late, k))
      invariant clock == if n == 0 then 0 else Offer(interval, late, n - 1)
      decreases CeilDiv(duration, interval) - n
    {
      var intended := n * interval;
      Below(n, duration, interval);
      if intended >= duration {
        break;
      }
      if intended > clock {
        if cancelled(n) {
          break;
        }
        clock := intended;
      }
      if cancelled(n) {
        break;
      }
      clock := clock + late(n);
      OfferIs(interval, late, n);
      jobs := jobs + [Job(intended, clock)];
      n := n + 1;
    }
    forall m, n | 0 <= m <= n < |jobs|
      ensures jobs[n].intended < duration && jobs[n].offered >= n * interval && jobs[m].offered <= jobs[n].offered
    {
      OffersRise(interval, late, m, n);
      Below(n, duration, interval);
    }
  }

  lemma OfferIs(interval: int, late: nat -> nat, n: nat)
    ensures var ready := if n == 0 then 0 else Offer(interval, late, n - 1);
            Offer(interval, late, n) == (if n * interval > ready then n * interval else ready) + late(n)
  {
  }

  /** Cut to whole nanoseconds, the interval is the window over the count, rounded down. */
  lemma IntervalIs(r: Rate)
    requires r.count > 0 && r.per > 0
    ensures Interval(r) == r.per / r.count
  {
    hide Trunc;
    ExactInterval(r.count as real, r.per as real);
    FloorIs(r.per, r.count);
  }

  lemma FloorIs(p: int, c: int)
    requires c > 0 && p > 0
    ensures Trunc(p as real / c as real) == p / c
  {
    var q, m := p / c, p % c;
    assert p == q * c + m;
    assert q >= 0;
    SplitQuotient(p as real, q as real, m as real, c as real);
  }

  lemma SplitQuotient(p: real, q: real, m: real, c: real)
    requires c > 0.0 && 0.0 <= m < c && p == q * c + m
    ensures q <= p / c < q + 1.0
  {
    Cut(m, c);
    assert p / c == q + m / c;
  }

  lemma Cut(m: real, c: real)
    requires 0.0 <= m < c
    ensures 0.0 <= m / c < 1.0
  {
  }

  lemma ExactInterval(c: real, p: real)
    requires c > 0.0 && p > 0.0
    ensures 1000000000.0 / (c / (p / 1000000000.0)) == p / c
  {
    var b := 1000000000.0;
    var s := p / b;
    assert s > 0.0 && s * b == p;
    var rate := c / s;
    assert rate > 0.0 && rate * s == c;
    assert b / rate * rate == b;
    assert p / c * c == p;
    assert p / c * rate * s == s * b;
    assert p / c * rate == b;
  }

  // ---------------------------------------------------------------- the rate, in every window

  /** The jobs of a run of `ran` jobs that are taken in the window of length `per` from `t` on. */
  ghost function Taken(ran: nat, interval: int, late: nat -> nat, t: int, per: int): set<nat> {
    set n: nat | n < ran && t <= Offer(interval, late, n) < t + per
  }

  /** No job of the run is taken more than `lag` after it is due. */
  ghost predicate Lags(ran: nat, interval: int, late: nat -> nat, lag: nat) {
    forall n: nat :: n < ran ==> Offer(interval, late, n) <= n * interval + lag
  }

  function Min(a: int, b: int): int {
    if a < b then a else b
  }

  /** The most jobs a window of length `per` can see in a run of this duration. */
  function Most(duration: int, per: int, interval: int, lag: nat): int
    requires interval > 0
  {
    Min(CeilDiv(per + lag, interval), CeilDiv(duration, interval))
  }

  lemma {:induction false} OffersRise(interval: int, late: nat -> nat, m: nat, n: nat)
    requires m <= n
    ensures Offer(interval, late, m) <= Offer(interval, late, n) && n * interval <= Offer(interval, late, n)
    decreases n
  {
    if m < n {
      OffersRise(interval, late, m, n - 1);
    }
  }

  lemma {:induction false} Fits(s: set<nat>, lo: nat, k: nat)
    requires forall n :: n in s ==> lo <= n < lo + k
    ensures |s| <= k
    decreases k
  {
    if k == 0 {
      assert s == {};
    } else {
      var last := lo + k - 1;
      Fits(s - {last}, lo, k - 1);
      assert |s| <= |s - {last}| + 1;
    }
  }

  lemma {:induction false} Fills(s: set<nat>, k: nat)
    requires forall n :: 0 <= n < k ==> n in s
    ensures |s| >= k
    decreases k
  {
    if k > 0 {
      Fills(s - {k - 1}, k - 1);
    }
  }

  /** The least of the jobs taken in a window. */
  lemma {:induction false} First(s: set<nat>, k: nat) returns (a: nat)
    requires s != {} && forall n :: n in s ==> k <= n
    ensures a in s && forall n :: n in s ==> a <= n
    decreases var n :| n in s; if n >= k then n - k else 0
  {
    if k in s {
      a := k;
    } else {
      a := First(s, k + 1);
    }
  }

  /** Whatever the workers do, no window of a run that lags by at most `lag` sees more. */
  lemma WindowHolds(ran: nat, duration: int, per: int, interval: int, lag: nat, late: nat -> nat, t: int)
    requires interval > 0 && per > 0 && ran <= CeilDiv(duration, interval) && Lags(ran, interval, late, lag)
    ensures |Taken(ran, interval, late, t, per)| <= Most(duration, per, interval, lag)
  {
    hide CeilDiv, Offer;
    var s := Taken(ran, interval, late, t, per);
    Fits(s, 0, ran);
    if s != {} {
      var a := First(s, 0);
      forall n | n in s
        ensures a <= n < a + CeilDiv(per + lag, interval)
      {
        OffersRise(interval, late, n, n);
        assert (n - a) * interval == n * interval - a * interval;
        Below(n - a, per + lag, interval);
      }
      Fits(s, a, CeilDiv(per + lag, interval));
    }
  }

  /** Every worker busy for `lag` at the start, and never again. */
  function Stall(lag: nat): nat -> nat {
    (n: nat) => if n == 0 then lag else 0
  }

  lemma {:induction false} Stalled(interval: int, lag: nat, n: nat)
    requires interval > 0
    ensures Offer(interval, Stall(lag), n) == if n * interval > lag then n * interval else lag
  {
    if n > 0 {
      Stalled(interval, lag, n - 1);
      Multiples(n - 1, n, interval);
    }
  }

  /** One stall at the start of a run is enough to reach it. */
  lemma WindowReached(duration: int, per: int, interval: int, lag: nat)
    requires interval > 0 && per > 0
    ensures var ran := CeilDiv(duration, interval);
            && Lags(ran, interval, Stall(lag), lag)
            && |Taken(ran, interval, Stall(lag), lag, per)| == Most(duration, per, interval, lag)
  {
    hide CeilDiv, Offer;
    var ran, most := CeilDiv(duration, interval), Most(duration, per, interval, lag);
    forall n: nat
      ensures Offer(interval, Stall(lag), n) <= n * interval + lag
      ensures n < most ==> n in Taken(ran, interval, Stall(lag), lag, per)
    {
      Stalled(interval, lag, n);
      Below(n, per + lag, interval);
      Multiples(0, n, interval);
    }
    Fills(Taken(ran, interval, Stall(lag), lag, per), most);
    WindowHolds(ran, duration, per, interval, lag, Stall(lag), lag);
  }

  /** A cap of N a window is kept in every window, by every run that lags by at most `lag`, if and only if
      the run is over before job N is due, or there is no lag and the window divides evenly into N. */
  lemma CapKeptExactly(r: Rate, duration: int, lag: nat)
    requires r.count > 0 && r.per > 0 && Interval(r) > 0
    ensures var i := Interval(r); var ran := CeilDiv(duration, i);
            ((forall late: nat -> nat, t :: Lags(ran, i, late, lag) ==> |Taken(ran, i, late, t, r.per)| <= r.count)
                <==> duration <= r.count * i || (lag == 0 && r.per % r.count == 0))
  {
    hide Interval, CeilDiv, Taken, Lags;
    var i := Interval(r);
    var ran := CeilDiv(duration, i);
    MostExactly(r, duration, lag);
    forall late: nat -> nat, t | Lags(ran, i, late, lag)
      ensures |Taken(ran, i, late, t, r.per)| <= Most(duration, r.per, i, lag)
    {
      WindowHolds(ran, duration, r.per, i, lag, late, t);
    }
    WindowReached(duration, r.per, i, lag);
  }

  lemma MostExactly(r: Rate, duration: int, lag: nat)
    requires r.count > 0 && r.per > 0 && Interval(r) > 0
    ensures Most(duration, r.per, Interval(r), lag) <= r.count <==>
              duration <= r.count * Interval(r) || (lag == 0 && r.per % r.count == 0)
  {
    hide Interval, CeilDiv;
    IntervalIs(r);
    var i := Interval(r);
    assert r.per == i * r.count + r.per % r.count;
    Below(r.count, r.per + lag, i);
    Below(r.count, duration, i);
  }

  /** The interval is nothing, and the jobs of a run without end never move on, if and only if the cap
      asks for more than one job a nanosecond. */
  lemma IntervalVanishesExactly(r: Rate)
    requires r.count > 0 && r.per > 0
    ensures Interval(r) == 0 <==> r.count > r.per
  {
    hide Interval;
    IntervalIs(r);
    var q, m := r.per / r.count, r.per % r.count;
    assert r.per == q * r.count + m;
    if q >= 1 {
      Multiples(1, q, r.count);
    } else if q < 0 {
      Multiples(q, -1, r.count);
    }
  }
}

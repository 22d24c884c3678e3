/** The pool of virtual users (internal/executor/pool.go:405-559) as interleaved atomic steps: private
    accumulators, shared counters and trace budgets, and one merge a user. */
module Pool {
  import opened Arithmetic
  import opened Options
  import opened Sequences
  import Fold

  // ---------------------------------------------------------------- state

  /** One pass over one flow: its sample and its trace. A throttle counted as an error is `failed` too. */
  datatype Run = Run(failed: bool, throttled: bool, aborted: bool, span: Fold.Span)

  /** Where a user stands between two atomic operations on the shared state. `i` is the flow. */
  datatype Pc =
    | Idle
    | Running(i: nat)
    | Sampled(i: nat, run: Run)
    | FailureCounted(i: nat, run: Run)
    | Recorded(i: nat, run: Run)
    | Chosen(i: nat, run: Run)
    | Judged(i: nat, run: Run)
    | Done

  datatype Vu = Vu(pc: Pc, runs: seq<Run>, traces: seq<Run>, folded: Fold.Node, iters: nat)

  /** What is fixed for a pool run: the number of flows and the capture policy. */
  datatype Config = Config(flows: nat, failBudget: int, successBudget: int, sampleEvery: int)

  datatype State = State(
    completed: nat, failed: nat, throttled: nat,
    seen: nat, failBudget: int, successBudget: int, aborted: bool,
    samples: seq<Run>, traces: seq<Run>, folded: Fold.Node, iterations: nat,
    vus: seq<Vu>)

  const NEW_VU := Vu(Idle, [], [], Fold.EMPTY, 0)

  function Start(c: Config): State {
    State(0, 0, 0, 0, c.failBudget, c.successBudget, false, [], [], Fold.EMPTY, 0, [])
  }

  // ---------------------------------------------------------------- steps

  datatype Step =
    | Spawn
    | Begin(v: nat)
    | Call(v: nat, run: Run)
    | CountFailure(v: nat)
    | CountThrottle(v: nat)
    | Keep(v: nat)
    | Spend(v: nat)
    | Abort(v: nat)
    | EndIteration(v: nat)
    | Merge(v: nat)

  /** Whether a step can be taken: a user goes on from where it stands. An idle one may begin another
      iteration or be out of time, cancelled or out of jobs, and merge. */
  predicate Enabled(c: Config, s: State, step: Step) {
    step.Spawn? ||
    (step.v < |s.vus| &&
     var pc := s.vus[step.v].pc;
     match step
     case Begin(_) => pc.Idle?
     case Call(_, _) => pc.Running? && pc.i < c.flows
     case CountFailure(_) => pc.Sampled?
     case CountThrottle(_) => pc.FailureCounted?
     case Keep(_) => pc.Recorded?
     case Spend(_) => pc.Chosen?
     case Abort(_) => pc.Judged?
     case EndIteration(_) => pc.Running? && pc.i == c.flows
     case Merge(_) => pc.Idle?)
  }

  function Put(s: State, v: nat, vu: Vu): State
    requires v < |s.vus|
  {
    s.(vus := s.vus[v := vu])
  }

  function One(b: bool): nat {
    if b then 1 else 0
  }

  function Do(c: Config, s: State, step: Step): State
    requires Enabled(c, s, step)
  {
    if step.Spawn? then s.(vus := s.vus + [NEW_VU]) else
      var v, vu, pc := step.v, s.vus[step.v], s.vus[step.v].pc;
      match step
      case Begin(_) => Put(s, v, vu.(pc := Running(0)))
      case Call(_, run) =>
        Put(s.(completed := s.completed + 1), v, vu.(runs := vu.runs + [run], pc := Sampled(pc.i, run)))
      case CountFailure(_) =>
        Put(s.(failed := s.failed + One(pc.run.failed)), v, vu.(pc := FailureCounted(pc.i, pc.run)))
      case CountThrottle(_) =>
        Put(s.(throttled := s.throttled + One(pc.run.throttled)), v,
            vu.(folded := Fold.Add(vu.folded, pc.run.span), pc := Recorded(pc.i, pc.run)))
      case Keep(_) => KeepTrace(c, s, v)
      case Spend(_) =>
        var left := s.successBudget - 1;
        Put(s.(successBudget := left), v,
            vu.(traces := if left >= 0 then vu.traces + [pc.run] else vu.traces, pc := Judged(pc.i, pc.run)))
      case Abort(_) => Put(s.(aborted := s.aborted || pc.run.aborted), v, vu.(pc := Running(pc.i + 1)))
      case EndIteration(_) => Put(s, v, vu.(iters := vu.iters + 1, pc := Idle))
      case Merge(_) =>
        Put(s.(samples := s.samples + vu.runs, traces := s.traces + vu.traces,
               folded := Fold.Merge(s.folded, vu.folded), iterations := s.iterations + vu.iters),
            v, vu.(pc := Done))
  }

  /** The first atomic operation of the capture policy; only a sampled trace goes on to spend budget. */
  function KeepTrace(c: Config, s: State, v: nat): State
    requires v < |s.vus| && s.vus[v].pc.Recorded?
  {
    var vu, pc := s.vus[v], s.vus[v].pc;
    if pc.run.failed then
      var left := s.failBudget - 1;
      Put(s.(failBudget := left), v,
          vu.(traces := if left >= 0 then vu.traces + [pc.run] else vu.traces, pc := Judged(pc.i, pc.run)))
    else
      var n := s.seen + 1;
      Put(s.(seen := n), v,
          vu.(pc := if c.sampleEvery > 1 && (n - 1) % c.sampleEvery != 0 then Judged(pc.i, pc.run)
                    else Chosen(pc.i, pc.run)))
  }

  /** A whole run of the pool: any interleaving of steps, when each can be taken in its turn. */
  function Exec(c: Config, steps: seq<Step>): Option<State> {
    if steps == [] then Some(Start(c)) else
      var s := Exec(c, steps[..|steps| - 1]);
      var step := steps[|steps| - 1];
      if s.None? || !Enabled(c, s.value, step) then None else Some(Do(c, s.value, step))
  }

  /** Every user has left and merged. */
  predicate Finished(s: State) {
    forall v :: 0 <= v < |s.vus| ==> s.vus[v].pc.Done?
  }

  // ---------------------------------------------------------------- counting

  function Fails(runs: seq<Run>): nat {
    if runs == [] then 0 else Fails(runs[..|runs| - 1]) + One(runs[|runs| - 1].failed)
  }

  function Throttles(runs: seq<Run>): nat {
    if runs == [] then 0 else Throttles(runs[..|runs| - 1]) + One(runs[|runs| - 1].throttled)
  }

  function Aborts(runs: seq<Run>): nat {
    if runs == [] then 0 else Aborts(runs[..|runs| - 1]) + One(runs[|runs| - 1].aborted)
  }

  /** The traces of runs, in order. */
  function Spans(runs: seq<Run>): seq<Fold.Span> {
    if runs == [] then [] else Spans(runs[..|runs| - 1]) + [runs[|runs| - 1].span]
  }

  lemma CountSnoc(runs: seq<Run>, r: Run)
    ensures Fails(runs + [r]) == Fails(runs) + One(r.failed)
    ensures Throttles(runs + [r]) == Throttles(runs) + One(r.throttled)
    ensures Aborts(runs + [r]) == Aborts(runs) + One(r.aborted)
    ensures Spans(runs + [r]) == Spans(runs) + [r.span]
  {
    hide One;
    assert (runs + [r])[..|runs|] == runs;
  }

  lemma {:induction false} CountJoin(a: seq<Run>, b: seq<Run>)
    ensures Fails(a + b) == Fails(a) + Fails(b) && Throttles(a + b) == Throttles(a) + Throttles(b)
    ensures Spans(a + b) == Spans(a) + Spans(b)
    decreases |b|
  {
    hide Fails, Throttles, Aborts, Spans;
    NoRuns();
    if b == [] {
      assert a + b == a && Spans(a) + [] == Spans(a);
    } else {
      var b', r := b[..|b| - 1], b[|b| - 1];
      CountJoin(a, b');
      CountSnoc(a + b', r);
      CountSnoc(b', r);
      assert b == b' + [r] && a + b == (a + b') + [r];
      Assoc(Spans(a), Spans(b'), [r.span]);
    }
  }

  lemma NoRuns()
    ensures Fails([]) == Throttles([]) == Aborts([]) == 0 && Spans([]) == []
  {
  }

  /** What one user has done to every shared counter, and how much of it is merged. */
  datatype Ledger = Ledger(
    completed: int, failed: int, throttled: int, failOps: int, seen: int, waiting: int, aborts: int,
    keptFailures: int, keptOthers: int, merged: int, mergedFails: int, mergedThrottles: int, mergedIters: int,
    mergedKeptFailures: int, mergedKeptOthers: int)

  const NOTHING := Ledger(0, 0, 0, 0, 0, 0, 0, 0, 0, 0, 0, 0, 0, 0, 0)

  function Plus(a: Ledger, b: Ledger): Ledger {
    Ledger(a.completed + b.completed, a.failed + b.failed, a.throttled + b.throttled, a.failOps + b.failOps,
           a.seen + b.seen, a.waiting + b.waiting, a.aborts + b.aborts,
           a.keptFailures + b.keptFailures, a.keptOthers + b.keptOthers, a.merged + b.merged,
           a.mergedFails + b.mergedFails, a.mergedThrottles + b.mergedThrottles, a.mergedIters + b.mergedIters,
           a.mergedKeptFailures + b.mergedKeptFailures, a.mergedKeptOthers + b.mergedKeptOthers)
  }

  function Share(v: Vu): Ledger {
    var pc := v.pc;
    var early := pc.Sampled? || pc.FailureCounted?;
    var unkept := early || pc.Recorded?;
    var unjudged := unkept || pc.Chosen? || pc.Judged?;
    var kept := Fails(v.traces);
    Ledger(
      |v.runs|,
      Fails(v.runs) - One(pc.Sampled? && pc.run.failed),
      Throttles(v.runs) - One(early && pc.run.throttled),
      Fails(v.runs) - One(unkept && pc.run.failed),
      |v.runs| - Fails(v.runs) - One(unkept && !pc.run.failed),
      One(pc.Chosen?),
      Aborts(v.runs) - One(unjudged && pc.run.aborted),
      kept, |v.traces| - kept,
      if pc.Done? then |v.runs| else 0,
      if pc.Done? then Fails(v.runs) else 0,
      if pc.Done? then Throttles(v.runs) else 0,
      if pc.Done? then v.iters else 0,
      if pc.Done? then kept else 0,
      if pc.Done? then |v.traces| - kept else 0)
  }

  function Total(vus: seq<Vu>): Ledger {
    if vus == [] then NOTHING else Plus(Total(vus[..|vus| - 1]), Share(vus[|vus| - 1]))
  }

  lemma PlusSwap(a: Ledger, b: Ledger, c: Ledger)
    ensures Plus(Plus(a, b), c) == Plus(Plus(a, c), b)
  {
  }

  lemma PlusNothing(a: Ledger)
    ensures Plus(a, NOTHING) == a
  {
  }

  /** One user's share changes the total by as much. */
  lemma {:induction false} TotalAt(vus: seq<Vu>, v: nat, vu: Vu)
    requires v < |vus|
    ensures Plus(Total(vus[v := vu]), Share(vus[v])) == Plus(Total(vus), Share(vu))
    decreases |vus|
  {
    hide Share, Plus;
    var n := |vus| - 1;
    if v == n {
      assert vus[v := vu][..n] == vus[..n];
      PlusSwap(Total(vus[..n]), Share(vu), Share(vus[v]));
    } else {
      TotalAt(vus[..n], v, vu);
      assert vus[v := vu][..n] == vus[..n][v := vu];
      PlusSwap(Total(vus[..n][v := vu]), Share(vus[n]), Share(vus[v]));
      PlusSwap(Total(vus[..n]), Share(vus[n]), Share(vu));
    }
  }

  lemma CountNone()
    ensures forall runs :: |runs| == 0 ==> Fails(runs) == 0 && Throttles(runs) == 0 && Aborts(runs) == 0
  {
  }

  /** A user that has done nothing. */
  lemma NewShare(v: Vu)
    requires v.pc.Idle? && |v.runs| == 0 && |v.traces| == 0
    ensures Share(v) == NOTHING
  {
    CountNone();
  }

  lemma TotalSpawn(vus: seq<Vu>)
    ensures Total(vus + [NEW_VU]) == Total(vus)
  {
    hide Plus, Share;
    assert (vus + [NEW_VU])[..|vus|] == vus;
    NewShare(NEW_VU);
    PlusNothing(Total(vus));
  }

  // ---------------------------------------------------------------- the counters

  /** How many of the first `seen` successes are sampled: the first of every `every`. */
  function Picked(seen: int, every: int): int {
    if every > 1 then (seen + every - 1) / every else seen
  }

  lemma PickedNext(seen: nat, every: int)
    ensures Picked(0, every) == 0
    ensures Picked(seen + 1, every) == Picked(seen, every) + One(!(every > 1 && seen % every != 0))
  {
    if every > 1 {
      var q, r := seen / every, seen % every;
      assert seen == q * every + r;
      DivideBy(q, every, r + every - 1);
      DivideBy(q, every, r + every);
    }
  }

  lemma DivideBy(q: int, k: int, r: int)
    requires k > 1 && 0 <= r < 2 * k
    ensures (q * k + r) / k == q + (if r < k then 0 else 1)
  {
    var x := q * k + r;
    var d := if r < k then q else q + 1;
    assert x == d * k + (if r < k then r else r - k) by {
      assert (q + 1) * k == q * k + k;
    }
    assert 0 <= x - d * k < k;
    Quotient(x, d, k);
  }

  /** What a budget lets through of so many requests. */
  function Allowed(requests: int, budget: int): int {
    if requests <= budget then requests else if budget > 0 then budget else 0
  }

  /** Of successes one of every so many is picked, the first included; a budget lets through what it can. */
  lemma PickedTold(seen: nat, every: int, budget: int)
    ensures every > 1 ==> seen <= Picked(seen, every) * every < seen + every
    ensures every <= 1 ==> Picked(seen, every) == seen
    ensures 0 <= Allowed(seen, budget) <= seen && (budget >= 0 ==> Allowed(seen, budget) <= budget)
    ensures Allowed(seen, budget) < seen ==> Allowed(seen, budget) >= budget
  {
    if every > 1 {
      var q, r := (seen + every - 1) / every, (seen + every - 1) % every;
      assert seen + every - 1 == q * every + r;
    }
  }

  /** The shared counters and budgets, in terms of what the users have done. */
  ghost predicate Settled(c: Config, s: State, t: Ledger) {
    && s.completed == t.completed && s.failed == t.failed && s.throttled == t.throttled
    && t.failOps >= 0 && s.failBudget == c.failBudget - t.failOps && t.keptFailures == Allowed(t.failOps, c.failBudget)
    && s.seen == t.seen
    && Picked(t.seen, c.sampleEvery) - t.waiting >= 0
    && s.successBudget == c.successBudget - (Picked(t.seen, c.sampleEvery) - t.waiting)
    && t.keptOthers == Allowed(Picked(t.seen, c.sampleEvery) - t.waiting, c.successBudget)
    && t.aborts >= 0 && (s.aborted <==> t.aborts > 0)
    && |s.samples| == t.merged && Fails(s.samples) == t.mergedFails && Throttles(s.samples) == t.mergedThrottles
    && s.iterations == t.mergedIters
    && Fails(s.traces) == t.mergedKeptFailures && |s.traces| - Fails(s.traces) == t.mergedKeptOthers
  }

  /** The run a user is in the middle of is its last sample. */
  ghost predicate Current(v: Vu) {
    v.pc.Idle? || v.pc.Running? || v.pc.Done? ||
    (v.runs != [] && v.runs[|v.runs| - 1] == v.pc.run && (v.pc.Chosen? ==> !v.pc.run.failed))
  }

  /** From a step to the ledger: the user's share moves by what the step did. */
  lemma SettledBy(c: Config, s: State, step: Step, t: Ledger)
    requires Enabled(c, s, step) && !step.Spawn? && !step.Merge? && Current(s.vus[step.v]) &&
             Settled(c, s, Total(s.vus))
    requires Plus(t, Share(s.vus[step.v])) == Plus(Total(s.vus), Share(Do(c, s, step).vus[step.v]))
    ensures Settled(c, Do(c, s, step), t)
  {
    hide Total, Settled, Do, Share, Plus, Current, Enabled;
    match step {
      case Call(_, _) => SettledByCall(c, s, step, t);
      case Keep(_) => SettledByKeep(c, s, step, t);
      case Spend(_) => SettledBySpend(c, s, step, t);
      case _ => SettledByRest(c, s, step, t);
    }
  }

  lemma SettledByCall(c: Config, s: State, step: Step, t: Ledger)
    requires Enabled(c, s, step) && step.Call? && Current(s.vus[step.v]) && Settled(c, s, Total(s.vus))
    requires Plus(t, Share(s.vus[step.v])) == Plus(Total(s.vus), Share(Do(c, s, step).vus[step.v]))
    ensures Settled(c, Do(c, s, step), t)
  {
    hide Total, Fails, Throttles, Aborts, Picked, Allowed, Fold.Add, Fold.Merge, Spans;
    CountSnoc(s.vus[step.v].runs, step.run);
  }

  lemma SettledByKeep(c: Config, s: State, step: Step, t: Ledger)
    requires Enabled(c, s, step) && step.Keep? && Current(s.vus[step.v]) && Settled(c, s, Total(s.vus))
    requires Plus(t, Share(s.vus[step.v])) == Plus(Total(s.vus), Share(Do(c, s, step).vus[step.v]))
    ensures Settled(c, Do(c, s, step), t)
  {
    hide Total, Fails, Throttles, Aborts, Picked, Fold.Add, Fold.Merge, Spans;
    PickedNext(s.seen, c.sampleEvery);
    CountSnoc(s.vus[step.v].traces, s.vus[step.v].pc.run);
  }

  lemma SettledBySpend(c: Config, s: State, step: Step, t: Ledger)
    requires Enabled(c, s, step) && step.Spend? && Current(s.vus[step.v]) && Settled(c, s, Total(s.vus))
    requires Plus(t, Share(s.vus[step.v])) == Plus(Total(s.vus), Share(Do(c, s, step).vus[step.v]))
    ensures Settled(c, Do(c, s, step), t)
  {
    hide Total, Fails, Throttles, Aborts, Picked, Fold.Add, Fold.Merge, Spans;
    CountSnoc(s.vus[step.v].traces, s.vus[step.v].pc.run);
  }

  lemma SettledByRest(c: Config, s: State, step: Step, t: Ledger)
    requires Enabled(c, s, step) &&
             (step.Begin? || step.CountFailure? || step.CountThrottle? || step.Abort? || step.EndIteration?) &&
             Current(s.vus[step.v]) && Settled(c, s, Total(s.vus))
    requires Plus(t, Share(s.vus[step.v])) == Plus(Total(s.vus), Share(Do(c, s, step).vus[step.v]))
    ensures Settled(c, Do(c, s, step), t)
  {
    hide Total, Fails, Throttles, Aborts, Picked, Allowed, Fold.Add, Fold.Merge, Spans;
  }

  lemma SettledByMerge(c: Config, s: State, step: Step, t: Ledger)
    requires Enabled(c, s, step) && step.Merge? && Settled(c, s, Total(s.vus))
    requires Plus(t, Share(s.vus[step.v])) == Plus(Total(s.vus), Share(Do(c, s, step).vus[step.v]))
    ensures Settled(c, Do(c, s, step), t)
  {
    hide Total, Fails, Throttles, Aborts, Picked, Fold.Add, Fold.Merge, Spans;
    CountJoin(s.samples, s.vus[step.v].runs);
    CountJoin(s.traces, s.vus[step.v].traces);
  }

  // ---------------------------------------------------------------- one user

  /** How many flows of the present iteration have a sample. */
  function Progress(pc: Pc): nat {
    if pc.Idle? || pc.Done? then 0 else if pc.Running? then pc.i else pc.i + 1
  }

  /** The runs already folded. */
  function Noted(v: Vu): seq<Run>
    requires Current(v)
  {
    if v.pc.Sampled? || v.pc.FailureCounted? then v.runs[..|v.runs| - 1] else v.runs
  }

  /** The runs whose trace has been kept or not. */
  function Tried(v: Vu): seq<Run>
    requires Current(v)
  {
    if v.pc.Sampled? || v.pc.FailureCounted? || v.pc.Recorded? || v.pc.Chosen? then v.runs[..|v.runs| - 1] else v.runs
  }

  /** Traces only of these runs, each at most as often. */
  ghost predicate Drawn(traces: seq<Run>, runs: seq<Run>) {
    multiset(traces) <= multiset(runs)
  }

  /** A user's accumulator: a sample a flow for each whole iteration and for this one so far, its tree
      the fold of its traces, and traces only of runs it made. */
  ghost predicate Kept(c: Config, v: Vu) {
    && Current(v)
    && Progress(v.pc) <= c.flows && |v.runs| == v.iters * c.flows + Progress(v.pc)
    && v.folded == Fold.Folded(Spans(Noted(v)))
    && Drawn(v.traces, Tried(v))
  }

  lemma NewKept(c: Config)
    ensures Kept(c, NEW_VU)
  {
    Fold.NothingFolds();
  }

  lemma KeptBy(c: Config, s: State, step: Step)
    requires Enabled(c, s, step) && !step.Spawn? && Kept(c, s.vus[step.v])
    ensures Kept(c, Do(c, s, step).vus[step.v])
  {
    hide Kept, Fold.Merge, Fold.Add;
    var v := s.vus[step.v];
    if step.Call? {
      KeptByCall(c, s, step);
    } else if step.CountThrottle? {
      KeptByFold(c, v);
    } else if step.Keep? || step.Spend? {
      KeptByTrace(c, v, (if step.Keep? then s.failBudget else s.successBudget) - 1 >= 0);
      KeptByTrace(c, v, false);
      if step.Keep? && !v.pc.run.failed {
        KeptByPick(c, v);
      }
    } else {
      KeptByRest(c, v);
    }
  }

  lemma KeptByCall(c: Config, s: State, step: Step)
    requires Enabled(c, s, step) && step.Call? && Kept(c, s.vus[step.v])
    ensures Kept(c, Do(c, s, step).vus[step.v])
  {
    hide Spans, Fold.Folded;
    var v' := Do(c, s, step).vus[step.v];
    assert v'.runs[..|v'.runs| - 1] == s.vus[step.v].runs;
  }

  lemma KeptByFold(c: Config, v: Vu)
    requires Kept(c, v) && v.pc.FailureCounted?
    ensures Kept(c, v.(folded := Fold.Add(v.folded, v.pc.run.span), pc := Recorded(v.pc.i, v.pc.run)))
  {
    hide Spans, Fold.Folded, Fold.Add;
    var runs := v.runs[..|v.runs| - 1];
    LastRun(v);
    CountSnoc(runs, v.pc.run);
    FoldedLast(Spans(runs), v.pc.run.span);
    assert Noted(v) == runs;
    assert Fold.Add(v.folded, v.pc.run.span) == Fold.Folded(Spans(v.runs));
  }

  lemma KeptByTrace(c: Config, v: Vu, keep: bool)
    requires Kept(c, v) && (v.pc.Recorded? || v.pc.Chosen?)
    ensures Kept(c, v.(traces := if keep then v.traces + [v.pc.run] else v.traces, pc := Judged(v.pc.i, v.pc.run)))
  {
    hide Spans, Fold.Folded, Drawn;
    OneTrace(v.traces, v.runs);
    assert Tried(v) == v.runs[..|v.runs| - 1];
  }

  lemma KeptByPick(c: Config, v: Vu)
    requires Kept(c, v) && v.pc.Recorded? && !v.pc.run.failed
    ensures Kept(c, v.(pc := Chosen(v.pc.i, v.pc.run)))
  {
    hide Spans, Fold.Folded;
  }

  /** Keeping the last run, or not. */
  lemma OneTrace(traces: seq<Run>, runs: seq<Run>)
    requires runs != [] && Drawn(traces, runs[..|runs| - 1])
    ensures Drawn(traces, runs) && Drawn(traces + [runs[|runs| - 1]], runs)
  {
    assert runs == runs[..|runs| - 1] + [runs[|runs| - 1]];
  }

  /** The steps that only move on. */
  lemma KeptByRest(c: Config, v: Vu)
    requires Kept(c, v)
    ensures v.pc.Idle? ==> Kept(c, v.(pc := Running(0))) && Kept(c, v.(pc := Done))
    ensures v.pc.Sampled? ==> Kept(c, v.(pc := FailureCounted(v.pc.i, v.pc.run)))
    ensures v.pc.Judged? ==> Kept(c, v.(pc := Running(v.pc.i + 1)))
    ensures v.pc.Running? && v.pc.i == c.flows ==> Kept(c, v.(iters := v.iters + 1, pc := Idle))
  {
    hide Spans, Fold.Folded, Drawn, Kept;
    if v.pc.Running? && v.pc.i == c.flows {
      KeptByEnd(c, v);
    } else if v.pc.Sampled? {
      KeptByCount(c, v);
    } else {
      KeptByMove(c, v);
    }
  }

  lemma KeptByMove(c: Config, v: Vu)
    requires Kept(c, v)
    ensures v.pc.Idle? ==> Kept(c, v.(pc := Running(0))) && Kept(c, v.(pc := Done))
    ensures v.pc.Judged? ==> Kept(c, v.(pc := Running(v.pc.i + 1)))
  {
    hide Spans, Fold.Folded, Drawn;
  }

  lemma KeptByCount(c: Config, v: Vu)
    requires Kept(c, v) && v.pc.Sampled?
    ensures Kept(c, v.(pc := FailureCounted(v.pc.i, v.pc.run)))
  {
    hide Spans, Fold.Folded, Drawn;
  }

  lemma KeptByEnd(c: Config, v: Vu)
    requires Kept(c, v) && v.pc.Running? && v.pc.i == c.flows
    ensures Kept(c, v.(iters := v.iters + 1, pc := Idle))
  {
    hide Spans, Fold.Folded, Drawn;
    OneMore(v.iters, c.flows);
  }

  lemma OneMore(iters: nat, flows: nat)
    ensures (iters + 1) * flows == iters * flows + flows
  {
  }

  lemma FoldedLast(spans: seq<Fold.Span>, sp: Fold.Span)
    ensures Fold.Folded(spans + [sp]) == Fold.Add(Fold.Folded(spans), sp)
  {
    Fold.AddLast(Fold.EMPTY, spans, sp);
  }

  /** The current run is the one after those before it. */
  lemma LastRun(v: Vu)
    requires Current(v)
    ensures !v.pc.Idle? && !v.pc.Running? && !v.pc.Done? ==>
              v.runs == v.runs[..|v.runs| - 1] + [v.pc.run]
              && multiset(v.runs) == multiset(v.runs[..|v.runs| - 1]) + multiset{v.pc.run}
  {
    if !v.pc.Idle? && !v.pc.Running? && !v.pc.Done? {
      assert v.runs == v.runs[..|v.runs| - 1] + [v.pc.run];
    }
  }

  // ---------------------------------------------------------------- what is merged

  function RunsLeft(v: Vu): multiset<Run> {
    if v.pc.Done? then multiset(v.runs) else multiset{}
  }

  function TracesLeft(v: Vu): multiset<Run> {
    if v.pc.Done? then multiset(v.traces) else multiset{}
  }

  /** The runs of the users that have left. */
  function LeftRuns(vus: seq<Vu>): multiset<Run> {
    if vus == [] then multiset{} else LeftRuns(vus[..|vus| - 1]) + RunsLeft(vus[|vus| - 1])
  }

  function LeftTraces(vus: seq<Vu>): multiset<Run> {
    if vus == [] then multiset{} else LeftTraces(vus[..|vus| - 1]) + TracesLeft(vus[|vus| - 1])
  }

  lemma BagSwap(a: multiset<Run>, b: multiset<Run>, c: multiset<Run>)
    ensures a + b + c == a + c + b
  {
  }

  lemma {:induction false} LeftRunsAt(vus: seq<Vu>, v: nat, vu: Vu)
    requires v < |vus| && RunsLeft(vus[v]) == multiset{}
    ensures LeftRuns(vus[v := vu]) == LeftRuns(vus) + RunsLeft(vu)
    decreases |vus|
  {
    hide RunsLeft;
    var n := |vus| - 1;
    if v == n {
      assert vus[v := vu][..n] == vus[..n];
      assert LeftRuns(vus) == LeftRuns(vus[..n]);
    } else {
      LeftRunsAt(vus[..n], v, vu);
      assert vus[v := vu][..n] == vus[..n][v := vu];
      BagSwap(LeftRuns(vus[..n]), RunsLeft(vu), RunsLeft(vus[n]));
    }
  }

  lemma {:induction false} LeftTracesAt(vus: seq<Vu>, v: nat, vu: Vu)
    requires v < |vus| && TracesLeft(vus[v]) == multiset{}
    ensures LeftTraces(vus[v := vu]) == LeftTraces(vus) + TracesLeft(vu)
    decreases |vus|
  {
    hide TracesLeft;
    var n := |vus| - 1;
    if v == n {
      assert vus[v := vu][..n] == vus[..n];
      assert LeftTraces(vus) == LeftTraces(vus[..n]);
    } else {
      LeftTracesAt(vus[..n], v, vu);
      assert vus[v := vu][..n] == vus[..n][v := vu];
      BagSwap(LeftTraces(vus[..n]), TracesLeft(vu), TracesLeft(vus[n]));
    }
  }

  lemma LeftSpawn(vus: seq<Vu>)
    ensures LeftRuns(vus + [NEW_VU]) == LeftRuns(vus) && LeftTraces(vus + [NEW_VU]) == LeftTraces(vus)
  {
    assert (vus + [NEW_VU])[..|vus|] == vus;
    assert RunsLeft(NEW_VU) == multiset{} && TracesLeft(NEW_VU) == multiset{};
  }

  /** What has been merged is what those users gathered, and its tree is the fold of its traces. */
  ghost predicate Gathered(s: State) {
    && multiset(s.samples) == LeftRuns(s.vus) && multiset(s.traces) == LeftTraces(s.vus)
    && s.folded == Fold.Folded(Spans(s.samples))
  }

  lemma GatheredBy(c: Config, s: State, step: Step)
    requires Enabled(c, s, step) && Gathered(s) && (!step.Spawn? ==> Kept(c, s.vus[step.v]))
    ensures Gathered(Do(c, s, step))
  {
    hide Spans, Fold.Folded, Fold.Add, Fold.Merge, LeftRuns, LeftTraces, Kept;
    if step.Spawn? {
      LeftSpawn(s.vus);
    } else {
      var v' := Do(c, s, step).vus[step.v];
      LeftRunsAt(s.vus, step.v, v');
      LeftTracesAt(s.vus, step.v, v');
      if step.Merge? {
        GatheredByMerge(c, s, step.v);
      } else {
        SharedStays(c, s, step);
      }
    }
  }

  lemma SharedStays(c: Config, s: State, step: Step)
    requires Enabled(c, s, step) && !step.Spawn? && !step.Merge?
    ensures var s' := Do(c, s, step);
            && s'.samples == s.samples && s'.traces == s.traces && s'.folded == s.folded
            && s'.vus == s.vus[step.v := s'.vus[step.v]] && !s'.vus[step.v].pc.Done?
  {
    hide Fold.Add;
  }

  lemma GatheredByMerge(c: Config, s: State, v: nat)
    requires Enabled(c, s, Merge(v)) && Kept(c, s.vus[v]) && s.folded == Fold.Folded(Spans(s.samples))
    ensures var s', vu := Do(c, s, Merge(v)), s.vus[v];
            && s'.folded == Fold.Folded(Spans(s'.samples)) && s'.vus == s.vus[v := vu.(pc := Done)]
            && multiset(s'.samples) == multiset(s.samples) + multiset(vu.runs)
            && multiset(s'.traces) == multiset(s.traces) + multiset(vu.traces)
  {
    hide Spans, Fold.Folded, Fold.Merge;
    CountJoin(s.samples, s.vus[v].runs);
    Fold.MergeFolds(Spans(s.samples), Spans(s.vus[v].runs));
  }

  // ---------------------------------------------------------------- every reachable state

  ghost predicate Good(c: Config, s: State) {
    (forall v :: 0 <= v < |s.vus| ==> Kept(c, s.vus[v])) && Settled(c, s, Total(s.vus)) && Gathered(s)
  }

  lemma StartGood(c: Config)
    ensures Good(c, Start(c))
  {
    hide Fails, Throttles, Aborts, Spans;
    CountNone();
    PickedNext(0, c.sampleEvery);
    Fold.NothingFolds();
    SpansNone();
  }

  lemma SpansNone()
    ensures Spans([]) == []
  {
  }

  lemma GoodBy(c: Config, s: State, step: Step)
    requires Enabled(c, s, step) && Good(c, s)
    ensures Good(c, Do(c, s, step))
  {
    hide Kept, Settled, Gathered, Share, Total, Plus;
    GatheredBy(c, s, step);
    if step.Spawn? {
      NewKept(c);
      TotalSpawn(s.vus);
      SettledBySpawn(c, s);
    } else {
      var s' := Do(c, s, step);
      OnlyOne(c, s, step);
      KeptBy(c, s, step);
      TotalAt(s.vus, step.v, s'.vus[step.v]);
      if step.Merge? {
        SettledByMerge(c, s, step, Total(s'.vus));
      } else {
        KeptCurrent(c, s.vus[step.v]);
        SettledBy(c, s, step, Total(s'.vus));
      }
    }
  }

  lemma KeptCurrent(c: Config, v: Vu)
    requires Kept(c, v)
    ensures Current(v)
  {
  }

  lemma SettledBySpawn(c: Config, s: State)
    requires Settled(c, s, Total(s.vus))
    ensures Settled(c, Do(c, s, Spawn), Total(s.vus))
  {
    hide Total;
  }

  /** A step of one user leaves the others alone. */
  lemma OnlyOne(c: Config, s: State, step: Step)
    requires Enabled(c, s, step) && !step.Spawn?
    ensures var s' := Do(c, s, step); s'.vus == s.vus[step.v := s'.vus[step.v]]
  {
    hide Fold.Add, Fold.Merge;
  }

  lemma {:induction false} AlwaysGood(c: Config, steps: seq<Step>)
    ensures Exec(c, steps).Some? ==> Good(c, Exec(c, steps).value)
    decreases |steps|
  {
    hide Good, Do, Enabled;
    if steps == [] {
      StartGood(c);
    } else {
      var before := Exec(c, steps[..|steps| - 1]);
      AlwaysGood(c, steps[..|steps| - 1]);
      if before.Some? && Enabled(c, before.value, steps[|steps| - 1]) {
        GoodBy(c, before.value, steps[|steps| - 1]);
      }
    }
  }

  // ---------------------------------------------------------------- a finished run

  /** With every user gone, what was done is what was merged. */
  ghost predicate AllMerged(t: Ledger) {
    && t.completed == t.merged && t.failed == t.failOps == t.mergedFails && t.throttled == t.mergedThrottles
    && t.seen == t.merged - t.mergedFails && t.waiting == 0
    && t.keptFailures == t.mergedKeptFailures && t.keptOthers == t.mergedKeptOthers
  }

  lemma {:induction false} GoneMerged(c: Config, vus: seq<Vu>)
    requires forall v :: 0 <= v < |vus| ==> vus[v].pc.Done? && Kept(c, vus[v])
    ensures AllMerged(Total(vus)) && Total(vus).merged == Total(vus).mergedIters * c.flows
    decreases |vus|
  {
    hide Share, Kept, AllMerged, Plus;
    if vus == [] {
      NothingMerged();
    } else {
      var n := |vus| - 1;
      GoneMerged(c, vus[..n]);
      WholeShare(c, vus[n]);
      BothMerged(Total(vus[..n]), Share(vus[n]), c.flows);
    }
  }

  lemma NothingMerged()
    ensures AllMerged(NOTHING) && NOTHING.merged == 0 && NOTHING.mergedIters == 0
  {
  }

  lemma BothMerged(a: Ledger, b: Ledger, flows: nat)
    requires AllMerged(a) && AllMerged(b) && a.merged == a.mergedIters * flows && b.merged == b.mergedIters * flows
    ensures AllMerged(Plus(a, b)) && Plus(a, b).merged == Plus(a, b).mergedIters * flows
  {
    Distribute(a.mergedIters, b.mergedIters, flows);
  }

  lemma WholeShare(c: Config, v: Vu)
    requires v.pc.Done? && Kept(c, v)
    ensures AllMerged(Share(v)) && Share(v).merged == Share(v).mergedIters * c.flows && Share(v).mergedIters == v.iters
  {
    hide Fails, Throttles, Aborts, Fold.Folded, Spans;
  }

  lemma {:induction false} TracesOfRuns(c: Config, vus: seq<Vu>)
    requires forall v :: 0 <= v < |vus| ==> vus[v].pc.Done? && Kept(c, vus[v])
    ensures LeftTraces(vus) <= LeftRuns(vus)
    decreases |vus|
  {
    hide Kept, RunsLeft, TracesLeft;
    if vus != [] {
      TracesOfRuns(c, vus[..|vus| - 1]);
      TracesOfRun(c, vus[|vus| - 1]);
    }
  }

  lemma TracesOfRun(c: Config, v: Vu)
    requires v.pc.Done? && Kept(c, v)
    ensures TracesLeft(v) <= RunsLeft(v)
  {
    hide Fold.Folded, Spans;
  }

  lemma {:induction false} AbortsIn(runs: seq<Run>)
    ensures Aborts(runs) > 0 <==> exists r :: r in runs && r.aborted
    decreases |runs|
  {
    if runs != [] {
      var n := |runs| - 1;
      AbortsIn(runs[..n]);
      assert forall r :: r in runs <==> r in runs[..n] || r == runs[n];
    }
  }

  lemma {:induction false} GoneAborted(vus: seq<Vu>)
    requires forall v :: 0 <= v < |vus| ==> vus[v].pc.Done?
    ensures Total(vus).aborts > 0 <==> exists r :: r in LeftRuns(vus) && r.aborted
    ensures Total(vus).aborts >= 0
    decreases |vus|
  {
    hide Fails, Throttles, Aborts;
    if vus != [] {
      var n := |vus| - 1;
      GoneAborted(vus[..n]);
      AbortsIn(vus[n].runs);
      assert forall r :: r in LeftRuns(vus) <==> r in LeftRuns(vus[..n]) || r in vus[n].runs;
    }
  }

  /** However the users' steps interleave, a finished run has the samples of all its users and no
      others, a sample a flow for every iteration, counters that agree with the samples, and one folded
      tree of all the traces, whose root's children count one for each sample. */
  lemma FinishedRun(c: Config, steps: seq<Step>)
    requires Exec(c, steps).Some? && Finished(Exec(c, steps).value)
    ensures var s := Exec(c, steps).value;
            && multiset(s.samples) == LeftRuns(s.vus)
            && s.completed == |s.samples| == s.iterations * c.flows
            && s.failed == Fails(s.samples) && s.throttled == Throttles(s.samples)
            && (s.aborted <==> exists r :: r in s.samples && r.aborted)
            && s.folded == Fold.Folded(Spans(s.samples))
            && Fold.SumOf(s.folded.children, s.folded.children.Keys, Fold.CountOf) == |s.samples|
  {
    hide Exec, Kept, Total, Fails, Throttles, Fold.Folded, Spans, Picked, LeftRuns, LeftTraces, Fold.SumOf;
    var s := Exec(c, steps).value;
    AlwaysGood(c, steps);
    GoneMerged(c, s.vus);
    GoneAborted(s.vus);
    assert forall r :: r in s.samples <==> r in multiset(s.samples);
    CountsOfFolded(Spans(s.samples));
    SpansLength(s.samples);
  }

  lemma CountsOfFolded(traces: seq<Fold.Span>)
    ensures var f := Fold.Folded(traces); Fold.SumOf(f.children, f.children.Keys, Fold.CountOf) == |traces|
  {
    Fold.RootCounts(Fold.EMPTY, traces);
  }

  lemma {:induction false} SpansLength(runs: seq<Run>)
    ensures |Spans(runs)| == |runs|
    decreases |runs|
  {
    if runs != [] {
      SpansLength(runs[..|runs| - 1]);
    }
  }

  /** And its kept traces are those of runs it made: of the failures as many as there were or as the
      budget allows, and of the others one of every so many, the first included, up to their budget. */
  lemma TracesKept(c: Config, steps: seq<Step>)
    requires Exec(c, steps).Some? && Finished(Exec(c, steps).value)
    ensures var s := Exec(c, steps).value;
            var failures, others := Fails(s.samples), |s.samples| - Fails(s.samples);
            && multiset(s.traces) <= multiset(s.samples)
            && Fails(s.traces) == Allowed(failures, c.failBudget)
            && |s.traces| - Fails(s.traces) == Allowed(Picked(others, c.sampleEvery), c.successBudget)
  {
    hide Exec, Kept, Total, Fails, Throttles, Fold.Folded, Spans, Picked, LeftRuns, LeftTraces;
    var s := Exec(c, steps).value;
    AlwaysGood(c, steps);
    GoneMerged(c, s.vus);
    TracesOfRuns(c, s.vus);
  }
}

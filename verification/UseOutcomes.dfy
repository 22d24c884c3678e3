/** When a use step that recorded a failure comes out failed (internal/executor/iteration.go:122-185):
    always, unless a step of the flow, at any depth, aborts the run on a throttle that counts as a failure. */
module UseOutcomes {
  import opened FlowIr
  import opened Options
  import opened Interp
  import opened Validator
  import opened Conduct
  import opened Variables
  import opened Exactness
  import opened UseSteps

  /** The step puts a question to the other side that can be answered with a throttle. */
  predicate CanThrottle(st: Step) {
    st.kind.Request? || (st.kind.Socket? && (st.kind.opens || st.kind.send.Some? || st.kind.receives))
  }

  /** The step, or one of the flow it uses, aborts the run on a throttle that counts as a failure. */
  predicate AbortsOnThrottle(st: Step, mode: Mode)
    decreases st, 0
  {
    if st.kind.Use? then st.kind.flow.Some? && SomeAborts(st.kind.flow.value.steps, mode)
    else CanThrottle(st) && ThrottleIsError(st, mode) && EffectiveAction(st.onFailure, mode) == AbortRun
  }

  predicate SomeAborts(steps: seq<Step>, mode: Mode)
    decreases steps, 1
  {
    steps != [] && (AbortsOnThrottle(steps[0], mode) || SomeAborts(steps[1..], mode))
  }

  // ---------------------------------------------------------------- without such a step

  /** A level that turned to aborting shows a failed outcome. */
  ghost predicate Loud(fr: Frame, r: Result) {
    !r.err && r.fr.aborted && !fr.aborted ==> r.out == Some(Failed)
  }

  lemma FailLoud(cx: Context, st: Step, path: seq<string>, fr: Frame, sh: Shared, detail: string)
    ensures Loud(fr, Fail(cx, st, path, fr, sh, detail, Failed))
  {
  }

  lemma TroubleLoud(cx: Context, st: Step, path: seq<string>, fr: Frame, sh: Shared, a: Answer)
    requires !(ThrottleIsError(st, cx.mode) && EffectiveAction(st.onFailure, cx.mode) == AbortRun)
    ensures Loud(fr, Trouble(cx, st, path, fr, sh, a))
  {
    hide Binds;
  }

  /** A failed assertion and the rest: once a step came out failed it stays so. */
  lemma {:induction false} AssertLoud(cx: Context, st: Step, path: seq<string>, left: nat, fr: Frame, sh: Shared,
          out: Outcome)
    ensures Loud(fr, Assert(cx, st, path, left, fr, sh, out))
    decreases left
  {
    if left > 0 {
      var (a, sh1) := Ask(cx, sh);
      if a.ok {
        AssertLoud(cx, st, path, left - 1, fr, sh1, out);
      } else {
        FailLoud(cx, st, path, fr, sh1, a.detail);
        FailStops(cx, st, path, fr, sh1, a.detail);
        hide Fail;
        var r := Fail(cx, st, path, fr, sh1, a.detail, Failed);
        if !a.fatal && r.cont {
          AssertLoud(cx, st, path, left - 1, r.fr, r.sh, Failed);
        }
      }
    }
  }

  lemma FailStops(cx: Context, st: Step, path: seq<string>, fr: Frame, sh: Shared, detail: string)
    ensures var r := Fail(cx, st, path, fr, sh, detail, Failed); r.cont ==> r.fr.aborted == fr.aborted
  {
  }

  lemma {:induction false} ExtractLoud(cx: Context, st: Step, path: seq<string>, names: seq<string>, fr: Frame,
          sh: Shared)
    ensures Loud(fr, Extract(cx, st, path, names, fr, sh))
    decreases names
  {
    hide Fail, Assert;
    if names == [] {
      AssertLoud(cx, st, path, |st.assert_|, fr, sh, Ok);
    } else {
      var (a, sh1) := Ask(cx, sh);
      FailLoud(cx, st, path, fr, sh1, a.detail);
      if a.value.Some? {
        ExtractLoud(cx, st, path, names[1..], fr.(vars := fr.vars[names[0] := a.value.value]), sh1);
      }
    }
  }

  lemma RequestLoud(cx: Context, st: Step, path: seq<string>, fr: Frame, sh: Shared)
    requires st.kind.Request? && !AbortsOnThrottle(st, cx.mode)
    ensures Loud(fr, RunRequest(cx, st, path, fr, sh))
  {
    hide Fail, Trouble, Extract, ExpandAll, ThrottleIsError, EffectiveAction;
    var (sh1, _) := ExpandAll(cx, fr.vars, sh, st.kind.fields);
    var (p, sh2) := Ask(cx, sh1);
    var (sh3, _) := ExpandAll(cx, fr.vars, sh2, st.kind.auth);
    var (a, sh4) := Ask(cx, sh3);
    FailLoud(cx, st, path, fr, sh2, p.detail);
    FailLoud(cx, st, path, fr, sh4, a.detail);
    TroubleLoud(cx, st, path, fr, sh4, a);
    ExtractLoud(cx, st, path, st.extract, fr, sh4);
  }

  lemma OpenLoud(cx: Context, st: Step, path: seq<string>, fr: Frame, sh: Shared)
    requires st.kind.Socket? && st.kind.opens && !AbortsOnThrottle(st, cx.mode)
    ensures var r := OpenSocket(cx, st, path, fr, sh); Loud(fr, r) && (r.out.None? ==> r.fr.aborted == fr.aborted)
  {
    hide Fail, Trouble, ExpandAll, ThrottleIsError, EffectiveAction;
    var (sh1, _) := ExpandAll(cx, fr.vars, sh, st.kind.open);
    var (p, sh2) := Ask(cx, sh1);
    var (sh3, _) := ExpandAll(cx, fr.vars, sh2, st.kind.auth);
    var (a, sh4) := Ask(cx, sh3);
    var refused := MarkSession(fr, st.kind.session, Session(None, p.detail));
    var lost := MarkSession(fr, st.kind.session, Session(None, a.detail));
    FailLoud(cx, st, path, refused, sh2, p.detail);
    TroubleLoud(cx, st, path, lost, sh4, a);
    TroubleIsSeen(cx, st, path, refused, sh2, p);
    TroubleIsSeen(cx, st, path, lost, sh4, a);
  }

  lemma RetireLoud(cx: Context, st: Step, path: seq<string>, fr: Frame, sh: Shared, a: Answer)
    requires st.kind.Socket? && st.kind.session in fr.ws && CanThrottle(st) && !AbortsOnThrottle(st, cx.mode)
    ensures Loud(fr, Retire(cx, st, path, fr, sh, a))
  {
    hide Trouble, ThrottleIsError, EffectiveAction;
    var s := st.kind.session;
    TroubleLoud(cx, st, path, MarkSession(fr, s, fr.ws[s].(dead := a.detail)), sh, a);
  }

  lemma ReceiveLoud(cx: Context, st: Step, path: seq<string>, fr: Frame, sh: Shared)
    requires st.kind.Socket? && st.kind.session in fr.ws && !AbortsOnThrottle(st, cx.mode)
    ensures Loud(fr, ReceiveFrame(cx, st, path, fr, sh))
  {
    hide Retire, Extract, ThrottleIsError, EffectiveAction;
    if st.kind.receives {
      var (a, sh1) := Ask(cx, sh);
      RetireLoud(cx, st, path, fr, sh1, a);
      ExtractLoud(cx, st, path, st.extract, fr, sh1);
    }
  }

  lemma WorkLoud(cx: Context, st: Step, path: seq<string>, fr: Frame, sh: Shared)
    requires st.kind.Socket? && !AbortsOnThrottle(st, cx.mode)
    ensures Loud(fr, WorkSocket(cx, st, path, fr, sh))
  {
    hide Fail, Retire, ReceiveFrame, Expand, AbortsOnThrottle;
    var s := st.kind.session;
    if s in fr.ws {
      FailLoud(cx, st, path, fr, sh, fr.ws[s].dead);
      if st.kind.send.None? {
        ReceiveLoud(cx, st, path, fr, sh);
      } else {
        var (sh1, _) := Expand(cx, fr.vars, sh, st.kind.send.value);
        var (a, sh2) := Ask(cx, sh1);
        RetireLoud(cx, st, path, fr, sh2, a);
        ReceiveLoud(cx, st, path, fr, sh2);
      }
    }
  }

  lemma SocketLoud(cx: Context, st: Step, path: seq<string>, fr: Frame, sh: Shared)
    requires st.kind.Socket? && !AbortsOnThrottle(st, cx.mode)
    ensures Loud(fr, RunSocket(cx, st, path, fr, sh))
  {
    hide OpenSocket, WorkSocket, AbortsOnThrottle;
    if st.kind.opens {
      OpenLoud(cx, st, path, fr, sh);
      var r := OpenSocket(cx, st, path, fr, sh);
      if r.out.None? {
        WorkLoud(cx, st, path, r.fr, r.sh);
      }
    } else {
      WorkLoud(cx, st, path, fr, sh);
    }
  }

  /** The flow a use step runs records a failure, and no error. */
  predicate FailedInside(cx: Context, st: Step, path: seq<string>, fr: Frame, sh: Shared)
    requires st.kind.Use?
  {
    var inside := Inside(cx, st, path, fr, sh);
    inside.Some? && !inside.value.err && inside.value.fr.failures != []
  }

  lemma {:induction false} UseLoud(cx: Context, st: Step, path: seq<string>, fr: Frame, sh: Shared)
    requires st.kind.Use? && !AbortsOnThrottle(st, cx.mode)
    ensures var r := RunUse(cx, st, path, fr, sh);
            && Loud(fr, r)
            && (FailedInside(cx, st, path, fr, sh) ==> r.out == Some(Failed))
    decreases st, 0
  {
    hide BindInputs, RunSteps, Prefixed, GiveOutputs, Binds, SomeAborts, EffectiveAction;
    if st.kind.flow.Some? {
      var f := st.kind.flow.value;
      var (vars, sh1, bound) := BindInputs(cx, fr.vars, st.kind.with, f.inputs, map[], sh);
      if bound {
        StepsLoud(ChildContext(cx), f.steps, path + [st.id], FRESH_FRAME.(vars := vars), sh1, Ok);
      }
    }
  }

  lemma {:induction false} StepLoud(cx: Context, st: Step, path: seq<string>, fr: Frame, sh: Shared)
    requires !AbortsOnThrottle(st, cx.mode)
    ensures Loud(fr, RunStep(cx, st, path, fr, sh))
    decreases st, 1
  {
    hide RunRequest, RunSocket, RunUse, AbortsOnThrottle, Inside;
    var sh1 := Note(sh, Started(path + [st.id]));
    match st.kind {
      case Request(_, _) => RequestLoud(cx, st, path, fr, sh1);
      case Socket(_, _, _, _, _, _) => SocketLoud(cx, st, path, fr, sh1);
      case Use(_, _, _) => UseLoud(cx, st, path, fr, sh1);
      case Wait =>
      case Poll(_) =>
    }
  }

  lemma {:induction false} StepsLoud(cx: Context, steps: seq<Step>, path: seq<string>, fr: Frame, sh: Shared,
          out: Outcome)
    requires !SomeAborts(steps, cx.mode)
    ensures Loud(fr, RunSteps(cx, steps, path, fr, sh, out))
    decreases steps, 2
  {
    hide RunStep, AbortsOnThrottle, Read;
    if steps != [] {
      var s := RunStep(cx, steps[0], path, fr, sh);
      StepLoud(cx, steps[0], path, fr, sh);
      StepConducted(cx, steps[0], path, fr, sh);
      if !s.err && s.cont {
        StepsLoud(cx, steps[1..], path, s.fr, s.sh, if s.out.Some? then Worst(out, s.out.value) else out);
      }
    }
  }

  // ---------------------------------------------------------------- with such a step

  const BUSY := Answer(false, true, false, "429", None)

  /** How many questions are asked before the one that is throttled. */
  ghost function Before(st: Step, mode: Mode): nat
    requires AbortsOnThrottle(st, mode)
    decreases st, 0
  {
    match st.kind
    case Request(_, _) => 1
    case Socket(opens, _, _, _, _, _) => if opens then 1 else 0
    case Use(_, _, flow) => BeforeAll(flow.value.steps, mode)
    case _ => 0
  }

  ghost function BeforeAll(steps: seq<Step>, mode: Mode): nat
    requires SomeAborts(steps, mode)
    decreases steps, 1
  {
    if AbortsOnThrottle(steps[0], mode) then Before(steps[0], mode)
    else Cost(steps[0]) + BeforeAll(steps[1..], mode)
  }

  /** Good answers, then one that throttles. */
  ghost predicate Busy(cx: Context, n: nat) {
    Happy(cx, n) && cx.world(n) == BUSY
  }

  /** A failure was recorded and the run aborted, and the outcome does not show it. */
  ghost predicate Hushed(r: Result) {
    !r.err && !r.cont && r.fr.aborted && r.fr.failures != [] && r.out.Some? && r.out != Some(Failed)
  }

  lemma TroubleHushed(cx: Context, st: Step, path: seq<string>, fr: Frame, sh: Shared)
    requires ThrottleIsError(st, cx.mode) && EffectiveAction(st.onFailure, cx.mode) == AbortRun
    ensures Hushed(Trouble(cx, st, path, fr, sh, BUSY))
  {
  }

  lemma RequestHushed(cx: Context, st: Step, path: seq<string>, fr: Frame, sh: Shared, b: set<string>,
          sessions: set<string>)
    requires st.kind.Request? && Runnable(st) && AbortsOnThrottle(st, cx.mode) && Smooth(b, sessions, fr, sh)
    requires AllBound(b, cx.pool, RefsOf(Fields(st))) && Busy(cx, sh.tick + 1)
    ensures Hushed(RunRequest(cx, st, path, fr, sh))
  {
    var k := st.kind;
    RefsConcat(k.fields, k.auth);
    BoundSplit(b, cx.pool, RefsOf(k.fields), RefsOf(k.auth));
    ExpandAllWell(cx, fr.vars, sh, k.fields);
    var sh2 := ExpandAll(cx, fr.vars, sh, k.fields).0;
    sh2 := sh2.(tick := sh2.tick + 1);
    ExpandAllWell(cx, fr.vars, sh2, k.auth);
    var sh4 := ExpandAll(cx, fr.vars, sh2, k.auth).0;
    sh4 := sh4.(tick := sh4.tick + 1);
    assert cx.world(sh.tick) == ALL_WELL;
    TroubleHushed(cx, st, path, fr, sh4);
    hide Read, RefBound, ExpandAll, AllText, AllAlive, RefsOf, Extract, Fail, Trouble, AllBound;
  }

  lemma OpenHushed(cx: Context, st: Step, path: seq<string>, fr: Frame, sh: Shared, b: set<string>,
          sessions: set<string>)
    requires st.kind.Socket? && st.kind.opens && AbortsOnThrottle(st, cx.mode) && Smooth(b, sessions, fr, sh)
    requires "env" !in RefsOf(st.kind.open) && "env" !in RefsOf(st.kind.auth)
    requires AllBound(b, cx.pool, RefsOf(st.kind.open)) && AllBound(b, cx.pool, RefsOf(st.kind.auth))
    requires Busy(cx, sh.tick + 1)
    ensures Hushed(OpenSocket(cx, st, path, fr, sh))
  {
    var k := st.kind;
    ExpandAllWell(cx, fr.vars, sh, k.open);
    var sh2 := ExpandAll(cx, fr.vars, sh, k.open).0;
    sh2 := sh2.(tick := sh2.tick + 1);
    ExpandAllWell(cx, fr.vars, sh2, k.auth);
    var sh4 := ExpandAll(cx, fr.vars, sh2, k.auth).0;
    sh4 := sh4.(tick := sh4.tick + 1);
    assert cx.world(sh.tick) == ALL_WELL;
    TroubleHushed(cx, st, path, MarkSession(fr, k.session, Session(None, BUSY.detail)), sh4);
    hide Read, RefBound, ExpandAll, AllText, AllAlive, RefsOf, Extract, Fail, Trouble, AllBound;
  }

  lemma WorkHushed(cx: Context, st: Step, path: seq<string>, fr: Frame, sh: Shared, b: set<string>,
          sessions: set<string>)
    requires st.kind.Socket? && !st.kind.opens && AbortsOnThrottle(st, cx.mode) && Smooth(b, sessions, fr, sh)
    requires st.kind.session in sessions && (st.kind.send.Some? ==> "env" !in RefsIn(st.kind.send.value))
    requires st.kind.send.Some? ==> AllBound(b, cx.pool, RefsIn(st.kind.send.value))
    requires Busy(cx, sh.tick)
    ensures Hushed(WorkSocket(cx, st, path, fr, sh))
  {
    var s := st.kind.session;
    var fr1 := MarkSession(fr, s, fr.ws[s].(dead := BUSY.detail));
    if st.kind.send.Some? {
      Happier(cx, 0, sh.tick);
      ExpandWell(cx, fr.vars, sh, st.kind.send.value);
      var sh1 := Expand(cx, fr.vars, sh, st.kind.send.value).0;
      TroubleHushed(cx, st, path, fr1, sh1.(tick := sh1.tick + 1));
    } else {
      TroubleHushed(cx, st, path, fr1, sh.(tick := sh.tick + 1));
    }
    hide Read, RefBound, Expand, AllText, RefsIn, Extract, Fail, Trouble, AllBound;
  }

  lemma SocketHushed(cx: Context, st: Step, path: seq<string>, fr: Frame, sh: Shared, b: set<string>, k: Known)
    requires st.kind.Socket? && Runnable(st) && SessionOk(k, st) && Smooth(b, k.sessions, fr, sh)
    requires AbortsOnThrottle(st, cx.mode) && AllBound(b, cx.pool, RefsOf(Fields(st)))
    requires Busy(cx, sh.tick + Before(st, cx.mode))
    ensures Hushed(RunSocket(cx, st, path, fr, sh))
  {
    hide Read, RefBound, Happy, AllText, RefsIn, RefsOf, AllBound, OpenSocket, WorkSocket, Fields, Smooth, Binds;
    SocketRefs(st);
    SocketBound(b, cx.pool, st);
    if st.kind.opens {
      OpenHushed(cx, st, path, fr, sh, b, k.sessions);
    } else {
      WorkHushed(cx, st, path, fr, sh, b, k.sessions);
    }
  }

  lemma {:induction false} UseHushed(cx: Context, st: Step, path: seq<string>, fr: Frame, sh: Shared, b: set<string>,
          sessions: set<string>)
    requires st.kind.Use? && UseOk(st) && Runnable(st) && Smooth(b, sessions, fr, sh) && UseBound(b, cx.pool, st)
    requires AbortsOnThrottle(st, cx.mode) && Busy(cx, sh.tick + Before(st, cx.mode))
    ensures Hushed(RunUse(cx, st, path, fr, sh))
    ensures Inside(cx, st, path, fr, sh).Some? && Hushed(Inside(cx, st, path, fr, sh).value)
    decreases st, 0
  {
    hide Read, RefBound, StepsOk, AllText, BindsAll, InputVars, RunSteps, BindInputs, FinishUse,
      StepsBound, AllRunnable,
      Happy, RefsIn, UseOk, Runnable, Smooth, PassedBound, Hushed, BeforeAll, MoodOf, SomeAborts;
    UseFlow(st);
    SmoothParts(b, sessions, fr, sh);
    BusyIsHappy(cx, sh.tick + Before(st, cx.mode));
    var f := st.kind.flow.value;
    var (vars, sh1, bound) := BindInputs(cx, fr.vars, st.kind.with, f.inputs, map[], sh);
    UseBinds(cx, st, f, fr, sh, b);
    UseEnters(f, vars, sh1);
    BusyChild(cx, sh.tick + Before(st, cx.mode));
    var child := FRESH_FRAME.(vars := vars);
    StepsHushed(ChildContext(cx), f.steps, path + [st.id], child, sh1, Ok, InputVars(f.inputs), Start(f));
    var r := RunSteps(ChildContext(cx), f.steps, path + [st.id], child, sh1, Ok);
    FinishHushed(cx, st, f, fr, r, CloseSessions(r.fr, r.sh));
  }

  lemma BusyIsHappy(cx: Context, n: nat)
    requires Busy(cx, n)
    ensures Happy(cx, 0)
  {
  }

  lemma BusyChild(cx: Context, n: nat)
    requires Busy(cx, n)
    ensures Busy(ChildContext(cx), n)
  {
  }

  lemma FinishHushed(cx: Context, st: Step, f: Flow, fr: Frame, r: Result, sh: Shared)
    requires Hushed(r)
    ensures !r.err && Hushed(FinishUse(cx, st, f, fr, r.fr, sh, r.out.value))
  {
    hide GiveOutputs;
  }

  lemma {:induction false} StepHushed(cx: Context, st: Step, path: seq<string>, fr: Frame, sh: Shared, b: set<string>,
          k: Known)
    requires StepOk(k, st) && Runnable(st) && Smooth(b, k.sessions, fr, sh) && StepBound(b, cx.pool, st)
    requires AbortsOnThrottle(st, cx.mode) && Busy(cx, sh.tick + Before(st, cx.mode))
    ensures Hushed(RunStep(cx, st, path, fr, sh))
    decreases st, 1
  {
    ReadNote(sh, Started(path + [st.id]));
    hide Read, StepBound, RunRequest, RunSocket, RunUse, AllText, AllAlive, Happy, AllBound, UseBound, UseOk, RefsOk,
      Extracted, RefsIn, RefBound, IsIdent, Hushed, Runnable, AbortsOnThrottle, Inside, Before, CanThrottle, Binds;
    StepBoundParts(b, cx.pool, st);
    var sh1 := Note(sh, Started(path + [st.id]));
    assert Smooth(b, k.sessions, fr, sh1);
    Abortable(st, cx.mode);
    match st.kind {
      case Request(_, _) => RequestHushed(cx, st, path, fr, sh1, b, k.sessions);
      case Socket(_, _, _, _, _, _) => SocketHushed(cx, st, path, fr, sh1, b, k);
      case Use(_, _, _) =>
        DefaultsOk(st);
        UseHushed(cx, st, path, fr, sh1, b, k.sessions);
    }
  }

  lemma Abortable(st: Step, mode: Mode)
    requires AbortsOnThrottle(st, mode)
    ensures !st.kind.Wait? && !st.kind.Poll? && (st.kind.Request? ==> Before(st, mode) == 1)
  {
    hide BeforeAll;
  }

  lemma {:induction false} StepsHushed(cx: Context, steps: seq<Step>, path: seq<string>, fr: Frame, sh: Shared,
          out: Outcome, b: set<string>, k: Known)
    requires StepsOk(k, steps) && AllRunnable(steps) && Smooth(b, k.sessions, fr, sh) && out != Failed
    requires StepsBound(b, cx.pool, steps) && SomeAborts(steps, cx.mode)
    requires Busy(cx, sh.tick + BeforeAll(steps, cx.mode))
    ensures Hushed(RunSteps(cx, steps, path, fr, sh, out))
    decreases steps, 2
  {
    hide Read, StepBound, StepOk, After, Binds, RunStep, Runnable, Happy, Smooth, Cost, AbortsOnThrottle, Before;
    var s := RunStep(cx, steps[0], path, fr, sh);
    if AbortsOnThrottle(steps[0], cx.mode) {
      StepHushed(cx, steps[0], path, fr, sh, b, k);
    } else {
      Happier(cx, sh.tick + Cost(steps[0]), sh.tick + BeforeAll(steps, cx.mode));
      StepWell(cx, steps[0], path, fr, sh, b, k);
      var out1 := if s.out.Some? then Worst(out, s.out.value) else out;
      StepsHushed(cx, steps[1..], path, s.fr, s.sh, out1, b + Binds(steps[0]), After(k, steps[0]));
    }
  }

  // ---------------------------------------------------------------- exactly then

  /** In every environment, a failure inside that is no error makes the use step fail. */
  ghost predicate AlwaysFails(st: Step, mode: Mode)
    requires st.kind.Use?
  {
    forall cx: Context, path, fr, sh ::
      cx.mode == mode && FailedInside(cx, st, path, fr, sh) ==> RunUse(cx, st, path, fr, sh).out == Some(Failed)
  }

  /** It holds of every flow, accepted or not, that has no such step. */
  lemma FailureShows(st: Step, mode: Mode)
    requires st.kind.Use? && !AbortsOnThrottle(st, mode)
    ensures AlwaysFails(st, mode)
  {
    hide FailedInside, RunUse, AbortsOnThrottle;
    forall cx: Context, path, fr, sh | cx.mode == mode && FailedInside(cx, st, path, fr, sh)
      ensures RunUse(cx, st, path, fr, sh).out == Some(Failed)
    {
      UseLoud(cx, st, path, fr, sh);
    }
  }

  /** All is well up to the n-th question, and then the other side is busy. */
  function Tiring(mode: Mode, n: nat): Context {
    Context(mode, _ => Some(""), "", _ => Some(""), t => if t < n then ALL_WELL else BUSY)
  }

  lemma TiringIsBusy(mode: Mode, n: nat)
    ensures Busy(Tiring(mode, n), n) && Tiring(mode, n).pool == "" && Tiring(mode, n).mode == mode
  {
  }

  /** Everything a use step passes on, as variables. */
  function Passed(with: map<string, Templated>): map<string, Value> {
    map n, ref | n in with && ref in RefsIn(with[n]) :: ref := Str("")
  }

  lemma PassedIsBound(with: map<string, Templated>)
    ensures PassedBound(Passed(with).Keys, "", with)
    ensures AllText(Passed(with))
  {
    hide RefsIn, Root;
  }

  /** A use step of an accepted flow that the engine executes and whose references are bound: a failure
      inside always makes it fail if and only if no step inside, at any depth, aborts the run on a throttle
      that counts as a failure. */
  lemma FailsExactly(st: Step, mode: Mode)
    requires st.kind.Use? && UseOk(st) && Runnable(st)
    requires StepsBound(InputVars(st.kind.flow.value.inputs), "", st.kind.flow.value.steps)
    ensures AlwaysFails(st, mode) <==> !AbortsOnThrottle(st, mode)
  {
    hide UseOk, Runnable, StepsBound, AbortsOnThrottle, Inside, RunUse, Before,
      Smooth, Happy, PassedBound, Tiring, Busy;
    if !AbortsOnThrottle(st, mode) {
      FailureShows(st, mode);
    } else {
      var n := Before(st, mode);
      var cx := Tiring(mode, n);
      var fr := FRESH_FRAME.(vars := Passed(st.kind.with));
      TiringIsBusy(mode, n);
      PassedIsBound(st.kind.with);
      PassedSmooth(st.kind.with);
      UseHushed(cx, st, [], fr, NOTHING_YET, fr.vars.Keys, {});
      assert FailedInside(cx, st, [], fr, NOTHING_YET);
    }
  }

  lemma PassedSmooth(with: map<string, Templated>)
    ensures var fr := FRESH_FRAME.(vars := Passed(with)); Smooth(fr.vars.Keys, {}, fr, NOTHING_YET)
  {
    PassedIsBound(with);
    assert MoodOf(NOTHING_YET) == Calm;
    NoVars();
  }

  // ---------------------------------------------------------------- what a use step leaves behind

  /** A use step whose flow ran to its end leaves no declared output behind that the flow did not: calm
      ends at a use step only when its flow is cut short. */
  lemma EndedKeepsCalm(b: set<string>, cx: Context, st: Step, path: seq<string>, fr: Frame, sh: Shared)
    requires st.kind.Use? && StepBound(b, cx.pool, st) && Ready(b, fr, sh)
    ensures var inside := Inside(cx, st, path, fr, sh);
            inside.Some? && inside.value.cont && !inside.value.err ==>
              MoodOf(RunUse(cx, st, path, fr, sh).sh) == MoodOf(inside.value.sh)
  {
    hide Read, RefBound, RefsIn, DefaultOk, InputVars, BindsAll, Binds, RunSteps, BindInputs, FinishUse, RefsOf;
    if st.kind.flow.Some? {
      var f := st.kind.flow.value;
      WithBound(b, fr.vars.Keys, cx.pool, st.kind.with);
      BindThrough(cx, fr.vars, st.kind.with, f.inputs, map[], sh);
      var (vars, sh1, bound) := BindInputs(cx, fr.vars, st.kind.with, f.inputs, map[], sh);
      BindQuiet(cx, fr.vars, st.kind.with, f.inputs, map[], sh);
      QuietGrounded(sh, sh1);
      if bound {
        var child := FRESH_FRAME.(vars := vars);
        StepsThrough(InputVars(f.inputs), ChildContext(cx), f.steps, path + [st.id], child, sh1, Ok);
        var r := RunSteps(ChildContext(cx), f.steps, path + [st.id], child, sh1, Ok);
        SameNotes(r.sh, CloseSessions(r.fr, r.sh));
        if r.cont && !r.err {
          FinishKeepsCalm(cx, st, f, fr, r.fr, CloseSessions(r.fr, r.sh), r.out.value);
        }
      }
    }
  }

  lemma FinishKeepsCalm(cx: Context, st: Step, f: Flow, fr: Frame, sub: Frame, sh: Shared, out: Outcome)
    requires st.kind.Use? && st.kind.flow == Some(f)
    requires MoodOf(sh) == Calm ==> InputVars(f.inputs) + BindsAll(f.steps) <= sub.vars.Keys
    ensures MoodOf(FinishUse(cx, st, f, fr, sub, sh, out).sh) == MoodOf(sh)
  {
    hide Read, Binds, BindsAll, InputVars, Prefixed, GiveOutputs, EffectiveAction;
    FinishVars(st, f, fr, sub);
    ReadNote(sh, AskedAbort);
    ReadNote(sh, WentWithout(st.id));
  }
}

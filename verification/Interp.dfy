/** What running a flow means (internal/executor/iteration.go, ws.go and scope.go): the steps of a
    flow, the flows it uses, and whatever the environment answers. */
module Interp {
  import opened FlowIr
  import opened Options

  // ---------------------------------------------------------------- values and answers

  datatype Value = Null | Str(text: string) | Json(text: string)

  datatype Outcome = Ok | Failed | Throttled | Skipped

  /** Why something went wrong; there is always something to say. */
  type Reason = s: string | s != "" witness "?"

  /** What the environment answers one question the engine puts to it: an allow-list check, a call,
      a dial, a frame sent or awaited, an extraction, an assertion. */
  datatype Answer = Answer(ok: bool, throttle: bool, fatal: bool, detail: Reason, value: Option<Value>)

  /** What stays fixed while one flow runs: the mode, the process environment, the row bound to its
      data pool, and the answers, one for each tick. */
  datatype Context = Context(
    mode: Mode,
    env: string -> Option<string>,
    pool: string,
    row: string -> Option<string>,
    world: nat -> Answer)

  // ---------------------------------------------------------------- state

  /** A session: its connection, if it was dialled, and what ended it, empty while it is alive. */
  datatype Session = Session(conn: Option<nat>, dead: string)

  datatype Failure = Failure(stepId: string, detail: string)

  /** One level of a run: a scope's variables and an iteration's record. */
  datatype Frame = Frame(
    vars: map<string, Value>,
    ws: map<string, Session>,
    failures: seq<Failure>,
    throttled: bool,
    aborted: bool)

  const FRESH_FRAME := Frame(map[], map[], [], false, false)

  /** What a reader of the run could have noted down, in order. `path` is the step and the use steps
      around it, outermost first; `WentWithout` is a flow going on past a step that left a variable it
      was to bind without a value. */
  datatype Event =
    | Started(path: seq<string>)
    | Recorded(path: seq<string>, detail: string)
    | SawThrottle
    | AskedAbort
    | WentWithout(step: string)
    | NoValue(ref: string)
    | NeverOpened(session: string)
    | Crashed

  /** What every level of a run shares: how many questions were asked, the notes, the connections
      dialled, and how often each was closed. */
  datatype Shared = Shared(tick: nat, log: seq<Event>, dialled: set<nat>, closed: multiset<nat>)

  /** The result of a step or a run of steps: `out` is the span's outcome when there is a span. */
  datatype Result = Result(fr: Frame, sh: Shared, out: Option<Outcome>, cont: bool, err: bool)

  function Note(sh: Shared, e: Event): Shared {
    sh.(log := sh.log + [e])
  }

  function Ask(cx: Context, sh: Shared): (Answer, Shared) {
    (cx.world(sh.tick), sh.(tick := sh.tick + 1))
  }

  // ---------------------------------------------------------------- scope

  datatype Lookup = Found(value: Value) | Missing | NoValueYet

  /** A reference looked up in a scope's roots: the environment, the data row, the variables. */
  function ScopeValue(cx: Context, vars: map<string, Value>, ref: string): Lookup {
    if Root(ref) == "env" then
      if !HasDot(ref) then Missing
      else match cx.env(Rest(ref)) { case None => Missing case Some(v) => Found(Str(v)) }
    else if cx.pool != "" && Root(ref) == cx.pool then
      match cx.row(Rest(ref)) { case None => Missing case Some(v) => Found(Str(v)) }
    else if ref in vars then Found(vars[ref])
    else NoValueYet
  }

  /** The text a reference injects; nothing when it does not resolve or is null. */
  function Injected(l: Lookup, whole: bool): Option<string> {
    match l
    case Found(Null) => if whole then Some("null") else None
    case Found(v) => Some(v.text)
    case _ => None
  }

  /** Expanding one field: every reference is looked up, and one that fails fails the field. */
  function Expand(cx: Context, vars: map<string, Value>, sh: Shared, t: Templated): (Shared, Option<string>)
    decreases t
  {
    if t == [] then (sh, Some("")) else
      match t[0]
      case Text(s) =>
        var (sh', rest) := Expand(cx, vars, sh, t[1..]);
        (sh', if rest.None? then None else Some(s + rest.value))
      case Ref(name, whole) =>
        var l := ScopeValue(cx, vars, name);
        var (sh', rest) := Expand(cx, vars, if l.NoValueYet? then Note(sh, NoValue(name)) else sh, t[1..]);
        var s := Injected(l, whole);
        (sh', if s.None? || rest.None? then None else Some(s.value + rest.value))
  }

  /** Expanding fields in order, up to the first that fails. */
  function ExpandAll(cx: Context, vars: map<string, Value>, sh: Shared, ts: seq<Templated>): (Shared, bool)
    decreases ts
  {
    if ts == [] then (sh, true) else
      var (sh', s) := Expand(cx, vars, sh, ts[0]);
      if s.None? then (sh', false) else ExpandAll(cx, vars, sh', ts[1..])
  }

  // ---------------------------------------------------------------- recording

  function Worst(a: Outcome, b: Outcome): Outcome {
    if a == Failed || b == Failed then Failed
    else if a == Throttled || b == Throttled then Throttled
    else a
  }

  /** The action a failure takes, defaulting by mode: loud in integration and system. */
  function EffectiveAction(action: Option<FailureAction>, mode: Mode): FailureAction {
    if action.Some? then action.value
    else if mode == Integration || mode == System then AbortFlow
    else Record
  }

  function ThrottleIsError(st: Step, mode: Mode): bool {
    if st.throttleIsError.Some? then st.throttleIsError.value else mode == Integration || mode == System
  }

  /** The flow goes on past this step, with or without everything it was to bind. */
  function Onward(st: Step, fr: Frame, sh: Shared): Shared {
    if Binds(st) <= fr.vars.Keys then sh else Note(sh, WentWithout(st.id))
  }

  /** Append the failure and take the step's action. */
  function Fail(cx: Context, st: Step, path: seq<string>, fr: Frame, sh: Shared, detail: string, out: Outcome): Result {
    var action := EffectiveAction(st.onFailure, cx.mode);
    var fr1 := fr.(failures := fr.failures + [Failure(st.id, detail)], aborted := fr.aborted || action == AbortRun);
    var sh1 := Note(sh, Recorded(path + [st.id], detail));
    var sh2 := match action
      case AbortRun => Note(sh1, AskedAbort)
      case AbortFlow => sh1
      case Record => Onward(st, fr, sh1);
    Result(fr1, sh2, Some(out), action == Record, false)
  }

  /** A throttle is flagged always, and a failure too when the mode or the step says so. */
  function Throttle(cx: Context, st: Step, path: seq<string>, fr: Frame, sh: Shared, detail: string): Result {
    var fr1, sh1 := fr.(throttled := true), Note(sh, SawThrottle);
    if ThrottleIsError(st, cx.mode) then Fail(cx, st, path, fr1, sh1, detail, Throttled)
    else Result(fr1, Onward(st, fr, sh1), Some(Throttled), true, false)
  }

  /** An answer that is not ok: a throttle when it says so, else a failure. */
  function Trouble(cx: Context, st: Step, path: seq<string>, fr: Frame, sh: Shared, a: Answer): Result {
    if a.throttle then Throttle(cx, st, path, fr, sh, a.detail) else Fail(cx, st, path, fr, sh, a.detail, Failed)
  }

  // ---------------------------------------------------------------- extract and assert

  /** Extractions in order; one that finds nothing is a failure and ends the step. */
  function Extract(cx: Context, st: Step, path: seq<string>, names: seq<string>, fr: Frame, sh: Shared): Result {
    if names == [] then Assert(cx, st, path, |st.assert_|, fr, sh, Ok) else
      var (a, sh1) := Ask(cx, sh);
      if a.value.None? then Fail(cx, st, path, fr, sh1, a.detail, Failed)
      else Extract(cx, st, path, names[1..], fr.(vars := fr.vars[names[0] := a.value.value]), sh1)
  }

  /** Assertions in order; one that fails to evaluate ends them, and so does a failure whose action
      stops the flow. */
  function Assert(cx: Context, st: Step, path: seq<string>, left: nat, fr: Frame, sh: Shared, out: Outcome): Result
    decreases left
  {
    if left == 0 then Result(fr, sh, Some(out), true, false) else
      var (a, sh1) := Ask(cx, sh);
      if a.ok then Assert(cx, st, path, left - 1, fr, sh1, out)
      else
        var r := Fail(cx, st, path, fr, sh1, a.detail, Failed);
        if a.fatal || !r.cont then r else Assert(cx, st, path, left - 1, r.fr, r.sh, Failed)
  }

  // ---------------------------------------------------------------- requests and sockets

  function Stop(fr: Frame, sh: Shared, out: Option<Outcome>): Result {
    Result(fr, sh, out, false, true)
  }

  /** A call-shaped step: build it, clear the allow-list, send it with its credentials, classify the
      answer, and only then extract and assert. */
  function RunRequest(cx: Context, st: Step, path: seq<string>, fr: Frame, sh: Shared): Result
    requires st.kind.Request?
  {
    var (sh1, built) := ExpandAll(cx, fr.vars, sh, st.kind.fields);
    var (b, sh2) := Ask(cx, sh1);
    if !built || b.fatal then Stop(fr, sh2, None)
    else if !b.ok then Fail(cx, st, path, fr, sh2, b.detail, Failed)
    else
      var (sh3, signed) := ExpandAll(cx, fr.vars, sh2, st.kind.auth);
      var (a, sh4) := Ask(cx, sh3);
      if !signed then Fail(cx, st, path, fr, sh4, a.detail, Failed)
      else if !a.ok then Trouble(cx, st, path, fr, sh4, a)
      else Extract(cx, st, path, st.extract, fr, sh4)
  }

  function MarkSession(fr: Frame, name: string, s: Session): Frame {
    fr.(ws := fr.ws[name := s])
  }

  /** Dial an allowed session with its credentials and register it, dead or alive. */
  function DialSocket(cx: Context, st: Step, path: seq<string>, fr: Frame, sh: Shared): Result
    requires st.kind.Socket?
  {
    var (sh1, signed) := ExpandAll(cx, fr.vars, sh, st.kind.auth);
    if !signed then Stop(fr, sh1, Some(Ok)) else
      var (a, sh2) := Ask(cx, sh1);
      if !a.ok then
        Trouble(cx, st, path, MarkSession(fr, st.kind.session, Session(None, a.detail)), sh2, a)
      else
        var conn := sh1.tick;
        Result(MarkSession(fr, st.kind.session, Session(Some(conn), "")), sh2.(dialled := sh2.dialled + {conn}),
               None, true, false)
  }

  /** Open a session: clear the allow-list, then dial. The step goes on only when `out` is None. */
  function OpenSocket(cx: Context, st: Step, path: seq<string>, fr: Frame, sh: Shared): Result
    requires st.kind.Socket?
  {
    var (sh1, built) := ExpandAll(cx, fr.vars, sh, st.kind.open);
    if !built then Stop(fr, sh1, Some(Ok)) else
      var (b, sh2) := Ask(cx, sh1);
      if !b.ok then Fail(cx, st, path, MarkSession(fr, st.kind.session, Session(None, b.detail)), sh2, b.detail, Failed)
      else DialSocket(cx, st, path, fr, sh2)
  }

  /** A failed read or write retires the session with the reason. */
  function Retire(cx: Context, st: Step, path: seq<string>, fr: Frame, sh: Shared, a: Answer): Result
    requires st.kind.Socket? && st.kind.session in fr.ws
  {
    var s := st.kind.session;
    Trouble(cx, st, path, MarkSession(fr, s, fr.ws[s].(dead := a.detail)), sh, a)
  }

  /** Receive the frame the step waits for, then read it. */
  function ReceiveFrame(cx: Context, st: Step, path: seq<string>, fr: Frame, sh: Shared): Result
    requires st.kind.Socket? && st.kind.session in fr.ws
  {
    if !st.kind.receives then Result(fr, sh, Some(Ok), true, false) else
      var (a, sh1) := Ask(cx, sh);
      if !a.ok then Retire(cx, st, path, fr, sh1, a) else Extract(cx, st, path, st.extract, fr, sh1)
  }

  /** Work on a session: it must have been opened, and be alive; then send, then receive. */
  function WorkSocket(cx: Context, st: Step, path: seq<string>, fr: Frame, sh: Shared): Result
    requires st.kind.Socket?
  {
    var s := st.kind.session;
    if s !in fr.ws then Stop(fr, Note(sh, NeverOpened(s)), Some(Ok))
    else if fr.ws[s].dead != "" then Fail(cx, st, path, fr, sh, fr.ws[s].dead, Failed)
    else if st.kind.send.None? then ReceiveFrame(cx, st, path, fr, sh)
    else
      var (sh1, text) := Expand(cx, fr.vars, sh, st.kind.send.value);
      var (a, sh2) := Ask(cx, sh1);
      if text.None? || a.fatal then Stop(fr, sh2, Some(Ok))
      else if !a.ok then Retire(cx, st, path, fr, sh2, a)
      else ReceiveFrame(cx, st, path, fr, sh2)
  }

  function RunSocket(cx: Context, st: Step, path: seq<string>, fr: Frame, sh: Shared): Result
    requires st.kind.Socket?
  {
    if !st.kind.opens then WorkSocket(cx, st, path, fr, sh) else
      var r := OpenSocket(cx, st, path, fr, sh);
      if r.out.Some? then r else WorkSocket(cx, st, path, r.fr, r.sh)
  }

  /** The connections a level holds. */
  function Conns(ws: map<string, Session>): set<nat> {
    set n | n in ws && ws[n].conn.Some? :: ws[n].conn.value
  }

  /** Close every connection of a level. */
  function CloseSessions(fr: Frame, sh: Shared): Shared {
    sh.(closed := sh.closed + multiset(Conns(fr.ws)))
  }

  // ---------------------------------------------------------------- used flows

  /** What a used flow runs under: the same environment, no data row, none of the caller's variables. */
  function ChildContext(cx: Context): Context {
    cx.(pool := "", row := _ => None)
  }

  /** Fill the used flow's inputs in order: a value passed is expanded in the caller's scope, a
      default in the used flow's own. */
  function BindInputs(cx: Context, callerVars: map<string, Value>, with: map<string, Templated>, ins: seq<Input>,
                      vars: map<string, Value>, sh: Shared): (map<string, Value>, Shared, bool)
    decreases ins
  {
    if ins == [] then (vars, sh, true) else
      var i := ins[0];
      if i.name !in with && i.default.None? then (vars, Note(sh, Crashed), false) else
        var (sh1, text) := if i.name in with then Expand(cx, callerVars, sh, with[i.name])
                           else Expand(ChildContext(cx), vars, sh, i.default.value);
        if text.None? then (vars, sh1, false)
        else BindInputs(cx, callerVars, with, ins[1..], vars["inputs." + i.name := Str(text.value)], sh1)
  }

  /** Give the caller the declared outputs that have a value. */
  function GiveOutputs(id: string, outs: seq<string>, child: map<string, Value>,
          vars: map<string, Value>): map<string, Value> {
    if outs == [] then vars
    else GiveOutputs(id, outs[1..], child,
             if outs[0] in child then vars[id + "." + outs[0] := child[outs[0]]] else vars)
  }

  /** Failures of a used flow, as the caller reports them. */
  function Prefixed(id: string, fs: seq<Failure>): seq<Failure> {
    if fs == [] then [] else [Failure(id + "/" + fs[0].stepId, fs[0].detail)] + Prefixed(id, fs[1..])
  }

  /** What the caller's level takes over from a used flow's. */
  function Absorb(id: string, fr: Frame, sub: Frame): Frame {
    fr.(failures := fr.failures + Prefixed(id, sub.failures),
        throttled := fr.throttled || sub.throttled,
        aborted := fr.aborted || sub.aborted)
  }

  /** How a use step ends: an abort inside ends the run, a failure inside makes the step fail. */
  function EndUse(cx: Context, st: Step, fr: Frame, aborted: bool, failed: bool, sh: Shared, out: Outcome): Result {
    if aborted then Result(fr, sh, Some(out), false, false)
    else if !failed then Result(fr, Onward(st, fr, sh), Some(out), true, false)
    else
      match EffectiveAction(st.onFailure, cx.mode)
      case AbortRun => Result(fr.(aborted := true), Note(sh, AskedAbort), Some(Failed), false, false)
      case AbortFlow => Result(fr, sh, Some(Failed), false, false)
      case Record => Result(fr, Onward(st, fr, sh), Some(Failed), true, false)
  }

  /** What a use step takes over once its flow has run without an error, and how it ends. */
  function FinishUse(cx: Context, st: Step, f: Flow, fr: Frame, sub: Frame, sh: Shared, out: Outcome): Result {
    var fr1 := Absorb(st.id, fr, sub);
    EndUse(cx, st, fr1.(vars := GiveOutputs(st.id, f.outputs, sub.vars, fr1.vars)), sub.aborted, sub.failures != [], sh,
           out)
  }

  /** Close the used flow's sessions and return to the caller. */
  function LeaveUse(cx: Context, st: Step, f: Flow, fr: Frame, r: Result): Result
    requires r.out.Some?
  {
    var sh := CloseSessions(r.fr, r.sh);
    if r.err then Stop(Absorb(st.id, fr, r.fr), sh, r.out)
    else FinishUse(cx, st, f, fr, r.fr, sh, r.out.value)
  }

  function RunUse(cx: Context, st: Step, path: seq<string>, fr: Frame, sh: Shared): Result
    requires st.kind.Use?
    decreases st, 0
  {
    if st.kind.flow.None? then Stop(fr, Note(sh, Crashed), None) else
      var f := st.kind.flow.value;
      var (vars, sh1, bound) := BindInputs(cx, fr.vars, st.kind.with, f.inputs, map[], sh);
      if !bound then Stop(fr, sh1, None) else
        var child := FRESH_FRAME.(vars := vars);
        LeaveUse(cx, st, f, fr, RunSteps(ChildContext(cx), f.steps, path + [st.id], child, sh1, Ok))
  }

  // ---------------------------------------------------------------- steps

  function RunStep(cx: Context, st: Step, path: seq<string>, fr: Frame, sh: Shared): Result
    decreases st, 1
  {
    var sh1 := Note(sh, Started(path + [st.id]));
    match st.kind
    case Request(_, _) => RunRequest(cx, st, path, fr, sh1)
    case Socket(_, _, _, _, _, _) => RunSocket(cx, st, path, fr, sh1)
    case Use(_, _, _) => RunUse(cx, st, path, fr, sh1)
    case Wait => Result(fr, sh1, Some(Ok), true, false)
    case Poll(_) => Stop(fr, sh1, None)
  }

  /** Steps in order, until one errs or asks to stop; `out` gathers the worst outcome. */
  function RunSteps(cx: Context, steps: seq<Step>, path: seq<string>, fr: Frame, sh: Shared, out: Outcome): (r: Result)
    ensures r.out.Some?
    decreases steps, 2
  {
    if steps == [] then Result(fr, sh, Some(out), true, false) else
      var s := RunStep(cx, steps[0], path, fr, sh);
      var out1 := if s.out.Some? then Worst(out, s.out.value) else out;
      if s.err || !s.cont then Result(s.fr, s.sh, Some(out1), false, s.err)
      else RunSteps(cx, steps[1..], path, s.fr, s.sh, out1)
  }

  const NOTHING_YET := Shared(0, [], {}, multiset{})

  /** One iteration of a flow: its steps from a fresh scope, then its sessions closed. */
  function RunFlow(cx: Context, f: Flow): Result {
    var r := RunSteps(cx, f.steps, [], FRESH_FRAME, NOTHING_YET, Ok);
    r.(sh := CloseSessions(r.fr, r.sh))
  }
}

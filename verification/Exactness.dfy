/** The exact condition under which an accepted flow never meets a reference without a value, by running
    it where everything the environment is asked goes well. */
module Exactness {
  import opened FlowIr
  import opened Options
  import opened Interp
  import opened Validator
  import opened Conduct
  import opened Variables

  // ---------------------------------------------------------------- a run in which all goes well

  const ALL_WELL := Answer(true, false, false, "ok", Some(Str("")))

  /** Every variable and field has a value, and the first `n` answers are good. */
  ghost predicate Happy(cx: Context, n: nat) {
    && (forall name :: cx.env(name) == Some(""))
    && (cx.pool != "" ==> forall name :: cx.row(name) == Some(""))
    && (forall t: nat :: t < n ==> cx.world(t) == ALL_WELL)
  }

  /** How many questions a step asks where all goes well. */
  ghost function Cost(st: Step): nat
    decreases st, 0
  {
    var reading := |st.extract| + |st.assert_|;
    match st.kind
    case Request(_, _) => 2 + reading
    case Socket(opens, _, _, _, send, receives) =>
      (if opens then 2 else 0) + (if send.Some? then 1 else 0) + (if receives then 1 + reading else 0)
    case Use(_, _, flow) => if flow.None? then 0 else CostAll(flow.value.steps)
    case _ => 0
  }

  ghost function CostAll(steps: seq<Step>): nat
    decreases steps, 1
  {
    if steps == [] then 0 else Cost(steps[0]) + CostAll(steps[1..])
  }

  /** The engine executes the step, and no reference names the environment without a variable. */
  ghost predicate Runnable(st: Step)
    decreases st, 0
  {
    && !st.kind.Poll?
    && "env" !in RefsOf(Fields(st))
    && (st.kind.Use? ==>
          && (forall n :: n in st.kind.with ==> "env" !in RefsIn(st.kind.with[n]))
          && (st.kind.flow.Some? ==>
                && (forall i :: i in st.kind.flow.value.inputs ==>
                      i.default.Some? ==> "env" !in RefsIn(i.default.value))
                && AllRunnable(st.kind.flow.value.steps)))
  }

  ghost predicate AllRunnable(steps: seq<Step>)
    decreases steps, 1
  {
    steps == [] || (Runnable(steps[0]) && AllRunnable(steps[1..]))
  }

  ghost predicate AllText(vars: map<string, Value>) {
    forall x :: x in vars ==> vars[x].Str?
  }

  ghost predicate AllAlive(ws: map<string, Session>) {
    forall n :: n in ws ==> ws[n].dead == ""
  }

  /** Between steps of a run in which all goes well: exactly the variables due are bound, exactly the
      sessions due are open and alive, nothing was recorded. */
  ghost predicate Smooth(b: set<string>, sessions: set<string>, fr: Frame, sh: Shared) {
    && fr.vars.Keys == b && AllText(fr.vars)
    && fr.ws.Keys == sessions && AllAlive(fr.ws)
    && fr.failures == [] && !fr.aborted
    && MoodOf(sh) == Calm
  }

  /** After a step: it went on smoothly, having asked what it had to, if every reference was bound; else
      one was caught. */
  ghost predicate Decided(bound: bool, b: set<string>, sessions: set<string>, tick: nat, r: Result) {
    if bound then
      r.cont && !r.err && r.out != Some(Failed) && r.sh.tick == tick && Smooth(b, sessions, r.fr, r.sh)
    else MoodOf(r.sh) == Caught
  }

  ghost predicate AllBound(b: set<string>, data: string, refs: seq<string>) {
    forall ref :: ref in refs ==> RefBound(b, data, ref)
  }

  lemma Resolve(cx: Context, vars: map<string, Value>, ref: string)
    requires Happy(cx, 0) && AllText(vars) && ref != "env"
    ensures var l := ScopeValue(cx, vars, ref);
            if RefBound(vars.Keys, cx.pool, ref) then l.Found? && l.value.Str? else l.NoValueYet?
  {
    CutIsWhole(ref);
    hide Root, Rest;
  }

  lemma {:induction false} ExpandWell(cx: Context, vars: map<string, Value>, sh: Shared, t: Templated)
    requires Happy(cx, 0) && AllText(vars) && "env" !in RefsIn(t) && MoodOf(sh) != Lacking
    ensures var (sh', text) := Expand(cx, vars, sh, t);
            && sh'.tick == sh.tick
            && MoodOf(sh') == (if MoodOf(sh) == Calm && AllBound(vars.Keys, cx.pool, RefsIn(t)) then Calm else Caught)
            && text.Some? == AllBound(vars.Keys, cx.pool, RefsIn(t))
    decreases t
  {
    hide Read, RefBound, ScopeValue, Happy, AllText;
    if t != [] {
      match t[0] {
        case Text(_) => ExpandWell(cx, vars, sh, t[1..]);
        case Ref(name, _) =>
          assert RefsIn(t) == [name] + RefsIn(t[1..]);
          assert RefsIn(t)[0] == name;
          Resolve(cx, vars, name);
          ReadNote(sh, NoValue(name));
          ExpandWell(cx, vars, if ScopeValue(cx, vars, name).NoValueYet? then Note(sh, NoValue(name)) else sh, t[1..]);
      }
    }
  }

  lemma {:induction false} ExpandAllWell(cx: Context, vars: map<string, Value>, sh: Shared, ts: seq<Templated>)
    requires Happy(cx, 0) && AllText(vars) && "env" !in RefsOf(ts) && MoodOf(sh) == Calm
    ensures var (sh', built) := ExpandAll(cx, vars, sh, ts);
            && sh'.tick == sh.tick
            && built == AllBound(vars.Keys, cx.pool, RefsOf(ts))
            && MoodOf(sh') == (if built then Calm else Caught)
    decreases ts
  {
    hide Read, RefBound, Expand, Happy, AllText, RefsIn;
    if ts != [] {
      assert RefsOf(ts) == RefsIn(ts[0]) + RefsOf(ts[1..]);
      ExpandWell(cx, vars, sh, ts[0]);
      if Expand(cx, vars, sh, ts[0]).1.Some? {
        ExpandAllWell(cx, vars, Expand(cx, vars, sh, ts[0]).0, ts[1..]);
      }
    }
  }

  /** What was caught stays caught, whatever the rest of the run does. */
  lemma CaughtStays(cx: Context, st: Step, path: seq<string>, fr: Frame, sh: Shared, detail: string)
    requires MoodOf(sh) == Caught
    ensures MoodOf(Fail(cx, st, path, fr, sh, detail, Failed).sh) == Caught
  {
    FailConducted(cx, st, path, fr, sh, detail, Failed);
    hide Read, Fail;
  }

  lemma {:induction false} AssertWell(cx: Context, st: Step, path: seq<string>, left: nat, fr: Frame, sh: Shared,
          out: Outcome)
    requires Happy(cx, sh.tick + left)
    ensures var r := Assert(cx, st, path, left, fr, sh, out);
            r.cont && !r.err && r.fr == fr && r.sh.log == sh.log && r.sh.tick == sh.tick + left && r.out == Some(out)
    decreases left
  {
    if left > 0 {
      assert cx.world(sh.tick) == ALL_WELL;
      AssertWell(cx, st, path, left - 1, fr, Ask(cx, sh).1, out);
    }
  }

  lemma {:induction false} ExtractWell(cx: Context, st: Step, path: seq<string>, names: seq<string>, fr: Frame,
          sh: Shared, b: set<string>, sessions: set<string>)
    requires Happy(cx, sh.tick + |names| + |st.assert_|) && Smooth(b, sessions, fr, sh)
    ensures Decided(true, b + (set x | x in names), sessions, sh.tick + |names| + |st.assert_|,
                    Extract(cx, st, path, names, fr, sh))
    decreases names
  {
    hide Read, Assert;
    var (a, sh1) := Ask(cx, sh);
    if names == [] {
      AssertWell(cx, st, path, |st.assert_|, fr, sh, Ok);
    } else {
      assert a == ALL_WELL;
      ExtractWell(cx, st, path, names[1..], fr.(vars := fr.vars[names[0] := a.value.value]),
                  sh1, b + {names[0]}, sessions);
      assert b + {names[0]} + (set x | x in names[1..]) == b + (set x | x in names);
    }
  }

  lemma BoundSplit(b: set<string>, data: string, x: seq<string>, y: seq<string>)
    ensures AllBound(b, data, x + y) <==> AllBound(b, data, x) && AllBound(b, data, y)
  {
    hide RefBound;
    assert forall ref :: ref in x ==> ref in x + y;
    assert forall ref :: ref in y ==> ref in x + y;
  }

  lemma RequestWell(cx: Context, st: Step, path: seq<string>, fr: Frame, sh: Shared, b: set<string>,
          sessions: set<string>)
    requires st.kind.Request? && Runnable(st) && Happy(cx, sh.tick + Cost(st)) && Smooth(b, sessions, fr, sh)
    ensures Decided(AllBound(b, cx.pool, RefsOf(Fields(st))), b + Binds(st), sessions, sh.tick + Cost(st),
                    RunRequest(cx, st, path, fr, sh))
  {
    var k := st.kind;
    RefsConcat(k.fields, k.auth);
    BoundSplit(b, cx.pool, RefsOf(k.fields), RefsOf(k.auth));
    var (sh1, built) := ExpandAll(cx, fr.vars, sh, k.fields);
    ExpandAllWell(cx, fr.vars, sh, k.fields);
    var (p, sh2) := Ask(cx, sh1);
    var (sh3, signed) := ExpandAll(cx, fr.vars, sh2, k.auth);
    var (a, sh4) := Ask(cx, sh3);
    assert p == ALL_WELL;
    if built {
      ExpandAllWell(cx, fr.vars, sh2, k.auth);
      assert a == ALL_WELL;
      if signed {
        assert Smooth(b, sessions, fr, sh4);
        ExtractWell(cx, st, path, st.extract, fr, sh4, b, sessions);
      } else {
        CaughtStays(cx, st, path, fr, sh4, a.detail);
      }
    }
    hide Read, RefBound, ExpandAll, Happy, AllText, AllAlive, RefsOf, Extract, Fail, AllBound;
  }

  lemma OpenWell(cx: Context, st: Step, path: seq<string>, fr: Frame, sh: Shared, b: set<string>, sessions: set<string>)
    requires st.kind.Socket? && Happy(cx, sh.tick + 2) && Smooth(b, sessions, fr, sh)
    requires "env" !in RefsOf(st.kind.open) && "env" !in RefsOf(st.kind.auth)
    ensures var r := OpenSocket(cx, st, path, fr, sh);
            if AllBound(b, cx.pool, RefsOf(st.kind.open)) && AllBound(b, cx.pool, RefsOf(st.kind.auth))
            then r.out.None? && r.sh.tick == sh.tick + 2 && Smooth(b, sessions + {st.kind.session}, r.fr, r.sh)
            else r.out.Some? && MoodOf(r.sh) == Caught
  {
    var k := st.kind;
    var (sh1, built) := ExpandAll(cx, fr.vars, sh, k.open);
    ExpandAllWell(cx, fr.vars, sh, k.open);
    var (p, sh2) := Ask(cx, sh1);
    var (sh3, signed) := ExpandAll(cx, fr.vars, sh2, k.auth);
    var (a, sh4) := Ask(cx, sh3);
    assert p == ALL_WELL;
    if built {
      ExpandAllWell(cx, fr.vars, sh2, k.auth);
      assert a == ALL_WELL;
    }
    hide Read, RefBound, ExpandAll, Happy, AllText, RefsOf, AllBound;
  }

  /** The questions of a socket step after its session is open. */
  ghost function WorkCost(st: Step): nat
    requires st.kind.Socket?
  {
    (if st.kind.send.Some? then 1 else 0) + ReceiveCost(st)
  }

  ghost function ReceiveCost(st: Step): nat
    requires st.kind.Socket?
  {
    if st.kind.receives then 1 + |st.extract| + |st.assert_| else 0
  }

  lemma WorkWell(cx: Context, st: Step, path: seq<string>, fr: Frame, sh: Shared, b: set<string>, sessions: set<string>)
    requires st.kind.Socket? && Happy(cx, sh.tick + WorkCost(st)) && Smooth(b, sessions, fr, sh)
    requires st.kind.session in sessions && (st.kind.send.Some? ==> "env" !in RefsIn(st.kind.send.value))
    ensures Decided(st.kind.send.Some? ==> AllBound(b, cx.pool, RefsIn(st.kind.send.value)), b + Binds(st), sessions,
                    sh.tick + WorkCost(st), WorkSocket(cx, st, path, fr, sh))
  {
    hide Read, RefBound, Happy, AllText, RefsIn, AllBound, Expand, ReceiveFrame;
    if st.kind.send.None? {
      ReceiveWell(cx, st, path, fr, sh, b, sessions);
    } else {
      var (sh1, text) := Expand(cx, fr.vars, sh, st.kind.send.value);
      Happier(cx, 0, sh.tick + WorkCost(st));
      ExpandWell(cx, fr.vars, sh, st.kind.send.value);
      var (a, sh2) := Ask(cx, sh1);
      assert a == ALL_WELL by { WellAsked(cx, sh1, sh.tick + WorkCost(st)); }
      if text.Some? {
        assert Smooth(b, sessions, fr, sh2);
        ReceiveWell(cx, st, path, fr, sh2, b, sessions);
      }
    }
  }

  lemma WellAsked(cx: Context, sh: Shared, n: nat)
    requires Happy(cx, n) && sh.tick < n
    ensures Ask(cx, sh).0 == ALL_WELL
  {
  }

  lemma ReceiveWell(cx: Context, st: Step, path: seq<string>, fr: Frame, sh: Shared, b: set<string>,
          sessions: set<string>)
    requires st.kind.Socket? && Happy(cx, sh.tick + ReceiveCost(st)) && Smooth(b, sessions, fr, sh)
    requires st.kind.session in fr.ws
    ensures Decided(true, b + Binds(st), sessions, sh.tick + ReceiveCost(st), ReceiveFrame(cx, st, path, fr, sh))
  {
    hide Read, Extract, AllText, AllAlive;
    assert b + {} == b;
    if st.kind.receives {
      var (a, sh1) := Ask(cx, sh);
      ExtractWell(cx, st, path, st.extract, fr, sh1, b, sessions);
    }
  }

  lemma SocketWell(cx: Context, st: Step, path: seq<string>, fr: Frame, sh: Shared, b: set<string>, k: Known)
    requires st.kind.Socket? && Runnable(st) && SessionOk(k, st) && Smooth(b, k.sessions, fr, sh)
    requires Happy(cx, sh.tick + Cost(st)) && (!st.kind.opens ==> st.kind.open == [] && st.kind.auth == [])
    ensures Decided(AllBound(b, cx.pool, RefsOf(Fields(st))), b + Binds(st), After(k, st).sessions, sh.tick + Cost(st),
                    RunSocket(cx, st, path, fr, sh))
  {
    hide Read, RefBound, Happy, AllText, RefsIn, RefsOf, AllBound, OpenSocket, WorkSocket,
      Fields, Smooth, Binds, RefsOk;
    SocketRefs(st);
    SocketBound(b, cx.pool, st);
    Happier(cx, sh.tick + (if st.kind.opens then 2 else 0), sh.tick + Cost(st));
    if !st.kind.opens {
      WorkWell(cx, st, path, fr, sh, b, k.sessions);
    } else {
      OpenWell(cx, st, path, fr, sh, b, k.sessions);
      var r := OpenSocket(cx, st, path, fr, sh);
      if r.out.None? {
        WorkWell(cx, st, path, r.fr, r.sh, b, k.sessions + {st.kind.session});
      }
    }
  }

  lemma SocketBound(b: set<string>, data: string, st: Step)
    requires st.kind.Socket?
    ensures AllBound(b, data, RefsOf(Fields(st))) <==>
              && AllBound(b, data, RefsOf(st.kind.open)) && AllBound(b, data, RefsOf(st.kind.auth))
              && (st.kind.send.Some? ==> AllBound(b, data, RefsIn(st.kind.send.value)))
    ensures !st.kind.opens && st.kind.open == [] ==> AllBound(b, data, RefsOf(st.kind.open))
    ensures st.kind.auth == [] ==> AllBound(b, data, RefsOf(st.kind.auth))
  {
    SocketRefs(st);
    hide RefBound, Fields, RefsIn;
  }

  // ---------------------------------------------------------------- used flows

  ghost predicate WithAllBound(b: set<string>, data: string, with: map<string, Templated>, ins: seq<Input>) {
    forall i :: i in ins && i.name in with ==> AllBound(b, data, RefsIn(with[i.name]))
  }

  lemma {:induction false} BindWell(cx: Context, callerVars: map<string, Value>, with: map<string, Templated>,
                                    ins: seq<Input>, vars: map<string, Value>, sh: Shared)
    requires Happy(cx, 0) && AllText(callerVars) && AllText(vars) && MoodOf(sh) == Calm
    requires forall i :: i in ins ==> i.name in with || i.default.Some?
    requires forall n :: n in with ==> "env" !in RefsIn(with[n])
    requires forall i :: i in ins ==> DefaultOk(i) && (i.default.Some? ==> "env" !in RefsIn(i.default.value))
    ensures var (vars', sh', bound) := BindInputs(cx, callerVars, with, ins, vars, sh);
            if WithAllBound(callerVars.Keys, cx.pool, with, ins)
            then bound && MoodOf(sh') == Calm && sh'.tick == sh.tick && vars'.Keys == vars.Keys + InputVars(ins)
                 && AllText(vars')
            else !bound && MoodOf(sh') == Caught
    decreases ins
  {
    if ins == [] {
      assert InputVars(ins) == {};
    } else {
      var i := ins[0];
      assert i in ins;
      InputVarsCons(ins);
      ChildHappy(cx, 0);
      if i.name in with {
        ExpandWell(cx, callerVars, sh, with[i.name]);
      } else {
        DefaultBound(vars.Keys, i);
        ExpandWell(ChildContext(cx), vars, sh, i.default.value);
      }
      var (sh1, text) := if i.name in with then Expand(cx, callerVars, sh, with[i.name])
                         else Expand(ChildContext(cx), vars, sh, i.default.value);
      WithCons(callerVars.Keys, cx.pool, with, ins);
      hide Read, Expand, AllBound, RefsIn, DefaultOk, InputVars, Happy, ChildContext, WithAllBound;
      if text.Some? {
        BindWell(cx, callerVars, with, ins[1..], vars["inputs." + i.name := Str(text.value)], sh1);
      }
    }
  }

  lemma WithCons(b: set<string>, data: string, with: map<string, Templated>, ins: seq<Input>)
    requires ins != []
    ensures WithAllBound(b, data, with, ins) <==>
              (ins[0].name in with ==> AllBound(b, data, RefsIn(with[ins[0].name])))
              && WithAllBound(b, data, with, ins[1..])
  {
    hide AllBound, RefsIn;
    assert forall i :: i in ins <==> i == ins[0] || i in ins[1..];
  }

  lemma ChildHappy(cx: Context, n: nat)
    requires Happy(cx, n)
    ensures Happy(ChildContext(cx), n)
  {
  }

  lemma DefaultBound(b: set<string>, i: Input)
    requires DefaultOk(i)
    ensures i.default.Some? ==> AllBound(b, "", RefsIn(i.default.value))
  {
  }

  /** Every value passed names an input, so binding the inputs looks at all of them. */
  lemma WithIsAll(b: set<string>, data: string, with: map<string, Templated>, ins: seq<Input>)
    requires WithOk(with, ins)
    ensures WithAllBound(b, data, with, ins) <==> PassedBound(b, data, with)
  {
    hide RefBound, RefsIn;
    if WithAllBound(b, data, with, ins) {
      forall n, ref | n in with && ref in RefsIn(with[n])
        ensures RefBound(b, data, ref)
      {
        var i :| 0 <= i < |ins| && ins[i].name == n;
        assert ins[i] in ins && AllBound(b, data, RefsIn(with[n]));
      }
    }
  }

  lemma {:induction false} GivenText(id: string, outs: seq<string>, child: map<string, Value>, vars: map<string, Value>)
    requires AllText(child) && AllText(vars)
    ensures AllText(GiveOutputs(id, outs, child, vars))
    decreases outs
  {
    if outs != [] {
      GivenText(id, outs[1..], child, if outs[0] in child then vars[id + "." + outs[0] := child[outs[0]]] else vars);
    }
  }

  lemma FinishWell(cx: Context, st: Step, f: Flow, fr: Frame, sub: Frame, sh: Shared, out: Outcome,
                   b: set<string>, sessions: set<string>, given: set<string>, sub0: set<string>)
    requires Smooth(b, sessions, fr, sh) && Smooth(given, sub0, sub, sh) && out != Failed
    requires Binds(st) <= set o | o in f.outputs && o in given :: st.id + "." + o
    ensures Decided(true, b + (set o | o in f.outputs && o in given :: st.id + "." + o), sessions, sh.tick,
                    FinishUse(cx, st, f, fr, sub, sh, out))
  {
    hide Read, Binds;
    OutputsGiven(st.id, f.outputs, sub.vars, fr.vars);
    GivenText(st.id, f.outputs, sub.vars, fr.vars);
    assert (set o | o in f.outputs && o in sub.vars :: st.id + "." + o) ==
           set o | o in f.outputs && o in given :: st.id + "." + o;
    hide AllText;
  }

  lemma FinishCaught(cx: Context, st: Step, f: Flow, fr: Frame, sub: Frame, sh: Shared, out: Outcome)
    requires MoodOf(sh) == Caught
    ensures MoodOf(FinishUse(cx, st, f, fr, sub, sh, out).sh) == Caught
  {
    ReadNote(sh, AskedAbort);
    ReadNote(sh, WentWithout(st.id));
    hide Read, EffectiveAction, GiveOutputs, Prefixed, Binds;
  }

  ghost predicate UseBound(b: set<string>, data: string, st: Step)
    requires st.kind.Use? && st.kind.flow.Some?
  {
    && PassedBound(b, data, st.kind.with)
    && StepsBound(InputVars(st.kind.flow.value.inputs), "", st.kind.flow.value.steps)
  }

  /** Every reference in the values passed is bound. */
  ghost predicate PassedBound(b: set<string>, data: string, with: map<string, Templated>) {
    forall n, ref :: n in with && ref in RefsIn(with[n]) ==> RefBound(b, data, ref)
  }

  lemma {:induction false} UseWell(cx: Context, st: Step, path: seq<string>, fr: Frame, sh: Shared, b: set<string>,
          sessions: set<string>)
    requires st.kind.Use? && UseOk(st) && Runnable(st) && Happy(cx, sh.tick + Cost(st)) && Smooth(b, sessions, fr, sh)
    ensures Decided(UseBound(b, cx.pool, st), b + Binds(st), sessions, sh.tick + Cost(st), RunUse(cx, st, path, fr, sh))
    decreases st, 0
  {
    hide Read, RefBound, StepsOk, OutputsOk, AllText, AllAlive, BindsAll, Binds, InputVars, RunSteps,
      BindInputs, FinishUse,
      StepsBound, AllRunnable, Happy, RefsIn, IsIdent, DefaultOk, MoodOf, WithOk, Absorb, CloseSessions,
      UseOk, Runnable,
      Cost, CostAll, Smooth, PassedBound, Decided;
    UseFlow(st);
    Happier(cx, 0, sh.tick + Cost(st));
    SmoothParts(b, sessions, fr, sh);
    var f := st.kind.flow.value;
    var (vars, sh1, bound) := BindInputs(cx, fr.vars, st.kind.with, f.inputs, map[], sh);
    UseBinds(cx, st, f, fr, sh, b);
    if bound {
      UseRuns(cx, st, f, path, vars, sh1);
      var r := RunSteps(ChildContext(cx), f.steps, path + [st.id], FRESH_FRAME.(vars := vars), sh1, Ok);
      UseEnds(cx, st, f, path, fr, sh, r, b, sessions, sh.tick + CostAll(f.steps));
    } else {
      NotDecided(b + Binds(st), sessions, sh.tick + Cost(st), RunUse(cx, st, path, fr, sh));
    }
  }

  lemma NotDecided(b: set<string>, sessions: set<string>, tick: nat, r: Result)
    requires MoodOf(r.sh) == Caught
    ensures Decided(false, b, sessions, tick, r)
  {
  }

  lemma SmoothParts(b: set<string>, sessions: set<string>, fr: Frame, sh: Shared)
    requires Smooth(b, sessions, fr, sh)
    ensures fr.vars.Keys == b && AllText(fr.vars) && MoodOf(sh) == Calm
  {
    hide MoodOf, AllText;
  }

  lemma UseFlow(st: Step)
    requires st.kind.Use? && UseOk(st)
    ensures st.kind.flow.Some? && Cost(st) == CostAll(st.kind.flow.value.steps)
    ensures var f := st.kind.flow.value;
            && StepsOk(Start(f), f.steps) && (Runnable(st) ==> AllRunnable(f.steps))
  {
    assert FlowOk(st.kind.flow.value, {}, true);
    hide StepsOk, OutputsOk, AllRunnable, IsIdent, CostAll;
  }

  lemma {:induction false} UseRuns(cx: Context, st: Step, f: Flow, path: seq<string>, vars: map<string, Value>,
          sh: Shared)
    requires st.kind.Use? && st.kind.flow == Some(f) && StepsOk(Start(f), f.steps) && AllRunnable(f.steps)
    requires Happy(cx, sh.tick + CostAll(f.steps))
    requires vars.Keys == InputVars(f.inputs) && AllText(vars) && MoodOf(sh) == Calm
    ensures Decided(StepsBound(InputVars(f.inputs), "", f.steps), InputVars(f.inputs) + BindsAll(f.steps),
                    AfterAll(Start(f), f.steps).sessions, sh.tick + CostAll(f.steps),
                    RunSteps(ChildContext(cx), f.steps, path + [st.id], FRESH_FRAME.(vars := vars), sh, Ok))
    decreases st, 0, 0
  {
    hide Read, StepsOk, AllText, BindsAll, InputVars, RunSteps, StepsBound, AllRunnable, Happy, MoodOf, CostAll, Smooth,
      AfterAll;
    ChildHappy(cx, sh.tick + CostAll(f.steps));
    UseEnters(f, vars, sh);
    StepsWell(ChildContext(cx), f.steps, path + [st.id], FRESH_FRAME.(vars := vars), sh, Ok,
              InputVars(f.inputs), Start(f));
  }

  lemma UseBinds(cx: Context, st: Step, f: Flow, fr: Frame, sh: Shared, b: set<string>)
    requires st.kind.Use? && st.kind.flow == Some(f) && UseOk(st) && Runnable(st) && Happy(cx, 0)
    requires fr.vars.Keys == b && AllText(fr.vars) && MoodOf(sh) == Calm
    ensures var (vars, sh', bound) := BindInputs(cx, fr.vars, st.kind.with, f.inputs, map[], sh);
            if PassedBound(b, cx.pool, st.kind.with)
            then bound && MoodOf(sh') == Calm && sh'.tick == sh.tick && vars.Keys == InputVars(f.inputs)
                 && AllText(vars)
            else !bound && MoodOf(sh') == Caught
  {
    UseParts(st, f);
    NoVars();
    hide *;
    WithIsAll(b, cx.pool, st.kind.with, f.inputs);
    BindWell(cx, fr.vars, st.kind.with, f.inputs, map[], sh);
    assert {} + InputVars(f.inputs) == InputVars(f.inputs);
  }

  lemma UseParts(st: Step, f: Flow)
    requires st.kind.Use? && st.kind.flow == Some(f) && UseOk(st) && Runnable(st)
    ensures WithOk(st.kind.with, f.inputs)
    ensures forall i :: i in f.inputs ==> i.name in st.kind.with || i.default.Some?
    ensures forall n :: n in st.kind.with ==> "env" !in RefsIn(st.kind.with[n])
    ensures forall i :: i in f.inputs ==> DefaultOk(i) && (i.default.Some? ==> "env" !in RefsIn(i.default.value))
  {
    assert FlowOk(f, {}, true);
    hide StepsOk, OutputsOk, AllRunnable, RefsIn, RefsOf, IsIdent, DefaultOk;
  }

  lemma UseEnters(f: Flow, vars: map<string, Value>, sh: Shared)
    requires vars.Keys == InputVars(f.inputs) && AllText(vars) && MoodOf(sh) == Calm
    ensures Smooth(InputVars(f.inputs), Start(f).sessions, FRESH_FRAME.(vars := vars), sh)
  {
    hide Read, InputVars;
  }

  lemma UseEnds(cx: Context, st: Step, f: Flow, path: seq<string>, fr: Frame, sh: Shared, r: Result, b: set<string>,
          sessions: set<string>, tick: nat)
    requires st.kind.Use? && st.kind.flow == Some(f) && Smooth(b, sessions, fr, sh) && r.out.Some?
    requires Decided(StepsBound(InputVars(f.inputs), "", f.steps), InputVars(f.inputs) + BindsAll(f.steps),
                     AfterAll(Start(f), f.steps).sessions, tick, r)
    ensures var sh2 := CloseSessions(r.fr, r.sh);
            Decided(StepsBound(InputVars(f.inputs), "", f.steps), b + Binds(st), sessions, tick,
                    if r.err then Stop(Absorb(st.id, fr, r.fr), sh2, r.out)
                    else FinishUse(cx, st, f, fr, r.fr, sh2, r.out.value))
  {
    hide Read, StepsBound, Smooth, FinishUse, Binds, BindsAll, InputVars, Absorb;
    var sh2 := CloseSessions(r.fr, r.sh);
    if StepsBound(InputVars(f.inputs), "", f.steps) {
      UseGoesOn(cx, st, f, path, fr, sh, r, sh2, b, sessions);
    } else {
      FinishCaught(cx, st, f, fr, r.fr, sh2, r.out.value);
    }
  }

  lemma UseGoesOn(cx: Context, st: Step, f: Flow, path: seq<string>, fr: Frame, sh: Shared, r: Result, sh2: Shared,
                  b: set<string>, sessions: set<string>)
    requires st.kind.Use? && st.kind.flow == Some(f) && Smooth(b, sessions, fr, sh) && r.out.Some?
    requires r.out != Some(Failed)
    requires Smooth(InputVars(f.inputs) + BindsAll(f.steps), AfterAll(Start(f), f.steps).sessions, r.fr, r.sh) &&
             sh2.log == r.sh.log
    ensures Decided(true, b + Binds(st), sessions, sh2.tick, FinishUse(cx, st, f, fr, r.fr, sh2, r.out.value))
  {
    hide Read, InputVars, BindsAll, FinishUse, AllText, AllAlive, AfterAll, Start;
    FinishWell(cx, st, f, fr, r.fr, sh2, r.out.value, b, sessions, InputVars(f.inputs) + BindsAll(f.steps),
               AfterAll(Start(f), f.steps).sessions);
  }

  lemma NoVars()
    ensures AllText(map[]) && AllAlive(map[])
  {
  }

  // ---------------------------------------------------------------- whole runs

  lemma StepBoundParts(b: set<string>, data: string, st: Step)
    ensures !st.kind.Use? ==> (StepBound(b, data, st) <==> AllBound(b, data, RefsOf(Fields(st))))
    ensures st.kind.Use? && st.kind.flow.Some? && (forall i :: i in st.kind.flow.value.inputs ==> DefaultOk(i)) ==>
              (StepBound(b, data, st) <==> UseBound(b, data, st))
  {
    hide RefBound, RefsIn, StepsBound, DefaultOk;
  }

  lemma DefaultsOk(st: Step)
    requires st.kind.Use? && UseOk(st)
    ensures st.kind.flow.Some? && forall i :: i in st.kind.flow.value.inputs ==> DefaultOk(i)
  {
    assert FlowOk(st.kind.flow.value, {}, true);
    hide StepsOk, DefaultOk, IsIdent, OutputsOk;
  }

  lemma {:induction false} StepWell(cx: Context, st: Step, path: seq<string>, fr: Frame, sh: Shared, b: set<string>,
          k: Known)
    requires StepOk(k, st) && Runnable(st) && Happy(cx, sh.tick + Cost(st)) && Smooth(b, k.sessions, fr, sh)
    ensures Decided(StepBound(b, cx.pool, st), b + Binds(st), After(k, st).sessions, sh.tick + Cost(st),
                    RunStep(cx, st, path, fr, sh))
    decreases st, 1
  {
    StepBoundParts(b, cx.pool, st);
    ReadNote(sh, Started(path + [st.id]));
    hide Read, StepBound, RunRequest, RunSocket, RunUse, AllText, AllAlive, Happy, AllBound, UseBound,
      UseOk, RefsOk, Extracted, RefsIn,
      RefBound, IsIdent;
    var sh1 := Note(sh, Started(path + [st.id]));
    assert Smooth(b, k.sessions, fr, sh1);
    match st.kind {
      case Request(_, _) => RequestWell(cx, st, path, fr, sh1, b, k.sessions);
      case Socket(_, _, _, _, _, _) => SocketWell(cx, st, path, fr, sh1, b, k);
      case Use(_, _, _) =>
        DefaultsOk(st);
        UseWell(cx, st, path, fr, sh1, b, k.sessions);
      case Wait =>
        assert b + Binds(st) == b;
        NoRefs(b, cx.pool);
    }
  }

  lemma NoRefs(b: set<string>, data: string)
    ensures AllBound(b, data, RefsOf([]))
  {
  }

  lemma {:induction false} StepsWell(cx: Context, steps: seq<Step>, path: seq<string>, fr: Frame, sh: Shared,
          out: Outcome, b: set<string>, k: Known)
    requires StepsOk(k, steps) && AllRunnable(steps) && Smooth(b, k.sessions, fr, sh) && out != Failed
    requires Happy(cx, sh.tick + CostAll(steps))
    ensures Decided(StepsBound(b, cx.pool, steps), b + BindsAll(steps), AfterAll(k, steps).sessions,
                    sh.tick + CostAll(steps), RunSteps(cx, steps, path, fr, sh, out))
    decreases steps, 2
  {
    hide Read, StepBound, StepOk, After, Binds, RunStep, Runnable, Happy, AllText, AllAlive, Cost;
    if steps == [] {
      assert b + {} == b;
    } else {
      Happier(cx, sh.tick + Cost(steps[0]), sh.tick + CostAll(steps));
      StepWell(cx, steps[0], path, fr, sh, b, k);
      var s := RunStep(cx, steps[0], path, fr, sh);
      var out1 := if s.out.Some? then Worst(out, s.out.value) else out;
      if StepBound(b, cx.pool, steps[0]) {
        StepsWell(cx, steps[1..], path, s.fr, s.sh, out1, b + Binds(steps[0]), After(k, steps[0]));
        assert b + Binds(steps[0]) + BindsAll(steps[1..]) == b + (Binds(steps[0]) + BindsAll(steps[1..]));
      } else if !s.err && s.cont {
        StaysCaught(cx, steps[1..], path, s.fr, s.sh, out1);
      }
    }
  }

  lemma Happier(cx: Context, m: nat, n: nat)
    requires Happy(cx, n) && m <= n
    ensures Happy(cx, m)
  {
  }

  lemma StaysCaught(cx: Context, steps: seq<Step>, path: seq<string>, fr: Frame, sh: Shared, out: Outcome)
    requires MoodOf(sh) == Caught
    ensures MoodOf(RunSteps(cx, steps, path, fr, sh, out).sh) == Caught
  {
    StepsConducted(cx, steps, path, fr, sh, out);
    hide Read, RunSteps;
  }

  /** An environment in which all goes well. */
  function Sunny(mode: Mode, data: string): Context {
    Context(mode, _ => Some(""), data, _ => Some(""), _ => ALL_WELL)
  }

  lemma SunnyIsHappy(mode: Mode, data: string, n: nat)
    ensures Happy(Sunny(mode, data), n) && Sunny(mode, data).pool == data
  {
  }

  lemma StartSmooth()
    ensures Smooth({}, {}, FRESH_FRAME, NOTHING_YET)
  {
    assert MoodOf(NOTHING_YET) == Calm;
    NoVars();
  }

  /** The steps before the first poll step, which the engine refuses and ends the run at. */
  function UpToPoll(steps: seq<Step>): seq<Step> {
    if steps == [] || steps[0].kind.Poll? then [] else [steps[0]] + UpToPoll(steps[1..])
  }

  /** What a run looks up, it looks up before the first poll step. */
  lemma {:induction false} PollEndsRun(cx: Context, steps: seq<Step>, path: seq<string>, fr: Frame, sh: Shared,
          out: Outcome)
    ensures MoodOf(RunSteps(cx, steps, path, fr, sh, out).sh) ==
            MoodOf(RunSteps(cx, UpToPoll(steps), path, fr, sh, out).sh)
    decreases steps
  {
    hide Read, RunRequest, RunSocket, RunUse, Worst;
    if steps != [] {
      var s := RunStep(cx, steps[0], path, fr, sh);
      if steps[0].kind.Poll? {
        ReadNote(sh, Started(path + [steps[0].id]));
      } else {
        assert UpToPoll(steps)[1..] == UpToPoll(steps[1..]);
        if !s.err && s.cont {
          PollEndsRun(cx, steps[1..], path, s.fr, s.sh, if s.out.Some? then Worst(out, s.out.value) else out);
        }
      }
    }
  }

  lemma {:induction false} UpToPollOk(k: Known, steps: seq<Step>)
    requires StepsOk(k, steps)
    ensures StepsOk(k, UpToPoll(steps))
    decreases steps
  {
    hide StepOk, After;
    if steps != [] && !steps[0].kind.Poll? {
      UpToPollOk(After(k, steps[0]), steps[1..]);
      assert UpToPoll(steps)[1..] == UpToPoll(steps[1..]);
    }
  }

  lemma SunnyIsCaught(f: Flow, pools: set<string>, mode: Mode)
    requires FlowOk(f, pools, false) && AllRunnable(UpToPoll(f.steps)) && !StepsBound({}, f.data, UpToPoll(f.steps))
    ensures MoodOf(RunFlow(Sunny(mode, f.data), f).sh) == Caught
  {
    hide Read, StepsBound, StepsOk, AllRunnable, RunSteps, Smooth, Happy, OutputsOk, IsIdent, InputsOk, Sunny, MoodOf,
      CostAll, UpToPoll;
    var cx, steps := Sunny(mode, f.data), UpToPoll(f.steps);
    SunnyIsHappy(mode, f.data, CostAll(steps));
    StartSmooth();
    UpToPollOk(Start(f), f.steps);
    StepsWell(cx, steps, [], FRESH_FRAME, NOTHING_YET, Ok, {}, Start(f));
    PollEndsRun(cx, f.steps, [], FRESH_FRAME, NOTHING_YET, Ok);
    SameNotes(RunSteps(cx, f.steps, [], FRESH_FRAME, NOTHING_YET, Ok).sh, RunFlow(cx, f).sh);
  }

  lemma ReachedNeverCaught(cx: Context, f: Flow)
    requires cx.pool == f.data && StepsBound({}, f.data, UpToPoll(f.steps))
    ensures MoodOf(RunFlow(cx, f).sh) != Caught
  {
    assert MoodOf(NOTHING_YET) == Calm;
    hide Read, RunSteps, StepsBound, UpToPoll;
    StepsThrough({}, cx, UpToPoll(f.steps), [], FRESH_FRAME, NOTHING_YET, Ok);
    PollEndsRun(cx, f.steps, [], FRESH_FRAME, NOTHING_YET, Ok);
    SameNotes(RunSteps(cx, f.steps, [], FRESH_FRAME, NOTHING_YET, Ok).sh, RunFlow(cx, f).sh);
  }

  /** For an accepted flow that the engine executes up to a first poll step, if there is one: no run,
      whatever the environment answers, meets a reference without a value before some flow has gone on
      without one it was due, if and only if the whole of every reference up to there names the environment,
      the data row, or something an earlier step binds. */
  lemma CaughtExactly(f: Flow, pools: set<string>)
    requires FlowOk(f, pools, false) && AllRunnable(UpToPoll(f.steps))
    ensures StepsBound({}, f.data, UpToPoll(f.steps)) <==>
              forall cx: Context :: cx.pool == f.data ==> MoodOf(RunFlow(cx, f).sh) != Caught
  {
    hide Read, StepsBound, StepsOk, AllRunnable, RunFlow, MoodOf, OutputsOk, IsIdent, InputsOk, UpToPoll;
    if StepsBound({}, f.data, UpToPoll(f.steps)) {
      forall cx: Context | cx.pool == f.data
        ensures MoodOf(RunFlow(cx, f).sh) != Caught
      {
        ReachedNeverCaught(cx, f);
      }
    } else {
      SunnyIsCaught(f, pools, Load);
    }
  }

  // ---------------------------------------------------------------- the three gaps

  function Call(id: string, refs: Templated, extract: seq<string>): Step {
    Step(id, Request([refs], []), extract, [], None, false, None)
  }

  /** An extracted variable taken apart with a dot. */
  const DOTTED := Flow("f", "", [], [], [Call("a", [], ["t"]), Call("b", [Ref("t.x", false)], [])])

  /** A variable only a waiting step extracts. */
  const WAITING := Flow("f", "", [], [],
    [Step("a", Wait, ["t"], [], None, false, None), Call("b", [Ref("t", false)], [])])

  /** A flow with inputs run on its own. */
  const ALONE := Flow("f", "", [Input("x", Some([]))], [], [Call("b", [Ref("inputs.x", false)], [])])

  /** Each of the three is accepted, and caught in a run where everything goes well. */
  lemma AcceptedYetCaught(mode: Mode)
    ensures FlowOk(DOTTED, {}, false) && MoodOf(RunFlow(Sunny(mode, ""), DOTTED).sh) == Caught
    ensures FlowOk(WAITING, {}, false) && MoodOf(RunFlow(Sunny(mode, ""), WAITING).sh) == Caught
    ensures FlowOk(ALONE, {}, false) && MoodOf(RunFlow(Sunny(mode, ""), ALONE).sh) == Caught
  {
    hide FlowOk, StepsBound, AllRunnable, RunFlow, MoodOf, UpToPoll, Sunny;
    GapDotted();
    GapWaiting();
    GapAlone();
    SunnyIsCaught(DOTTED, {}, mode);
    SunnyIsCaught(WAITING, {}, mode);
    SunnyIsCaught(ALONE, {}, mode);
  }

  lemma {:induction false} NoPolls(steps: seq<Step>)
    requires forall i :: 0 <= i < |steps| ==> !steps[i].kind.Poll?
    ensures UpToPoll(steps) == steps
    decreases steps
  {
    if steps != [] {
      NoPolls(steps[1..]);
    }
  }

  lemma Cuts()
    ensures Root("t") == "t" && Rest("t") == "" && Root("env") == "env"
    ensures Root("t.x") == "t" && Rest("t.x") == "x"
    ensures Root("inputs.x") == "inputs" && Rest("inputs.x") == "x"
  {
    CutJoin("t", "x");
    assert "t" + "." + "x" == "t.x";
    CutJoin("inputs", "x");
    assert "inputs" + "." + "x" == "inputs.x";
    CutIsWhole("t");
    CutIsWhole("env");
  }

  /** A step of these flows is accepted after an optional one before it. */
  lemma CallOk(k: Known, id: string, refs: Templated, extract: seq<string>)
    requires id !in k.ids && IsIdent(id)
    requires forall i :: 0 <= i < |extract| ==> IsIdent(extract[i]) && extract[i] !in k.fields
    requires forall ref :: ref in RefsIn(refs) ==> RefOk(k, ref)
    ensures StepOk(k, Call(id, refs, extract))
  {
    var st := Call(id, refs, extract);
    assert Fields(st) == [refs] + [] && [refs] + [] == [refs];
    assert RefsOf([refs]) == RefsIn(refs) + RefsOf([]);
    hide IsIdent, RefOk, RefsIn;
  }

  lemma RefsOfCall(id: string, refs: Templated, extract: seq<string>)
    ensures RefsOf(Fields(Call(id, refs, extract))) == RefsIn(refs)
  {
    assert Fields(Call(id, refs, extract)) == [refs] + [] && [refs] + [] == [refs];
    assert RefsOf([refs]) == RefsIn(refs) + RefsOf([]);
    hide RefsIn;
  }

  lemma OneRef(name: string)
    ensures RefsIn([Ref(name, false)]) == [name]
    ensures RefsIn([]) == []
  {
    assert [Ref(name, false)][1..] == [];
  }

  lemma UnboundCall(b: set<string>, data: string, id: string, name: string)
    requires !RefBound(b, data, name)
    ensures !StepBound(b, data, Call(id, [Ref(name, false)], []))
  {
    RefsOfCall(id, [Ref(name, false)], []);
    OneRef(name);
    hide RefsOf, RefsIn, Fields, RefBound;
    assert name in [name];
  }

  lemma RunnableCall(id: string, refs: Templated, extract: seq<string>)
    requires "env" !in RefsIn(refs)
    ensures Runnable(Call(id, refs, extract))
  {
    RefsOfCall(id, refs, extract);
    hide RefsOf, RefsIn, Fields;
  }

  lemma OneStep(k: Known, b: set<string>, t: Step)
    ensures StepsOk(k, [t]) <==> StepOk(k, t)
    ensures AllRunnable([t]) <==> Runnable(t)
    ensures StepsBound(b, "", [t]) <==> StepBound(b, "", t)
    ensures AfterAll(k, [t]) == After(k, t)
  {
    hide StepOk, After, Runnable, StepBound, Binds;
    assert [t][1..] == [];
  }

  lemma TwoSteps(k: Known, b: set<string>, s: Step, t: Step)
    ensures StepsOk(k, [s, t]) <==> StepOk(k, s) && StepOk(After(k, s), t)
    ensures AllRunnable([s, t]) <==> Runnable(s) && Runnable(t)
    ensures StepsBound(b, "", [s, t]) <==> StepBound(b, "", s) && StepBound(b + Binds(s), "", t)
  {
    OneStep(After(k, s), b + Binds(s), t);
    hide StepOk, After, Runnable, StepBound, Binds;
    assert [s, t][1..] == [t];
  }

  lemma FlowParts(f: Flow)
    requires IsIdent(f.name) && f.data == "" && f.outputs == [] && InputsOk(f.inputs) && f.steps != [] &&
             StepsOk(Start(f), f.steps)
    ensures FlowOk(f, {}, false)
  {
    hide IsIdent, InputsOk, StepsOk;
  }

  lemma GapDotted()
    ensures FlowOk(DOTTED, {}, false) && DOTTED.data == "" && UpToPoll(DOTTED.steps) == DOTTED.steps
    ensures AllRunnable(DOTTED.steps) && !StepsBound({}, "", DOTTED.steps)
  {
    Cuts();
    OneRef("t.x");
    var k := Start(DOTTED);
    var s, t := Call("a", [], ["t"]), Call("b", [Ref("t.x", false)], []);
    hide Root, Rest, RefsOf, RefsIn, Fields, StepsOk, AllRunnable, StepsBound, StepOk, StepBound, Runnable, FlowOk;
    TwoSteps(k, {}, s, t);
    CallOk(k, "a", [], ["t"]);
    CallOk(After(k, s), "b", [Ref("t.x", false)], []);
    RunnableCall("a", [], ["t"]);
    RunnableCall("b", [Ref("t.x", false)], []);
    assert "t.x" != "t";
    UnboundCall({} + Binds(s), "", "b", "t.x");
    FlowParts(DOTTED);
    NoPolls(DOTTED.steps);
  }

  lemma WaitOk(k: Known)
    requires "a" !in k.ids && "t" !in k.fields
    ensures var s := Step("a", Wait, ["t"], [], None, false, None); StepOk(k, s) && Runnable(s)
  {
    assert RefsOf([]) == [];
    hide RefsOf, RefsIn, RefOk;
  }

  lemma GapWaiting()
    ensures FlowOk(WAITING, {}, false) && WAITING.data == "" && UpToPoll(WAITING.steps) == WAITING.steps
    ensures AllRunnable(WAITING.steps) && !StepsBound({}, "", WAITING.steps)
  {
    Cuts();
    OneRef("t");
    var k := Start(WAITING);
    var s, t := Step("a", Wait, ["t"], [], None, false, None), Call("b", [Ref("t", false)], []);
    hide Root, Rest, RefsOf, RefsIn, Fields, StepsOk, AllRunnable, StepsBound, StepOk, StepBound, Runnable, FlowOk;
    TwoSteps(k, {}, s, t);
    WaitOk(k);
    CallOk(After(k, s), "b", [Ref("t", false)], []);
    RunnableCall("b", [Ref("t", false)], []);
    UnboundCall({} + Binds(s), "", "b", "t");
    FlowParts(WAITING);
    NoPolls(WAITING.steps);
  }

  lemma AloneKnown()
    ensures InputsOk(ALONE.inputs) && "x" in InputNames(ALONE.inputs)
  {
    assert ALONE.inputs[0].name == "x";
    assert RefsIn([]) == [];
    hide RefsIn, Root;
  }

  lemma GapAlone()
    ensures FlowOk(ALONE, {}, false) && ALONE.data == "" && UpToPoll(ALONE.steps) == ALONE.steps
    ensures AllRunnable(ALONE.steps) && !StepsBound({}, "", ALONE.steps)
  {
    Cuts();
    OneRef("inputs.x");
    var k := Start(ALONE);
    var t := Call("b", [Ref("inputs.x", false)], []);
    AloneKnown();
    hide Root, Rest, RefsOf, RefsIn, Fields, StepsOk, AllRunnable, StepsBound, StepOk, StepBound, Runnable,
      FlowOk, InputNames, InputsOk;
    OneStep(k, {}, t);
    CallOk(k, "b", [Ref("inputs.x", false)], []);
    RunnableCall("b", [Ref("inputs.x", false)], []);
    UnboundCall({}, "", "b", "inputs.x");
    FlowParts(ALONE);
    NoPolls(ALONE.steps);
  }
}

/** What a use step shows its caller (internal/executor/iteration.go:122-185): only the declared
    outputs, under its own name, and an outcome that stands for what happened inside. */
module UseSteps {
  import opened FlowIr
  import opened Options
  import opened Interp

  /** The flow a use step runs, as far as it got: how its steps ended, with its sessions closed. */
  function Inside(cx: Context, st: Step, path: seq<string>, fr: Frame, sh: Shared): Option<Result>
    requires st.kind.Use?
  {
    if st.kind.flow.None? then None else
      var f := st.kind.flow.value;
      var (vars, sh1, bound) := BindInputs(cx, fr.vars, st.kind.with, f.inputs, map[], sh);
      if !bound then None
      else Some(RunSteps(ChildContext(cx), f.steps, path + [st.id], FRESH_FRAME.(vars := vars), sh1, Ok))
  }

  lemma {:induction false} OutputsOnly(id: string, outs: seq<string>, child: map<string, Value>,
          vars: map<string, Value>, x: string)
    requires forall o :: o in outs ==> x != id + "." + o
    ensures var r := GiveOutputs(id, outs, child, vars);
            (x in r <==> x in vars) && (x in vars ==> r[x] == vars[x])
    decreases outs
  {
    if outs != [] {
      assert outs[0] in outs;
      OutputsOnly(id, outs[1..], child,
                  if outs[0] in child then vars[id + "." + outs[0] := child[outs[0]]] else vars, x);
    }
  }

  lemma {:induction false} OutputsArrive(id: string, outs: seq<string>, child: map<string, Value>,
          vars: map<string, Value>, o: string)
    requires o in outs && o in child
    ensures var r := GiveOutputs(id, outs, child, vars); id + "." + o in r && r[id + "." + o] == child[o]
    decreases outs
  {
    var vars1 := if outs[0] in child then vars[id + "." + outs[0] := child[outs[0]]] else vars;
    if o in outs[1..] {
      OutputsArrive(id, outs[1..], child, vars1, o);
    } else {
      SameName(id, outs[1..], o);
      OutputsOnly(id, outs[1..], child, vars1, id + "." + o);
    }
  }

  lemma SameName(id: string, outs: seq<string>, o: string)
    requires o !in outs
    ensures forall p :: p in outs ==> id + "." + o != id + "." + p
  {
    forall p | p in outs
      ensures id + "." + o != id + "." + p
    {
      assert (id + "." + o)[|id| + 1..] == o;
      assert (id + "." + p)[|id| + 1..] == p;
    }
  }

  /** A use step leaves every other variable of its caller alone, and its caller's sessions; each
      declared output that has a value inside arrives with it, unless the flow stopped on an error. */
  lemma UseIsolates(cx: Context, st: Step, path: seq<string>, fr: Frame, sh: Shared, x: string)
    requires st.kind.Use?
    ensures var r := RunUse(cx, st, path, fr, sh);
            && r.fr.ws == fr.ws
            && (st.kind.flow.None? || (forall o :: o in st.kind.flow.value.outputs ==> x != st.id + "." + o) ==>
                  (x in r.fr.vars <==> x in fr.vars) && (x in fr.vars ==> r.fr.vars[x] == fr.vars[x]))
  {
    hide BindInputs, RunSteps, LeaveUse;
    if st.kind.flow.Some? {
      var f := st.kind.flow.value;
      var (vars, sh1, bound) := BindInputs(cx, fr.vars, st.kind.with, f.inputs, map[], sh);
      if bound {
        LeaveIsolates(cx, st, f, fr,
                      RunSteps(ChildContext(cx), f.steps, path + [st.id], FRESH_FRAME.(vars := vars), sh1, Ok), x);
      }
    }
  }

  lemma LeaveIsolates(cx: Context, st: Step, f: Flow, fr: Frame, sub: Result, x: string)
    requires sub.out.Some?
    ensures var r := LeaveUse(cx, st, f, fr, sub);
            && r.fr.ws == fr.ws
            && ((forall o :: o in f.outputs ==> x != st.id + "." + o) ==>
                  (x in r.fr.vars <==> x in fr.vars) && (x in fr.vars ==> r.fr.vars[x] == fr.vars[x]))
  {
    hide Prefixed, Binds, GiveOutputs, EffectiveAction;
    if forall o :: o in f.outputs ==> x != st.id + "." + o {
      OutputsOnly(st.id, f.outputs, sub.fr.vars, fr.vars, x);
    }
  }

  lemma UseDelivers(cx: Context, st: Step, path: seq<string>, fr: Frame, sh: Shared, o: string)
    requires st.kind.Use? && Inside(cx, st, path, fr, sh).Some? && !Inside(cx, st, path, fr, sh).value.err
    requires o in st.kind.flow.value.outputs && o in Inside(cx, st, path, fr, sh).value.fr.vars
    ensures var r := RunUse(cx, st, path, fr, sh);
            st.id + "." + o in r.fr.vars && r.fr.vars[st.id + "." + o] == Inside(cx, st, path, fr, sh).value.fr.vars[o]
  {
    hide BindInputs, RunSteps, Prefixed;
    var f := st.kind.flow.value;
    OutputsArrive(st.id, f.outputs, Inside(cx, st, path, fr, sh).value.fr.vars, fr.vars, o);
  }

  // ---------------------------------------------------------------- when the outcome hides a failure

  const THROTTLING := Answer(false, true, false, "429", None)

  /** Everything is allowed, and every call is throttled: even ticks ask the allow-list. */
  function Busy(mode: Mode): Context {
    Context(mode, _ => None, "", _ => None,
            t => if t % 2 == 0 then Answer(true, false, false, "ok", None) else THROTTLING)
  }

  const PING := Step("ping", Request([], []), [], [], None, false, Some(AbortRun))

  const USES_PING :=
    Step("login", Use("login.flow.yaml", map[], Some(Flow("login", "", [], [], [PING]))), [], [], None, false, None)

  /** A throttle that counts as a failure and aborts the run leaves the use step throttled, not failed:
      the failure is recorded, but the outcome was settled before it was looked at. */
  lemma AbortedThrottleIsNotFailed()
    ensures var r := RunUse(Busy(Integration), USES_PING, [], FRESH_FRAME, NOTHING_YET);
            r.fr.failures == [Failure("login/ping", "429")] && r.fr.aborted && r.out == Some(Throttled)
  {
    var cx := ChildContext(Busy(Integration));
    var sh1 := Note(NOTHING_YET, Started(["login", "ping"]));
    var sh3 := sh1.(tick := 2);
    assert [] + ["login"] + ["ping"] == ["login", "ping"] && [] + ["login"] == ["login"];
    assert ExpandAll(cx, map[], sh1, []) == (sh1, true) &&
           ExpandAll(cx, map[], sh1.(tick := 1), []) == (sh1.(tick := 1), true);
    assert cx.world(0).ok && cx.world(1) == THROTTLING;
    var s := RunStep(cx, PING, ["login"], FRESH_FRAME, NOTHING_YET);
    assert s == Trouble(cx, PING, ["login"], FRESH_FRAME, sh3, THROTTLING);
    assert s.fr.failures == [] + [Failure("ping", "429")] == [Failure("ping", "429")] && s.fr.aborted && !s.cont &&
           s.out == Some(Throttled);
    assert RunSteps(cx, [PING], ["login"], FRESH_FRAME, NOTHING_YET, Ok) ==
           Result(s.fr, s.sh, Some(Throttled), false, false);
    assert FRESH_FRAME.(vars := map[]) == FRESH_FRAME;
    assert Prefixed("login", [Failure("ping", "429")]) ==
           [Failure("login" + "/" + "ping", "429")] + Prefixed("login", []);
    assert [Failure("ping", "429")][1..] == [] && "login" + "/" + "ping" == "login/ping";
    var path: seq<string> := [];
    assert path + [USES_PING.id] == ["login"];
    var inside := Inside(Busy(Integration), USES_PING, path, FRESH_FRAME, NOTHING_YET);
    assert inside == Some(Result(s.fr, s.sh, Some(Throttled), false, false));
    var r := RunUse(Busy(Integration), USES_PING, path, FRESH_FRAME, NOTHING_YET);
    assert r.fr.failures == [] + Prefixed("login", [Failure("ping", "429")]);
  }
}

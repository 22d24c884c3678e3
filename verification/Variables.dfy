/** Which references an accepted flow may find without a value (internal/ir/validate.go:118-271 against
    internal/executor/scope.go:70-96). */
module Variables {
  import opened Sequences
  import opened FlowIr
  import opened Options
  import opened Interp
  import opened Validator
  import opened Conduct

  // ---------------------------------------------------------------- references that are bound

  /** The whole reference names something: an environment variable, a field of the row, or a variable
      bound by then. */
  predicate RefBound(b: set<string>, data: string, ref: string) {
    Root(ref) == "env" || (data != "" && Root(ref) == data) || ref in b
  }

  /** Every reference of a step, and of the flow it uses, is bound when it is looked up. */
  ghost predicate StepBound(b: set<string>, data: string, st: Step)
    decreases st, 0
  {
    && (forall ref :: ref in RefsOf(Fields(st)) ==> RefBound(b, data, ref))
    && (st.kind.Use? ==>
          && (forall n, ref :: n in st.kind.with && ref in RefsIn(st.kind.with[n]) ==> RefBound(b, data, ref))
          && (st.kind.flow.Some? ==>
                && (forall i :: i in st.kind.flow.value.inputs ==> DefaultOk(i))
                && StepsBound(InputVars(st.kind.flow.value.inputs), "", st.kind.flow.value.steps)))
  }

  ghost predicate StepsBound(b: set<string>, data: string, steps: seq<Step>)
    decreases steps, 1
  {
    steps == [] || (StepBound(b, data, steps[0]) && StepsBound(b + Binds(steps[0]), data, steps[1..]))
  }

  // ---------------------------------------------------------------- nothing is missed unless something is left behind

  function MoodOf(sh: Shared): Mood {
    Read(sh.log).mood
  }

  /** No failure and no throttle was noted so far, at any depth. */
  ghost predicate Clean(sh: Shared) {
    Read(sh.log).failures == [] && Read(sh.log).throttles == 0
  }

  /** No reference was caught, and no flow goes on without something it was due unless a failure or a
      throttle let it. */
  ghost predicate Grounded(sh: Shared) {
    MoodOf(sh) != Caught && (MoodOf(sh) == Lacking ==> !Clean(sh))
  }

  /** Between steps: while no flow has gone on without something it was due, everything due is bound. */
  ghost predicate Ready(b: set<string>, fr: Frame, sh: Shared) {
    Grounded(sh) && (MoodOf(sh) == Calm ==> b <= fr.vars.Keys)
  }

  /** After a step that goes on: as before. A run without a failure or a throttle goes on. */
  ghost predicate Through(b: set<string>, r: Result) {
    && Grounded(r.sh)
    && (MoodOf(r.sh) == Calm && r.cont && !r.err ==> b <= r.fr.vars.Keys)
    && (Clean(r.sh) && !r.err ==> r.cont)
  }

  /** What recording a failure or a throttle, or reading an answer, comes to. Calm ends only when the step
      is passed with a variable it was to bind still missing. */
  ghost predicate Answered(st: Step, fr: Frame, sh: Shared, r: Result) {
    && Grounded(r.sh) && !r.err && r.out.Some? && fr.vars.Keys <= r.fr.vars.Keys
    && (MoodOf(r.sh) == Calm ==> MoodOf(sh) == Calm && (r.cont ==> Binds(st) <= r.fr.vars.Keys))
    && (Clean(r.sh) ==> r.cont)
    && (Binds(st) <= r.fr.vars.Keys ==> MoodOf(r.sh) == MoodOf(sh))
  }

  lemma AnsweredThrough(b: set<string>, st: Step, fr: Frame, sh: Shared, r: Result)
    requires Ready(b, fr, sh) && Answered(st, fr, sh, r)
    ensures Through(b + Binds(st), r)
  {
    hide Read, Binds;
  }

  /** The same from a level whose sessions alone were touched. */
  lemma AnsweredFrom(st: Step, fr: Frame, sh: Shared, fr1: Frame, sh1: Shared, r: Result)
    requires Answered(st, fr1, sh1, r) && fr1.vars == fr.vars && MoodOf(sh1) == MoodOf(sh)
    ensures Answered(st, fr, sh, r)
  {
    hide Read, Binds;
  }

  lemma QuietGrounded(sh: Shared, sh': Shared)
    requires Quiet(sh, sh') && MoodOf(sh') == MoodOf(sh)
    ensures Grounded(sh') == Grounded(sh) && Clean(sh') == Clean(sh)
  {
    hide Read;
  }

  lemma OnwardGrounded(st: Step, fr: Frame, sh: Shared)
    requires Grounded(sh) && (Clean(sh) ==> Binds(st) <= fr.vars.Keys)
    ensures var sh' := Onward(st, fr, sh);
            && Grounded(sh') && Clean(sh') == Clean(sh)
            && (MoodOf(sh') == Calm ==> MoodOf(sh) == Calm && Binds(st) <= fr.vars.Keys)
            && (Binds(st) <= fr.vars.Keys ==> sh' == sh)
  {
    ReadNote(sh, WentWithout(st.id));
    hide Read, Binds;
  }

  lemma {:induction false} ExpandBound(cx: Context, vars: map<string, Value>, sh: Shared, t: Templated)
    requires MoodOf(sh) == Calm ==> forall ref :: ref in RefsIn(t) ==> RefBound(vars.Keys, cx.pool, ref)
    ensures MoodOf(Expand(cx, vars, sh, t).0) == MoodOf(sh)
    decreases t
  {
    hide Read, Root, Rest;
    if t != [] {
      match t[0] {
        case Text(_) => ExpandBound(cx, vars, sh, t[1..]);
        case Ref(name, _) =>
          assert RefsIn(t)[0] == name && name in RefsIn(t);
          assert MoodOf(sh) == Calm ==> RefBound(vars.Keys, cx.pool, name);
          var sh1 := if ScopeValue(cx, vars, name).NoValueYet? then Note(sh, NoValue(name)) else sh;
          ReadNote(sh, NoValue(name));
          ExpandBound(cx, vars, sh1, t[1..]);
      }
    }
  }

  lemma {:induction false} ExpandAllBound(cx: Context, vars: map<string, Value>, sh: Shared, ts: seq<Templated>)
    requires MoodOf(sh) == Calm ==> forall ref :: ref in RefsOf(ts) ==> RefBound(vars.Keys, cx.pool, ref)
    ensures var sh' := ExpandAll(cx, vars, sh, ts).0;
            MoodOf(sh') == MoodOf(sh) && Grounded(sh') == Grounded(sh) && Clean(sh') == Clean(sh)
    decreases ts
  {
    hide Read, RefBound, RefsIn, Expand;
    if ts != [] {
      ExpandBound(cx, vars, sh, ts[0]);
      ExpandQuiet(cx, vars, sh, ts[0]);
      QuietGrounded(sh, Expand(cx, vars, sh, ts[0]).0);
      ExpandAllBound(cx, vars, Expand(cx, vars, sh, ts[0]).0, ts[1..]);
    }
  }

  lemma FailAnswered(cx: Context, st: Step, path: seq<string>, fr: Frame, sh: Shared, detail: string, out: Outcome)
    requires MoodOf(sh) != Caught
    ensures Answered(st, fr, sh, Fail(cx, st, path, fr, sh, detail, out))
  {
    var sh1 := Note(sh, Recorded(path + [st.id], detail));
    ReadNote(sh, Recorded(path + [st.id], detail));
    ReadNote(sh1, AskedAbort);
    hide Read, EffectiveAction, Binds, Onward;
    assert !Clean(sh1) && MoodOf(sh1) == MoodOf(sh) && Grounded(sh1);
    OnwardGrounded(st, fr, sh1);
  }

  lemma TroubleAnswered(cx: Context, st: Step, path: seq<string>, fr: Frame, sh: Shared, a: Answer)
    requires MoodOf(sh) != Caught
    ensures Answered(st, fr, sh, Trouble(cx, st, path, fr, sh, a))
    ensures Answered(st, fr, sh, Fail(cx, st, path, fr, sh, a.detail, Failed))
  {
    var fr1, sh1 := fr.(throttled := true), Note(sh, SawThrottle);
    ReadNote(sh, SawThrottle);
    hide Read, Binds, Onward, Fail, ThrottleIsError, Answered;
    FailAnswered(cx, st, path, fr, sh, a.detail, Failed);
    FailAnswered(cx, st, path, fr1, sh1, a.detail, Throttled);
    AnsweredFrom(st, fr, sh, fr1, sh1, Fail(cx, st, path, fr1, sh1, a.detail, Throttled));
    ThrottlePassed(st, fr, sh);
  }

  /** A throttle that is no failure, passed. */
  lemma ThrottlePassed(st: Step, fr: Frame, sh: Shared)
    requires MoodOf(sh) != Caught
    ensures var fr1 := fr.(throttled := true);
            Answered(st, fr, sh, Result(fr1, Onward(st, fr, Note(sh, SawThrottle)), Some(Throttled), true, false))
  {
    var sh1 := Note(sh, SawThrottle);
    ReadNote(sh, SawThrottle);
    hide Read, Binds, Onward;
    assert !Clean(sh1) && Grounded(sh1);
    OnwardGrounded(st, fr, sh1);
  }

  /** With everything due bound, assertions never end the calm, however they fail. */
  lemma {:induction false} AssertThrough(cx: Context, st: Step, path: seq<string>, left: nat, fr: Frame, sh: Shared,
          out: Outcome)
    requires Grounded(sh) && Binds(st) <= fr.vars.Keys
    ensures var r := Assert(cx, st, path, left, fr, sh, out);
            Answered(st, fr, sh, r) && r.fr.vars == fr.vars && MoodOf(r.sh) == MoodOf(sh)
    decreases left
  {
    if left > 0 {
      var (a, sh1) := Ask(cx, sh);
      assert MoodOf(sh1) == MoodOf(sh) && Grounded(sh1);
      hide Read, Fail, Binds;
      if a.ok {
        AssertThrough(cx, st, path, left - 1, fr, sh1, out);
      } else {
        FailAnswered(cx, st, path, fr, sh1, a.detail, Failed);
        FailKeepsVars(cx, st, path, fr, sh1, a.detail);
        var r := Fail(cx, st, path, fr, sh1, a.detail, Failed);
        if !a.fatal && r.cont {
          AssertThrough(cx, st, path, left - 1, r.fr, r.sh, Failed);
        }
      }
    }
  }

  lemma FailKeepsVars(cx: Context, st: Step, path: seq<string>, fr: Frame, sh: Shared, detail: string)
    ensures Fail(cx, st, path, fr, sh, detail, Failed).fr.vars == fr.vars
  {
  }

  /** Calm ends here only when an extraction finds nothing, the step is passed all the same, and what is
      missing was not bound before. */
  lemma {:induction false} ExtractThrough(cx: Context, st: Step, path: seq<string>, names: seq<string>, fr: Frame,
          sh: Shared)
    requires Grounded(sh) && Binds(st) <= fr.vars.Keys + set x | x in names
    ensures Answered(st, fr, sh, Extract(cx, st, path, names, fr, sh))
    decreases names
  {
    hide Assert, Fail, Binds;
    if names == [] {
      AssertThrough(cx, st, path, |st.assert_|, fr, sh, Ok);
    } else {
      var (a, sh1) := Ask(cx, sh);
      assert MoodOf(sh1) == MoodOf(sh) && Grounded(sh1);
      FailAnswered(cx, st, path, fr, sh1, a.detail, Failed);
      hide Read;
      if a.value.Some? {
        ExtractThrough(cx, st, path, names[1..], fr.(vars := fr.vars[names[0] := a.value.value]), sh1);
      }
    }
  }

  lemma RequestThrough(b: set<string>, cx: Context, st: Step, path: seq<string>, fr: Frame, sh: Shared)
    requires st.kind.Request? && StepBound(b, cx.pool, st) && Ready(b, fr, sh)
    ensures Through(b + Binds(st), RunRequest(cx, st, path, fr, sh))
  {
    var k := st.kind;
    RefsConcat(k.fields, k.auth);
    assert Binds(st) <= fr.vars.Keys + set x | x in st.extract;
    hide RefBound, Read, RefsOf, Trouble, Fail, Extract, ExpandAll, Binds, Answered;
    BoundMore(b, fr.vars.Keys, cx.pool, RefsOf(Fields(st)));
    var (sh1, built) := ExpandAll(cx, fr.vars, sh, k.fields);
    ExpandAllBound(cx, fr.vars, sh, k.fields);
    var (p, sh2) := Ask(cx, sh1);
    SameNotes(sh1, sh2);
    var (sh3, signed) := ExpandAll(cx, fr.vars, sh2, k.auth);
    ExpandAllBound(cx, fr.vars, sh2, k.auth);
    var (a, sh4) := Ask(cx, sh3);
    SameNotes(sh3, sh4);
    if !built || p.fatal {
    } else if !p.ok {
      FailAnswered(cx, st, path, fr, sh2, p.detail, Failed);
      AnsweredThrough(b, st, fr, sh2, Fail(cx, st, path, fr, sh2, p.detail, Failed));
    } else {
      TroubleAnswered(cx, st, path, fr, sh4, a);
      ExtractThrough(cx, st, path, st.extract, fr, sh4);
      AnsweredThrough(b, st, fr, sh4, RunRequest(cx, st, path, fr, sh));
    }
  }

  lemma SameNotes(sh: Shared, sh': Shared)
    requires sh'.log == sh.log
    ensures MoodOf(sh') == MoodOf(sh) && Grounded(sh') == Grounded(sh) && Clean(sh') == Clean(sh)
  {
  }

  lemma {:induction false} RefsConcat(x: seq<Templated>, y: seq<Templated>)
    ensures RefsOf(x + y) == RefsOf(x) + RefsOf(y)
  {
    hide RefsIn;
    if x == [] {
      assert x + y == y;
    } else {
      RefsConcat(x[1..], y);
      assert (x + y)[1..] == x[1..] + y && (x + y)[0] == x[0];
      Assoc(RefsIn(x[0]), RefsOf(x[1..]), RefsOf(y));
    }
  }

  lemma BoundMore(b: set<string>, c: set<string>, data: string, refs: seq<string>)
    ensures b <= c && (forall ref :: ref in refs ==> RefBound(b, data, ref)) ==>
            forall ref :: ref in refs ==> RefBound(c, data, ref)
  {
    hide Root;
  }

  // ---------------------------------------------------------------- sockets

  lemma SocketRefs(st: Step)
    requires st.kind.Socket?
    ensures forall ref :: ref in RefsOf(Fields(st)) <==>
              || ref in RefsOf(st.kind.open) || ref in RefsOf(st.kind.auth)
              || (st.kind.send.Some? && ref in RefsIn(st.kind.send.value))
  {
    var k := st.kind;
    var send := if k.send.Some? then [k.send.value] else [];
    RefsConcat(k.open, send);
    RefsConcat(k.open + send, k.auth);
    assert RefsOf(send) == if k.send.Some? then RefsIn(k.send.value) + RefsOf([]) else [];
    hide RefsIn;
  }

  lemma OpenThrough(cx: Context, st: Step, path: seq<string>, fr: Frame, sh: Shared)
    requires st.kind.Socket? && Grounded(sh)
    requires MoodOf(sh) == Calm ==>
               forall ref :: ref in RefsOf(st.kind.open) + RefsOf(st.kind.auth) ==> RefBound(fr.vars.Keys, cx.pool, ref)
    ensures var r := OpenSocket(cx, st, path, fr, sh);
            && Grounded(r.sh)
            && (r.out.None? ==> r.fr.vars == fr.vars && !r.err && MoodOf(r.sh) == MoodOf(sh))
            && (r.out.Some? && !r.err ==> Answered(st, fr, sh, r))
  {
    hide RefBound, Read, RefsOf, Trouble, Fail, ExpandAll, Binds, Answered;
    var name := st.kind.session;
    var (sh1, built) := ExpandAll(cx, fr.vars, sh, st.kind.open);
    ExpandAllBound(cx, fr.vars, sh, st.kind.open);
    var (p, sh2) := Ask(cx, sh1);
    SameNotes(sh1, sh2);
    var (sh3, signed) := ExpandAll(cx, fr.vars, sh2, st.kind.auth);
    ExpandAllBound(cx, fr.vars, sh2, st.kind.auth);
    var (a, sh4) := Ask(cx, sh3);
    SameNotes(sh3, sh4);
    var r := OpenSocket(cx, st, path, fr, sh);
    if !built {
    } else if !p.ok {
      var refused := MarkSession(fr, name, Session(None, p.detail));
      TroubleAnswered(cx, st, path, refused, sh2, p);
      AnsweredFrom(st, fr, sh, refused, sh2, r);
      AnsweredGrounded(st, fr, sh, r);
    } else if signed && !a.ok {
      var lost := MarkSession(fr, name, Session(None, a.detail));
      TroubleAnswered(cx, st, path, lost, sh4, a);
      AnsweredFrom(st, fr, sh, lost, sh4, r);
      AnsweredGrounded(st, fr, sh, r);
    } else if signed {
      SameNotes(sh4, r.sh);
    }
  }

  lemma AnsweredGrounded(st: Step, fr: Frame, sh: Shared, r: Result)
    requires Answered(st, fr, sh, r)
    ensures Grounded(r.sh) && r.out.Some? && !r.err
  {
  }

  lemma TroubleIsSeen(cx: Context, st: Step, path: seq<string>, fr: Frame, sh: Shared, a: Answer)
    ensures Fail(cx, st, path, fr, sh, a.detail, Failed).out.Some?
    ensures Trouble(cx, st, path, fr, sh, a).out.Some?
  {
  }

  lemma WorkThrough(b: set<string>, cx: Context, st: Step, path: seq<string>, fr: Frame, sh: Shared)
    requires st.kind.Socket? && Ready(b, fr, sh)
    requires st.kind.send.Some? && MoodOf(sh) == Calm ==>
               forall ref :: ref in RefsIn(st.kind.send.value) ==> RefBound(fr.vars.Keys, cx.pool, ref)
    ensures Through(b + Binds(st), WorkSocket(cx, st, path, fr, sh))
  {
    hide RefBound, Read, RefsIn, Fail, Expand, ReceiveFrame, Retire, Binds;
    var s := st.kind.session;
    if s !in fr.ws {
      NeverGrounded(sh, s);
    } else if fr.ws[s].dead != "" {
      FailAnswered(cx, st, path, fr, sh, fr.ws[s].dead, Failed);
      AnsweredThrough(b, st, fr, sh, Fail(cx, st, path, fr, sh, fr.ws[s].dead, Failed));
    } else if st.kind.send.None? {
      ReceiveThrough(b, cx, st, path, fr, sh);
    } else {
      var (sh1, text) := Expand(cx, fr.vars, sh, st.kind.send.value);
      ExpandBound(cx, fr.vars, sh, st.kind.send.value);
      ExpandQuiet(cx, fr.vars, sh, st.kind.send.value);
      QuietGrounded(sh, sh1);
      var (a, sh2) := Ask(cx, sh1);
      SameNotes(sh1, sh2);
      if text.None? || a.fatal {
      } else if !a.ok {
        RetireAnswered(cx, st, path, fr, sh2, a);
        AnsweredThrough(b, st, fr, sh2, Retire(cx, st, path, fr, sh2, a));
      } else {
        ReceiveThrough(b, cx, st, path, fr, sh2);
      }
    }
  }

  lemma NeverGrounded(sh: Shared, s: string)
    requires Grounded(sh)
    ensures Grounded(Note(sh, NeverOpened(s)))
  {
    ReadNote(sh, NeverOpened(s));
    hide Read;
  }

  lemma RetireAnswered(cx: Context, st: Step, path: seq<string>, fr: Frame, sh: Shared, a: Answer)
    requires st.kind.Socket? && st.kind.session in fr.ws && MoodOf(sh) != Caught
    ensures Answered(st, fr, sh, Retire(cx, st, path, fr, sh, a))
  {
    hide Read, Trouble, Binds, Answered;
    var s := st.kind.session;
    var fr1 := MarkSession(fr, s, fr.ws[s].(dead := a.detail));
    TroubleAnswered(cx, st, path, fr1, sh, a);
    AnsweredFrom(st, fr, sh, fr1, sh, Retire(cx, st, path, fr, sh, a));
  }

  lemma ReceiveThrough(b: set<string>, cx: Context, st: Step, path: seq<string>, fr: Frame, sh: Shared)
    requires st.kind.Socket? && st.kind.session in fr.ws && Ready(b, fr, sh)
    ensures Through(b + Binds(st), ReceiveFrame(cx, st, path, fr, sh))
  {
    if !st.kind.receives {
      assert b + Binds(st) == b;
    } else {
      var (a, sh1) := Ask(cx, sh);
      SameNotes(sh, sh1);
      assert Binds(st) <= fr.vars.Keys + set x | x in st.extract;
      hide Read, Retire, Extract, Binds, Answered;
      RetireAnswered(cx, st, path, fr, sh1, a);
      ExtractThrough(cx, st, path, st.extract, fr, sh1);
      AnsweredThrough(b, st, fr, sh1, ReceiveFrame(cx, st, path, fr, sh));
    }
  }

  lemma SocketThrough(b: set<string>, cx: Context, st: Step, path: seq<string>, fr: Frame, sh: Shared)
    requires st.kind.Socket? && StepBound(b, cx.pool, st) && Ready(b, fr, sh)
    ensures Through(b + Binds(st), RunSocket(cx, st, path, fr, sh))
  {
    hide RefBound, Read, RefsOf, RefsIn, OpenSocket, WorkSocket, Fields;
    SocketRefs(st);
    BoundMore(b, fr.vars.Keys, cx.pool, RefsOf(Fields(st)));
    if !st.kind.opens {
      WorkThrough(b, cx, st, path, fr, sh);
    } else {
      OpenThrough(cx, st, path, fr, sh);
      var r := OpenSocket(cx, st, path, fr, sh);
      if r.out.None? {
        WorkThrough(b, cx, st, path, r.fr, r.sh);
      }
    }
  }

  // ---------------------------------------------------------------- used flows

  lemma {:induction false} BindThrough(cx: Context, callerVars: map<string, Value>, with: map<string, Templated>,
                                       ins: seq<Input>, vars: map<string, Value>, sh: Shared)
    requires MoodOf(sh) == Calm ==>
               forall n, ref :: n in with && ref in RefsIn(with[n]) ==> RefBound(callerVars.Keys, cx.pool, ref)
    requires forall i :: i in ins ==> DefaultOk(i)
    ensures var (vars', sh', bound) := BindInputs(cx, callerVars, with, ins, vars, sh);
            MoodOf(sh') == MoodOf(sh) && (bound ==> vars'.Keys == vars.Keys + InputVars(ins))
    decreases ins
  {
    ReadNote(sh, Crashed);
    if ins != [] {
      var i := ins[0];
      assert i in ins && DefaultOk(i);
      assert InputVars(ins) == {"inputs." + i.name} + InputVars(ins[1..]) by { InputVarsCons(ins); }
      if i.name in with || i.default.Some? {
        if i.name in with {
          ExpandBound(cx, callerVars, sh, with[i.name]);
        } else {
          ExpandBound(ChildContext(cx), vars, sh, i.default.value);
        }
        hide Read, Expand, RefBound, RefsIn, DefaultOk, InputVars;
        var (sh1, text) := if i.name in with then Expand(cx, callerVars, sh, with[i.name])
                           else Expand(ChildContext(cx), vars, sh, i.default.value);
        if text.Some? {
          BindThrough(cx, callerVars, with, ins[1..], vars["inputs." + i.name := Str(text.value)], sh1);
        }
      }
    }
  }

  lemma InputVarsCons(ins: seq<Input>)
    requires ins != []
    ensures InputVars(ins) == {"inputs." + ins[0].name} + InputVars(ins[1..])
  {
    forall v | v in InputVars(ins)
      ensures v in {"inputs." + ins[0].name} + InputVars(ins[1..])
    {
      var i :| 0 <= i < |ins| && v == "inputs." + ins[i].name;
      assert i == 0 || ins[1..][i - 1] == ins[i];
    }
    forall v | v in InputVars(ins[1..])
      ensures v in InputVars(ins)
    {
      var i :| 0 <= i < |ins[1..]| && v == "inputs." + ins[1..][i].name;
      assert ins[i + 1] == ins[1..][i];
    }
  }

  lemma {:induction false} OutputsGiven(id: string, outs: seq<string>, child: map<string, Value>,
          vars: map<string, Value>)
    ensures GiveOutputs(id, outs, child, vars).Keys ==
              vars.Keys + set o | o in outs && o in child :: id + "." + o
    decreases outs
  {
    if outs != [] {
      OutputsGiven(id, outs[1..], child, if outs[0] in child then vars[id + "." + outs[0] := child[outs[0]]] else vars);
    }
  }

  /** Calm, nothing was caught; and while nothing was caught and nothing left behind, it is calm. */
  lemma {:induction false} CalmIsQuiet(log: seq<Event>)
    ensures Read(log).mood == Calm ==> forall k :: 0 <= k < |log| ==> !log[k].NoValue? && !log[k].WentWithout?
    ensures Read(log).mood == Lacking ==> exists k :: 0 <= k < |log| && log[k].WentWithout?
  {
    if log != [] {
      CalmIsQuiet(log[..|log| - 1]);
    }
  }

  /** A used flow that recorded nothing and ran to its end has no failure and no abort. */
  lemma CleanChild(cx: Context, f: Flow, path: seq<string>, vars: map<string, Value>, sh: Shared)
    ensures var r := RunSteps(cx, f.steps, path, FRESH_FRAME.(vars := vars), sh, Ok);
            && (Clean(r.sh) && r.cont ==> r.fr.failures == [] && !r.fr.aborted)
            && (MoodOf(sh) != Calm ==> MoodOf(r.sh) == MoodOf(sh))
  {
    StepsConducted(cx, f.steps, path, FRESH_FRAME.(vars := vars), sh, Ok);
    hide Read, RunSteps;
  }

  lemma SubsetOutputs(id: string, outs: seq<string>, b: set<string>, keys: set<string>)
    requires b <= keys
    ensures (set o | o in outs && o in b :: id + "." + o) <= set o | o in outs && o in keys :: id + "." + o
  {
  }

  lemma FinishThrough(b: set<string>, cx: Context, st: Step, f: Flow, fr: Frame, sub: Frame, sh: Shared, out: Outcome)
    requires st.kind.Use? && st.kind.flow == Some(f) && Grounded(sh) && (MoodOf(sh) == Calm ==> b <= fr.vars.Keys)
    requires Clean(sh) ==>
               sub.failures == [] && !sub.aborted && InputVars(f.inputs) + BindsAll(f.steps) <= sub.vars.Keys
    ensures Through(b + Binds(st), FinishUse(cx, st, f, fr, sub, sh, out))
  {
    hide Read, EffectiveAction, Prefixed, Binds, Onward, GiveOutputs, Clean, Grounded;
    var fr2 := Absorb(st.id, fr, sub).(vars := GiveOutputs(st.id, f.outputs, sub.vars, fr.vars));
    FinishVars(st, f, fr, sub);
    OnwardGrounded(st, fr2, sh);
    AbortGrounded(sh);
    if sub.aborted || sub.failures != [] {
      assert !Clean(sh);
    }
  }

  lemma FinishVars(st: Step, f: Flow, fr: Frame, sub: Frame)
    requires st.kind.Use? && st.kind.flow == Some(f)
    ensures var vars := GiveOutputs(st.id, f.outputs, sub.vars, fr.vars);
            && fr.vars.Keys <= vars.Keys
            && (InputVars(f.inputs) + BindsAll(f.steps) <= sub.vars.Keys ==> Binds(st) <= vars.Keys)
  {
    OutputsGiven(st.id, f.outputs, sub.vars, fr.vars);
    BindsGiven(st, f, sub.vars.Keys);
    hide Binds, BindsAll, InputVars, GiveOutputs;
  }

  lemma AbortGrounded(sh: Shared)
    requires Grounded(sh)
    ensures var sh' := Note(sh, AskedAbort); Grounded(sh') && Clean(sh') == Clean(sh)
  {
    ReadNote(sh, AskedAbort);
    hide Read;
  }

  lemma BindsGiven(st: Step, f: Flow, keys: set<string>)
    requires st.kind.Use? && st.kind.flow == Some(f)
    ensures InputVars(f.inputs) + BindsAll(f.steps) <= keys ==>
              Binds(st) <= set o | o in f.outputs && o in keys :: st.id + "." + o
  {
    if InputVars(f.inputs) + BindsAll(f.steps) <= keys {
      SubsetOutputs(st.id, f.outputs, InputVars(f.inputs) + BindsAll(f.steps), keys);
    }
    hide BindsAll, InputVars;
  }

  lemma {:induction false} UseThrough(b: set<string>, cx: Context, st: Step, path: seq<string>, fr: Frame, sh: Shared)
    requires st.kind.Use? && StepBound(b, cx.pool, st) && Ready(b, fr, sh)
    ensures Through(b + Binds(st), RunUse(cx, st, path, fr, sh))
    decreases st, 0
  {
    hide Read, RefBound, RefsIn, DefaultOk, InputVars, BindsAll, Binds, RunSteps, BindInputs, FinishUse, RefsOf;
    if st.kind.flow.None? {
      CrashGrounded(sh);
    } else {
      var f := st.kind.flow.value;
      WithBound(b, fr.vars.Keys, cx.pool, st.kind.with);
      BindThrough(cx, fr.vars, st.kind.with, f.inputs, map[], sh);
      var (vars, sh1, bound) := BindInputs(cx, fr.vars, st.kind.with, f.inputs, map[], sh);
      BindQuiet(cx, fr.vars, st.kind.with, f.inputs, map[], sh);
      QuietGrounded(sh, sh1);
      if bound {
        var child := FRESH_FRAME.(vars := vars);
        StepsThrough(InputVars(f.inputs), ChildContext(cx), f.steps, path + [st.id], child, sh1, Ok);
        CleanChild(ChildContext(cx), f, path + [st.id], vars, sh1);
        var r := RunSteps(ChildContext(cx), f.steps, path + [st.id], child, sh1, Ok);
        var sh2 := CloseSessions(r.fr, r.sh);
        SameNotes(r.sh, sh2);
        if !r.err {
          FinishThrough(b, cx, st, f, fr, r.fr, sh2, r.out.value);
        }
      }
    }
  }

  lemma CrashGrounded(sh: Shared)
    requires Grounded(sh)
    ensures Grounded(Note(sh, Crashed))
  {
    ReadNote(sh, Crashed);
    hide Read;
  }

  lemma WithBound(b: set<string>, c: set<string>, data: string, with: map<string, Templated>)
    requires forall n, ref :: n in with && ref in RefsIn(with[n]) ==> RefBound(b, data, ref)
    ensures b <= c ==> forall n, ref :: n in with && ref in RefsIn(with[n]) ==> RefBound(c, data, ref)
  {
    hide Root, RefsIn;
    forall n, ref | b <= c && n in with && ref in RefsIn(with[n])
      ensures RefBound(c, data, ref)
    {
      assert RefBound(b, data, ref);
    }
  }

  lemma {:induction false} StepThrough(b: set<string>, cx: Context, st: Step, path: seq<string>, fr: Frame, sh: Shared)
    requires StepBound(b, cx.pool, st) && Ready(b, fr, sh)
    ensures Through(b + Binds(st), RunStep(cx, st, path, fr, sh))
    decreases st, 1
  {
    ReadNote(sh, Started(path + [st.id]));
    var sh1 := Note(sh, Started(path + [st.id]));
    if st.kind.Wait? || st.kind.Poll? {
      assert b + Binds(st) == b;
    }
    hide Read, StepBound, RunRequest, RunSocket, RunUse, Binds;
    match st.kind {
      case Request(_, _) => RequestThrough(b, cx, st, path, fr, sh1);
      case Socket(_, _, _, _, _, _) => SocketThrough(b, cx, st, path, fr, sh1);
      case Use(_, _, _) => UseThrough(b, cx, st, path, fr, sh1);
      case Wait =>
      case Poll(_) =>
    }
  }

  lemma {:induction false} StepsThrough(b: set<string>, cx: Context, steps: seq<Step>, path: seq<string>, fr: Frame,
          sh: Shared, out: Outcome)
    requires StepsBound(b, cx.pool, steps) && Ready(b, fr, sh)
    ensures Through(b + BindsAll(steps), RunSteps(cx, steps, path, fr, sh, out))
    decreases steps, 2
  {
    hide Read, StepBound, Binds, RunStep, Worst;
    if steps != [] {
      StepThrough(b, cx, steps[0], path, fr, sh);
      var s := RunStep(cx, steps[0], path, fr, sh);
      if !s.err && s.cont {
        StepsThrough(b + Binds(steps[0]), cx, steps[1..], path, s.fr, s.sh,
                     if s.out.Some? then Worst(out, s.out.value) else out);
        assert b + Binds(steps[0]) + BindsAll(steps[1..]) == b + (Binds(steps[0]) + BindsAll(steps[1..]));
      }
    } else {
      assert b + {} == b;
    }
  }

  /** When every reference is bound, no run answers "has no value yet" before some flow has gone on past a
      step that left a variable it was to bind without a value; and no flow does that in a run that
      reports neither a failure nor a throttle. */
  lemma BoundNeverCaught(cx: Context, f: Flow)
    requires cx.pool == f.data && StepsBound({}, f.data, f.steps)
    ensures var r := RunFlow(cx, f);
            && MoodOf(r.sh) != Caught
            && ((forall k :: 0 <= k < |r.sh.log| ==> !r.sh.log[k].WentWithout?) ==>
                  forall k :: 0 <= k < |r.sh.log| ==> !r.sh.log[k].NoValue?)
            && (r.fr.failures == [] && !r.fr.throttled ==>
                  forall k :: 0 <= k < |r.sh.log| ==> !r.sh.log[k].WentWithout? && !r.sh.log[k].NoValue?)
  {
    var r := RunFlow(cx, f);
    assert MoodOf(NOTHING_YET) == Calm;
    StepsThrough({}, cx, f.steps, [], FRESH_FRAME, NOTHING_YET, Ok);
    RunLedger(cx, f);
    CalmIsQuiet(r.sh.log);
    hide Read, RunSteps, StepsBound;
  }
}

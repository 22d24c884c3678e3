/** How far acceptance by the check carries at run time: what it guarantees, exactly when it does, and
    the three ways in which it falls short. */
module Soundness {
  import opened FlowIr
  import opened Interp
  import opened Validator
  import opened Conduct
  import opened Variables

  // ---------------------------------------------------------------- acceptance gives bound references

  /** A reference into the environment, the data row or a closed root, or else a bare name. */
  predicate Bare(k: Known, data: string, ref: string) {
    Root(ref) == "env" || (data != "" && Root(ref) == data) || Root(ref) in k.fields || !HasDot(ref)
  }

  /** No dotted reference into an extracted variable, and no extraction on a step that reads no answer. */
  ghost predicate PlainStep(k: Known, data: string, st: Step)
    decreases st, 0
  {
    && (forall ref :: ref in RefsOf(Fields(st)) ==> Bare(k, data, ref))
    && (st.kind.Wait? || st.kind.Poll? ==> st.extract == [])
    && (st.kind.Use? ==>
          && (forall n, ref :: n in st.kind.with && ref in RefsIn(st.kind.with[n]) ==> Bare(k, data, ref))
          && (st.kind.flow.Some? ==> PlainSteps(Start(st.kind.flow.value), "", st.kind.flow.value.steps)))
  }

  ghost predicate PlainSteps(k: Known, data: string, steps: seq<Step>)
    decreases steps, 1
  {
    steps == [] || (PlainStep(k, data, steps[0]) && PlainSteps(After(k, steps[0]), data, steps[1..]))
  }

  /** What the check knows is what the run binds. */
  ghost predicate Agrees(k: Known, data: string, b: set<string>) {
    && k.extracted <= b
    && (forall root, m :: root in k.fields && m in k.fields[root] ==> root + "." + m in b)
    && (forall root :: root in k.fields ==> "" !in k.fields[root])
    && (forall root :: root in k.available ==>
          root == "env" || (data != "" && root == data) || root in k.fields || root in k.extracted)
  }

  lemma RefAgrees(k: Known, data: string, b: set<string>, ref: string)
    requires Agrees(k, data, b) && RefOk(k, ref) && Bare(k, data, ref)
    ensures RefBound(b, data, ref)
  {
    CutIsWhole(ref);
    hide Root, Rest;
    if Root(ref) in k.fields {
      assert Root(ref) + "." + Rest(ref) in b;
    }
  }

  lemma StartAgrees(f: Flow)
    requires InputsOk(f.inputs)
    ensures Agrees(Start(f), f.data, InputVars(f.inputs))
  {
    forall m | m in InputNames(f.inputs)
      ensures "inputs" + "." + m in InputVars(f.inputs) && m != ""
    {
      var i :| 0 <= i < |f.inputs| && m == f.inputs[i].name;
      assert "inputs" + "." + m == "inputs." + f.inputs[i].name;
    }
  }

  lemma StepAgrees(k: Known, data: string, b: set<string>, st: Step)
    requires Agrees(k, data, b) && StepOk(k, st) && (st.kind.Wait? || st.kind.Poll? ==> st.extract == [])
    requires st.kind.Use? && st.kind.flow.Some? ==> UseAgrees(st, st.kind.flow.value)
    ensures Agrees(After(k, st), data, b + Binds(st))
  {
    hide FlowOk, RefsOk, BindsAll, InputVars, IsIdent;
    var k' := After(k, st);
    if st.kind.Use? {
      assert UseOk(st);
      assert Extracted(WithUse(k, st), []) == {};
      forall o | o in st.kind.flow.value.outputs
        ensures st.id + "." + o in Binds(st)
      {
      }
    } else {
      ExtractAgrees(k, st);
    }
  }

  /** Every declared output of a used flow is one it really binds. */
  ghost predicate UseAgrees(st: Step, f: Flow) {
    forall o :: o in f.outputs ==> o != "" && o in InputVars(f.inputs) + BindsAll(f.steps)
  }

  lemma ExtractAgrees(k: Known, st: Step)
    requires ShapeOk(st) && !st.kind.Use? && (st.kind.Wait? || st.kind.Poll? ==> st.extract == [])
    ensures Extracted(WithUse(k, st), st.extract) <= Binds(st)
  {
    hide IsIdent;
  }

  lemma {:induction false} PlainIsBound(k: Known, data: string, b: set<string>, steps: seq<Step>)
    requires StepsOk(k, steps) && PlainSteps(k, data, steps) && Agrees(k, data, b)
    ensures StepsBound(b, data, steps)
    ensures Agrees(AfterAll(k, steps), data, b + BindsAll(steps))
    decreases steps, 1
  {
    hide Agrees, StepOk, PlainStep, StepBound, After, Binds;
    if steps == [] {
      assert b + {} == b;
    } else {
      PlainStepIsBound(k, data, b, steps[0]);
      PlainIsBound(After(k, steps[0]), data, b + Binds(steps[0]), steps[1..]);
      assert b + Binds(steps[0]) + BindsAll(steps[1..]) == b + (Binds(steps[0]) + BindsAll(steps[1..]));
    }
  }

  lemma {:induction false} PlainStepIsBound(k: Known, data: string, b: set<string>, st: Step)
    requires StepOk(k, st) && PlainStep(k, data, st) && Agrees(k, data, b)
    ensures StepBound(b, data, st)
    ensures Agrees(After(k, st), data, b + Binds(st))
    decreases st, 0
  {
    hide Agrees, RefOk, Bare, After, Binds, RefBound, ShapeOk;
    forall ref | RefOk(k, ref) && Bare(k, data, ref)
      ensures RefBound(b, data, ref)
    {
      RefAgrees(k, data, b, ref);
    }
    if st.kind.Use? {
      PlainUseIsBound(st);
    }
    StepAgrees(k, data, b, st);
  }

  lemma {:induction false} PlainUseIsBound(st: Step)
    requires st.kind.Use? && UseOk(st) && PlainSteps(Start(st.kind.flow.value), "", st.kind.flow.value.steps)
    ensures var f := st.kind.flow.value;
            && (forall i :: i in f.inputs ==> DefaultOk(i))
            && StepsBound(InputVars(f.inputs), "", f.steps)
            && UseAgrees(st, f)
    decreases st, 0, 0
  {
    hide StepsOk, StepsBound, PlainSteps, Agrees, IsIdent, DefaultOk;
    var f := st.kind.flow.value;
    assert FlowOk(f, {}, true);
    StartAgrees(f);
    PlainIsBound(Start(f), "", InputVars(f.inputs), f.steps);
    AgreesOutputs(AfterAll(Start(f), f.steps), "", InputVars(f.inputs) + BindsAll(f.steps), f.outputs);
  }

  lemma AgreesOutputs(k: Known, data: string, b: set<string>, outs: seq<string>)
    requires Agrees(k, data, b) && OutputsOk(outs, k.extracted)
    ensures forall o :: o in outs ==> o != "" && o in b
  {
  }

  /** The check's promise: in any run of an accepted flow, used flows included, whose references into
      extracted variables are bare names, whose waiting steps extract nothing, and which takes no inputs
      of its own, no reference is without a value before some flow has gone on past a step that left a
      variable it was to bind without one; and none is at all in a run without a failure or a throttle. */
  lemma AcceptedNeverCaught(cx: Context, f: Flow, pools: set<string>)
    requires FlowOk(f, pools, false) && PlainSteps(Start(f), f.data, f.steps) && f.inputs == [] && cx.pool == f.data
    ensures var r := RunFlow(cx, f);
            && MoodOf(r.sh) != Caught
            && ((forall k :: 0 <= k < |r.sh.log| ==> !r.sh.log[k].WentWithout?) ==>
                  forall k :: 0 <= k < |r.sh.log| ==> !r.sh.log[k].NoValue?)
            && (r.fr.failures == [] && !r.fr.throttled ==>
                  forall k :: 0 <= k < |r.sh.log| ==> !r.sh.log[k].WentWithout? && !r.sh.log[k].NoValue?)
  {
    hide StepsOk, PlainSteps, StepsBound, OutputsOk, IsIdent, Agrees, RunFlow, MoodOf;
    StartAgrees(f);
    NoInputVars();
    PlainIsBound(Start(f), f.data, {}, f.steps);
    BoundNeverCaught(cx, f);
  }

  lemma NoInputVars()
    ensures InputVars([]) == {}
  {
  }
}

/** The pre-run check of a flow (internal/ir/validate.go, `validateAs`, `validateInputs`, `checkRef`,
    `UseSpec.validate` and the parts of `Step.validate` they rely on). */
module Validator {
  import opened FlowIr

  // ---------------------------------------------------------------- what is accepted

  /** What the check knows before a step: the roots a reference may start with, the roots whose
      members are a closed set, the sessions opened, the step ids and the variables extracted. */
  datatype Known = Known(
    available: set<string>,
    fields: map<string, set<string>>,
    sessions: set<string>,
    ids: set<string>,
    extracted: set<string>)

  /** A reference has an upstream source, and names a member when its root is closed. */
  predicate RefOk(k: Known, ref: string) {
    Root(ref) in k.available && (Root(ref) in k.fields ==> Rest(ref) in k.fields[Root(ref)])
  }

  /** The templated fields of a step, other than the values it passes to a used flow. */
  function Fields(st: Step): seq<Templated> {
    match st.kind
    case Request(fields, auth) => fields + auth
    case Poll(fields) => fields
    case Socket(_, _, open, auth, send, _) => open + (if send.Some? then [send.value] else []) + auth
    case Wait => []
    case Use(_, _, _) => []
  }

  ghost predicate RefsOk(k: Known, st: Step) {
    && (forall ref :: ref in RefsOf(Fields(st)) ==> RefOk(k, ref))
    && (st.kind.Use? ==> forall n, ref :: n in st.kind.with && ref in RefsIn(st.kind.with[n]) ==> RefOk(k, ref))
  }

  /** An opening step names a session not open yet; any other names one an earlier step opens. */
  predicate SessionOk(k: Known, st: Step) {
    st.kind.Socket? ==> (st.kind.opens <==> st.kind.session !in k.sessions)
  }

  /** What a step of each kind may carry. */
  predicate ShapeOk(st: Step) {
    && IsIdent(st.id)
    && (forall i :: 0 <= i < |st.extract| ==> IsIdent(st.extract[i]))
    && (forall i :: 0 <= i < |st.assert_| && st.assert_[i].VarAssertion? ==> IsIdent(st.assert_[i].key))
    && (st.kind.Socket? ==> st.kind.opens || st.kind.send.Some? || st.kind.receives)
    && (st.kind.Socket? && !st.kind.opens ==> st.kind.open == [] && st.kind.auth == [])
    && (st.kind.Socket? && !st.kind.receives ==> st.extract == [] && st.assert_ == [])
    && (st.kind.Use? ==> st.extract == [] && st.assert_ == [] && !st.tunesThrottle)
  }

  /** What the check knows once a use step's outputs are declared. */
  function WithUse(k: Known, st: Step): Known {
    if !st.kind.Use? then k else
      k.(available := k.available + {st.id},
         fields := k.fields[st.id := if st.kind.flow.Some? then set o | o in st.kind.flow.value.outputs else {}])
  }

  /** What a step's extractions add: variables whose name is not a closed root. */
  function Extracted(k: Known, names: seq<string>): set<string> {
    set x | x in names && x !in k.fields && IsIdent(x)
  }

  /** What the check knows after a step. */
  function After(k: Known, st: Step): Known {
    var u := WithUse(k, st);
    Known(u.available + Extracted(u, st.extract), u.fields,
          if st.kind.Socket? && st.kind.opens then u.sessions + {st.kind.session} else u.sessions,
          u.ids + {st.id}, u.extracted + Extracted(u, st.extract))
  }

  ghost predicate StepOk(k: Known, st: Step)
    decreases st, 1
  {
    && st.id !in k.ids
    && ShapeOk(st) && SessionOk(k, st) && RefsOk(k, st)
    && (st.kind.Use? ==> st.id !in k.available && UseOk(st))
    && (forall i :: 0 <= i < |st.extract| ==> st.extract[i] !in WithUse(k, st).fields)
    && (forall i :: 0 <= i < |st.assert_| && st.assert_[i].VarAssertion? && st.assert_[i].key != "" ==>
          st.assert_[i].key in After(k, st).available)
  }

  /** A use step: its flow stands on its own terms, every value passed names an input, and every
      input gets a value. */
  ghost predicate UseOk(st: Step)
    requires st.kind.Use?
    decreases st, 0
  {
    && st.kind.path != "" && st.kind.flow.Some?
    && var f := st.kind.flow.value;
       (FlowOk(f, {}, true) && WithOk(st.kind.with, f.inputs))
  }

  predicate WithOk(with: map<string, Templated>, ins: seq<Input>) {
    && (forall i :: 0 <= i < |ins| ==> ins[i].name in with || ins[i].default.Some?)
    && (forall n :: n in with ==> exists i :: 0 <= i < |ins| && ins[i].name == n)
  }

  ghost predicate StepsOk(k: Known, steps: seq<Step>)
    decreases steps, 2
  {
    steps == [] || (StepOk(k, steps[0]) && StepsOk(After(k, steps[0]), steps[1..]))
  }

  function AfterAll(k: Known, steps: seq<Step>): Known
    decreases steps
  {
    if steps == [] then k else AfterAll(After(k, steps[0]), steps[1..])
  }

  function InputNames(ins: seq<Input>): set<string> {
    set i | 0 <= i < |ins| :: ins[i].name
  }

  /** A default resolves before any step runs, so it can reach only the environment. */
  predicate DefaultOk(i: Input) {
    i.default.Some? ==> forall ref :: ref in RefsIn(i.default.value) ==> Root(ref) == "env"
  }

  predicate InputsOk(ins: seq<Input>) {
    && (forall i :: 0 <= i < |ins| ==> IsIdent(ins[i].name))
    && (forall i, j :: 0 <= i < j < |ins| ==> ins[i].name != ins[j].name)
    && (forall i :: 0 <= i < |ins| ==> DefaultOk(ins[i]))
  }

  /** What the check knows before the first step. */
  function Start(f: Flow): Known {
    Known({"env"} + (if f.data != "" then {f.data} else {}) + (if f.inputs != [] then {"inputs"} else {}),
          if f.inputs != [] then map["inputs" := InputNames(f.inputs)] else map[],
          {}, {}, {})
  }

  predicate OutputsOk(outs: seq<string>, extracted: set<string>) {
    && (forall i :: 0 <= i < |outs| ==> IsIdent(outs[i]) && outs[i] in extracted)
    && (forall i, j :: 0 <= i < j < |outs| ==> outs[i] != outs[j])
  }

  /** A flow on its own terms; `used` when another flow runs it. */
  ghost predicate FlowOk(f: Flow, pools: set<string>, used: bool)
    decreases f
  {
    && IsIdent(f.name)
    && (f.data != "" ==> !used && f.data in pools)
    && f.steps != []
    && InputsOk(f.inputs)
    && StepsOk(Start(f), f.steps)
    && OutputsOk(f.outputs, AfterAll(Start(f), f.steps).extracted)
  }

  // ---------------------------------------------------------------- the check

  datatype Defect =
    | BadName | DataInUsedFlow | UnknownPool | NoSteps | DuplicateStep | BadShape
    | SessionNotOpen | SessionAlreadyOpen | BadReference(ref: string) | ClashingUseId
    | ExtractsClosedRoot | UnknownVariable | BadOutput | DuplicateOutput | UnextractedOutput
    | BadInput | DuplicateInput | DefaultBeyondEnv(ref: string)
    | NoPath | NoFlow | MissingInput | UndeclaredInput

  /** A problem and the step it was found in. */
  datatype Problem = Problem(step: string, defect: Defect)

  method CheckRefs(step: string, k: Known, refs: seq<string>) returns (errs: seq<Problem>)
    ensures errs == [] <==> forall ref :: ref in refs ==> RefOk(k, ref)
    ensures forall ref :: Problem(step, BadReference(ref)) in errs <==> ref in refs && !RefOk(k, ref)
  {
    errs := [];
    for i := 0 to |refs|
      invariant errs == [] <==> forall j :: 0 <= j < i ==> RefOk(k, refs[j])
      invariant forall ref :: Problem(step, BadReference(ref)) in errs <==> ref in refs[..i] && !RefOk(k, ref)
    {
      if !RefOk(k, refs[i]) {
        errs := errs + [Problem(step, BadReference(refs[i]))];
      }
    }
  }

  method CheckWith(step: string, k: Known, with: map<string, Templated>) returns (errs: seq<Problem>)
    ensures errs == [] <==> forall n, ref :: n in with && ref in RefsIn(with[n]) ==> RefOk(k, ref)
  {
    errs := [];
    var left := with.Keys;
    while left != {}
      invariant left <= with.Keys
      invariant errs == [] <==>
                forall n, ref :: n in with && n !in left && ref in RefsIn(with[n]) ==> RefOk(k, ref)
    {
      var n :| n in left;
      var es := CheckRefs(step, k, RefsIn(with[n]));
      errs := errs + es;
      left := left - {n};
    }
  }

  method CheckInputs(ins: seq<Input>) returns (errs: seq<Problem>)
    ensures errs == [] <==> InputsOk(ins)
  {
    errs := [];
    var names := {};
    for i := 0 to |ins|
      invariant names == InputNames(ins[..i])
      invariant errs == [] <==> InputsOk(ins[..i])
    {
      assert ins[..i + 1] == ins[..i] + [ins[i]];
      InputsSnoc(ins[..i], ins[i]);
      if !IsIdent(ins[i].name) {
        errs := errs + [Problem(ins[i].name, BadInput)];
      } else if ins[i].name in names {
        errs := errs + [Problem(ins[i].name, DuplicateInput)];
      }
      names := names + {ins[i].name};
      if ins[i].default.Some? {
        var es := CheckDefault(ins[i].name, RefsIn(ins[i].default.value));
        errs := errs + es;
      }
    }
    assert ins[..|ins|] == ins;
  }

  lemma InputsSnoc(ins: seq<Input>, i: Input)
    ensures InputNames(ins + [i]) == InputNames(ins) + {i.name}
    ensures InputsOk(ins + [i]) <==>
              InputsOk(ins) && IsIdent(i.name) && i.name !in InputNames(ins) && DefaultOk(i)
  {
    hide IsIdent, DefaultOk;
    var all := ins + [i];
    assert all[|ins|] == i;
    assert forall j :: 0 <= j < |ins| ==> all[j] == ins[j];
    assert InputNames(all) == InputNames(ins) + {i.name};
    assert InputsOk(all) ==> forall j :: 0 <= j < |ins| ==> all[j].name != all[|ins|].name;
  }

  method CheckDefault(name: string, refs: seq<string>) returns (errs: seq<Problem>)
    ensures errs == [] <==> forall ref :: ref in refs ==> Root(ref) == "env"
  {
    hide Root;
    errs := [];
    for i := 0 to |refs|
      invariant errs == [] <==> forall j :: 0 <= j < i ==> Root(refs[j]) == "env"
    {
      if Root(refs[i]) != "env" {
        errs := errs + [Problem(name, DefaultBeyondEnv(refs[i]))];
      }
    }
  }

  method CheckUse(st: Step) returns (errs: seq<Problem>)
    requires st.kind.Use?
    ensures errs == [] <==> UseOk(st)
    decreases st, 0, 0
  {
    hide FlowOk;
    errs := [];
    if st.kind.path == "" {
      errs := errs + [Problem(st.id, NoPath)];
    }
    if st.kind.flow.None? {
      return errs + [Problem(st.id, NoFlow)];
    }
    var f := st.kind.flow.value;
    var es := ValidateAs(f, {}, true);
    var ws := CheckContract(st.id, st.kind.with, f.inputs);
    errs := errs + es + ws;
  }

  /** A use step: the values it passes, its flow, and an id that nothing else goes by. */
  method CheckUseStep(k: Known, st: Step) returns (errs: seq<Problem>)
    requires st.kind.Use?
    ensures errs == [] <==>
              && (forall n, ref :: n in st.kind.with && ref in RefsIn(st.kind.with[n]) ==> RefOk(k, ref))
              && st.id !in k.available && UseOk(st)
    decreases st, 0, 1
  {
    hide UseOk, RefOk, RefsIn;
    var withErrs := CheckWith(st.id, k, st.kind.with);
    var useErrs := CheckUse(st);
    errs := withErrs + useErrs;
    if st.id in k.available {
      errs := errs + [Problem(st.id, ClashingUseId)];
    }
  }

  method CheckContract(step: string, with: map<string, Templated>, ins: seq<Input>) returns (errs: seq<Problem>)
    ensures errs == [] <==> WithOk(with, ins)
  {
    errs := [];
    var declared := {};
    for i := 0 to |ins|
      invariant declared == InputNames(ins[..i])
      invariant errs == [] <==> forall j :: 0 <= j < i ==> ins[j].name in with || ins[j].default.Some?
    {
      assert ins[..i + 1] == ins[..i] + [ins[i]];
      InputsSnoc(ins[..i], ins[i]);
      declared := declared + {ins[i].name};
      if ins[i].name !in with && ins[i].default.None? {
        errs := errs + [Problem(step, MissingInput)];
      }
    }
    assert ins[..|ins|] == ins;
    ghost var filled := errs;
    var left := with.Keys;
    while left != {}
      invariant left <= with.Keys
      invariant errs == [] <==> filled == [] && forall n :: n in with && n !in left ==> n in declared
    {
      var n :| n in left;
      if n !in declared {
        errs := errs + [Problem(step, UndeclaredInput)];
      }
      left := left - {n};
    }
  }

  /** Extractions in order: one that names a closed root is a problem, the rest become available. */
  method CheckExtracts(step: string, u: Known, names: seq<string>) returns (errs: seq<Problem>, added: set<string>)
    ensures errs == [] <==> forall i :: 0 <= i < |names| ==> names[i] !in u.fields
    ensures added == Extracted(u, names)
  {
    hide IsIdent;
    errs, added := [], {};
    for i := 0 to |names|
      invariant errs == [] <==> forall j :: 0 <= j < i ==> names[j] !in u.fields
      invariant added == Extracted(u, names[..i])
    {
      assert names[..i + 1] == names[..i] + [names[i]];
      if names[i] in u.fields {
        errs := errs + [Problem(step, ExtractsClosedRoot)];
      } else if IsIdent(names[i]) {
        added := added + {names[i]};
      }
    }
    assert names[..|names|] == names;
  }

  method CheckAsserts(step: string, available: set<string>, asserts: seq<Assertion>) returns (errs: seq<Problem>)
    ensures errs == [] <==>
              forall i :: 0 <= i < |asserts| && asserts[i].VarAssertion? && asserts[i].key != "" ==>
                asserts[i].key in available
  {
    errs := [];
    for i := 0 to |asserts|
      invariant errs == [] <==>
                forall j :: 0 <= j < i && asserts[j].VarAssertion? && asserts[j].key != "" ==>
                  asserts[j].key in available
    {
      if asserts[i].VarAssertion? && asserts[i].key != "" && asserts[i].key !in available {
        errs := errs + [Problem(step, UnknownVariable)];
      }
    }
  }

  /** A session is opened once, and worked on once it is. */
  method CheckSession(k: Known, st: Step) returns (errs: seq<Problem>)
    ensures errs == [] <==> SessionOk(k, st)
  {
    errs := [];
    if st.kind.Socket? {
      if !st.kind.opens && st.kind.session !in k.sessions {
        errs := errs + [Problem(st.id, SessionNotOpen)];
      } else if st.kind.opens && st.kind.session in k.sessions {
        errs := errs + [Problem(st.id, SessionAlreadyOpen)];
      }
    }
  }

  /** One step: its own shape, the session it works on, its references, its flow if it uses one, and
      what it makes available. */
  method CheckStep(k: Known, st: Step) returns (errs: seq<Problem>, next: Known)
    ensures errs == [] <==> StepOk(k, st)
    ensures next == After(k, st)
    decreases st, 1
  {
    hide FlowOk, UseOk, ShapeOk, RefOk, Fields, RefsIn, RefsOf, IsIdent, Extracted, SessionOk;
    errs := [];
    if st.id in k.ids {
      errs := errs + [Problem(st.id, DuplicateStep)];
    }
    if !ShapeOk(st) {
      errs := errs + [Problem(st.id, BadShape)];
    }
    next := k.(ids := k.ids + {st.id});
    var sessionErrs := CheckSession(k, st);
    errs := errs + sessionErrs;
    if st.kind.Socket? && st.kind.opens {
      next := next.(sessions := next.sessions + {st.kind.session});
    }
    var refErrs := CheckRefs(st.id, k, RefsOf(Fields(st)));
    errs := errs + refErrs;
    if st.kind.Use? {
      var useErrs := CheckUseStep(k, st);
      errs := errs + useErrs;
      var outs := if st.kind.flow.Some? then set o | o in st.kind.flow.value.outputs else {};
      next := next.(available := next.available + {st.id}, fields := next.fields[st.id := outs]);
    }
    var exErrs, added := CheckExtracts(st.id, WithUse(k, st), st.extract);
    next := next.(available := next.available + added, extracted := next.extracted + added);
    var varErrs := CheckAsserts(st.id, next.available, st.assert_);
    errs := errs + exErrs + varErrs;
  }

  method CheckOutputs(name: string, outs: seq<string>, extracted: set<string>) returns (errs: seq<Problem>)
    ensures errs == [] <==> OutputsOk(outs, extracted)
  {
    hide IsIdent;
    errs := [];
    var seen := {};
    for i := 0 to |outs|
      invariant seen == set j | 0 <= j < i :: outs[j]
      invariant errs == [] <==> OutputsOk(outs[..i], extracted)
    {
      assert outs[..i + 1] == outs[..i] + [outs[i]];
      if !IsIdent(outs[i]) {
        errs := errs + [Problem(name, BadOutput)];
      } else if outs[i] in seen {
        errs := errs + [Problem(name, DuplicateOutput)];
      } else if outs[i] !in extracted {
        errs := errs + [Problem(name, UnextractedOutput)];
      }
      seen := seen + {outs[i]};
    }
    assert outs[..|outs|] == outs;
  }

  /** The check reports nothing exactly when the flow is acceptable. */
  method ValidateAs(f: Flow, pools: set<string>, used: bool) returns (errs: seq<Problem>)
    ensures errs == [] <==> FlowOk(f, pools, used)
    decreases f
  {
    hide StepOk, After, InputsOk, OutputsOk, IsIdent, Start;
    errs := [];
    if !IsIdent(f.name) {
      errs := errs + [Problem(f.name, BadName)];
    }
    if f.data != "" && used {
      errs := errs + [Problem(f.name, DataInUsedFlow)];
    } else if f.data != "" && f.data !in pools {
      errs := errs + [Problem(f.name, UnknownPool)];
    }
    if f.steps == [] {
      errs := errs + [Problem(f.name, NoSteps)];
    }
    var inErrs := CheckInputs(f.inputs);
    errs := errs + inErrs;
    ghost var head := errs == [];
    var known := Start(f);
    for i := 0 to |f.steps|
      invariant AfterAll(known, f.steps[i..]) == AfterAll(Start(f), f.steps)
      invariant (errs == [] && StepsOk(known, f.steps[i..])) <==> (head && StepsOk(Start(f), f.steps))
    {
      assert f.steps[i..][0] == f.steps[i] && f.steps[i..][1..] == f.steps[i + 1..];
      var stepErrs, next := CheckStep(known, f.steps[i]);
      errs, known := errs + stepErrs, next;
    }
    assert f.steps[|f.steps|..] == [];
    var outErrs := CheckOutputs(f.name, f.outputs, known.extracted);
    errs := errs + outErrs;
  }
}

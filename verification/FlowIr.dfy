/** The compiled form of a flow (internal/ir/ir.go), as far as running and checking it needs. */
module FlowIr {
  import opened Sequences

  import opened Options

  /** Part of a templated field: literal text, or a reference; `whole` marks a JSON value that is
      nothing but the reference, which keeps its type. */
  datatype Chunk = Text(text: string) | Ref(name: string, whole: bool)

  type Templated = seq<Chunk>

  datatype FailureAction = AbortFlow | AbortRun | Record

  datatype Mode = Integration | System | Load | Stress | Soak

  datatype Assertion = VarAssertion(key: string) | OtherAssertion

  datatype Input = Input(name: string, default: Option<Templated>)

  /** What a step does. `Request` covers call, graphql and grpc: the fields build the request, the
      auth fields are resolved when it is sent. */
  datatype Kind =
    | Request(fields: seq<Templated>, auth: seq<Templated>)
    | Wait
    | Poll(fields: seq<Templated>)
    | Socket(opens: bool, session: string, open: seq<Templated>, auth: seq<Templated>,
             send: Option<Templated>, receives: bool)
    | Use(path: string, with: map<string, Templated>, flow: Option<Flow>)

  datatype Step = Step(
    id: string,
    kind: Kind,
    extract: seq<string>,
    assert_: seq<Assertion>,
    throttleIsError: Option<bool>,
    tunesThrottle: bool,
    onFailure: Option<FailureAction>)

  datatype Flow = Flow(name: string, data: string, inputs: seq<Input>, outputs: seq<string>, steps: seq<Step>)

  /** A reference up to its first dot. */
  function Root(ref: string): string {
    if ref == "" || ref[0] == '.' then "" else [ref[0]] + Root(ref[1..])
  }

  /** A reference after its first dot; empty when it has none. */
  function Rest(ref: string): string {
    if ref == "" then "" else if ref[0] == '.' then ref[1..] else Rest(ref[1..])
  }

  predicate HasDot(ref: string) {
    '.' in ref
  }

  predicate IsLetter(c: char) {
    'a' <= c <= 'z' || 'A' <= c <= 'Z' || c == '_'
  }

  predicate IsIdentChar(c: char) {
    IsLetter(c) || '0' <= c <= '9' || c == '-'
  }

  /** A letter or underscore, then letters, digits, underscores and dashes; never a dot. */
  predicate IsIdent(s: string) {
    s != "" && IsLetter(s[0]) && forall k :: 0 <= k < |s| ==> IsIdentChar(s[k])
  }

  /** The references of a field, in order. */
  function RefsIn(t: Templated): seq<string> {
    if t == [] then [] else if t[0].Ref? then [t[0].name] + RefsIn(t[1..]) else RefsIn(t[1..])
  }

  function RefsOf(ts: seq<Templated>): seq<string> {
    if ts == [] then [] else RefsIn(ts[0]) + RefsOf(ts[1..])
  }

  /** Joining an identifier, a dot and a member cuts back into the two. */
  lemma {:induction false} CutJoin(root: string, member: string)
    requires '.' !in root
    ensures Root(root + "." + member) == root && Rest(root + "." + member) == member
    ensures HasDot(root + "." + member)
  {
    var s := root + "." + member;
    if root == "" {
      assert s[0] == '.' && s[1..] == member;
    } else {
      CutJoin(root[1..], member);
      assert s[1..] == root[1..] + "." + member;
    }
  }

  /** A reference is its root when it has no dot, else root, dot and rest. */
  lemma {:induction false} CutIsWhole(ref: string)
    ensures '.' !in Root(ref)
    ensures if HasDot(ref) then ref == Root(ref) + "." + Rest(ref) else Root(ref) == ref && Rest(ref) == ""
  {
    if ref != "" && ref[0] != '.' {
      var c, rest := [ref[0]], ref[1..];
      CutIsWhole(rest);
      assert ref == c + rest;
      Assoc(c, Root(rest), "." + Rest(rest));
      Assoc(Root(rest), ".", Rest(rest));
      Assoc(c + Root(rest), ".", Rest(rest));
    }
  }

  // ---------------------------------------------------------------- what a flow binds

  function InputVars(ins: seq<Input>): set<string> {
    set i | 0 <= i < |ins| :: "inputs." + ins[i].name
  }

  /** The variables a step binds when nothing goes wrong: its extractions, where it reads an answer,
      or the declared outputs its flow really binds. */
  function Binds(st: Step): set<string>
    decreases st, 0
  {
    match st.kind
    case Request(_, _) => set x | x in st.extract
    case Socket(_, _, _, _, _, receives) => if receives then set x | x in st.extract else {}
    case Use(_, _, flow) =>
      if flow.None? then {} else
        var given := InputVars(flow.value.inputs) + BindsAll(flow.value.steps);
        set o | o in flow.value.outputs && o in given :: st.id + "." + o
    case Wait => {}
    case Poll(_) => {}
  }

  function BindsAll(steps: seq<Step>): set<string>
    decreases steps, 1
  {
    if steps == [] then {} else Binds(steps[0]) + BindsAll(steps[1..])
  }
}

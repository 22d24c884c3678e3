/** What the pre-run check accepts (internal/ir/validate.go), said of a flow's steps by their positions, without
    walking them. */
module Acceptance {
  import opened FlowIr
  import opened Validator

  // ---------------------------------------------------------------- names

  /** In ASCII, letters and the underscore. */
  predicate StartsName(code: int) {
    code == 95 || 65 <= code <= 90 || 97 <= code <= 122
  }

  /** A name starts with a letter or an underscore and goes on with letters, digits, underscores and dashes. */
  lemma NamesAre(s: string)
    ensures IsIdent(s) <==>
              && 0 < |s| && StartsName(s[0] as int)
              && forall k :: 0 <= k < |s| ==>
                   StartsName(s[k] as int) || 48 <= s[k] as int <= 57 || s[k] as int == 45
  {
  }

  // ---------------------------------------------------------------- what a step can see

  /** An earlier step uses a flow under the id `x`. */
  ghost predicate UsedAs(f: Flow, i: int, x: string) {
    exists j :: 0 <= j < i && j < |f.steps| && f.steps[j].kind.Use? && f.steps[j].id == x
  }

  /** `x` has a fixed set of members before step `i`: the flow's inputs, or what a use step gives. */
  ghost predicate Closed(f: Flow, i: int, x: string) {
    (x == "inputs" && f.inputs != []) || UsedAs(f, i, x)
  }

  ghost predicate DeclaresInput(f: Flow, m: string) {
    exists j :: 0 <= j < |f.inputs| && f.inputs[j].name == m
  }

  /** `m` is an input of the flow, or an output of the flow that an earlier step uses under the id `x`. */
  ghost predicate Member(f: Flow, i: int, x: string, m: string) {
    || (x == "inputs" && DeclaresInput(f, m))
    || (exists j :: 0 <= j < i && j < |f.steps| && Gives(f.steps[j], x, m))
  }

  ghost predicate Gives(st: Step, x: string, m: string) {
    st.kind.Use? && st.id == x && st.kind.flow.Some? && m in st.kind.flow.value.outputs
  }

  ghost predicate ExtractedBefore(f: Flow, i: int, x: string) {
    exists j :: 0 <= j < i && j < |f.steps| && x in f.steps[j].extract
  }

  ghost predicate OpenBefore(f: Flow, i: int, s: string) {
    exists j :: 0 <= j < i && j < |f.steps| && Opens(f.steps[j], s)
  }

  ghost predicate Opens(st: Step, s: string) {
    st.kind.Socket? && st.kind.opens && st.kind.session == s
  }

  /** What a reference may start with: the environment, the flow's data pool, its inputs, an earlier use step
      or a variable that an earlier step extracts. */
  ghost predicate Visible(f: Flow, i: int, x: string) {
    || x == "env" || (f.data != "" && x == f.data)
    || Closed(f, i, x) || ExtractedBefore(f, i, x)
  }

  ghost predicate RefFine(f: Flow, i: int, ref: string) {
    Visible(f, i, Root(ref)) && (Closed(f, i, Root(ref)) ==> Member(f, i, Root(ref), Rest(ref)))
  }

  // ---------------------------------------------------------------- references of a step

  /** A templated field of a step, the values it passes to a used flow aside. */
  ghost predicate HasField(st: Step, t: Templated) {
    match st.kind
    case Request(fields, auth) => t in fields || t in auth
    case Poll(fields) => t in fields
    case Socket(_, _, open, auth, send, _) => t in open || t in auth || (send.Some? && t == send.value)
    case Wait => false
    case Use(_, _, _) => false
  }

  ghost predicate MentionsIn(t: Templated, ref: string) {
    exists c :: 0 <= c < |t| && t[c].Ref? && t[c].name == ref
  }

  lemma {:induction false} RefsInMentions(t: Templated, ref: string)
    ensures ref in RefsIn(t) <==> MentionsIn(t, ref)
    decreases t
  {
    if t != [] {
      RefsInMentions(t[1..], ref);
      if MentionsIn(t[1..], ref) {
        var c :| 0 <= c < |t[1..]| && t[1..][c].Ref? && t[1..][c].name == ref;
        assert t[c + 1].name == ref;
      }
      if MentionsIn(t, ref) {
        var c :| 0 <= c < |t| && t[c].Ref? && t[c].name == ref;
        assert c > 0 ==> t[1..][c - 1] == t[c];
      }
    }
  }

  lemma {:induction false} RefsOfMentions(ts: seq<Templated>, ref: string)
    ensures ref in RefsOf(ts) <==> exists t :: t in ts && ref in RefsIn(t)
    decreases ts
  {
    if ts != [] {
      RefsOfMentions(ts[1..], ref);
      assert ts == [ts[0]] + ts[1..];
      assert ref in RefsOf(ts) <==> ref in RefsIn(ts[0]) || ref in RefsOf(ts[1..]);
    }
  }

  lemma FieldsAre(st: Step, ref: string)
    ensures ref in RefsOf(Fields(st)) <==> exists t :: HasField(st, t) && MentionsIn(t, ref)
  {
    RefsOfMentions(Fields(st), ref);
    forall t
      ensures t in Fields(st) <==> HasField(st, t)
      ensures ref in RefsIn(t) <==> MentionsIn(t, ref)
    {
      RefsInMentions(t, ref);
    }
  }

  // ---------------------------------------------------------------- acceptable flows

  /** What a step of each kind may and must carry. */
  ghost predicate Shaped(st: Step) {
    && IsIdent(st.id)
    && (forall x :: x in st.extract ==> IsIdent(x))
    && (forall a :: a in st.assert_ && a.VarAssertion? ==> IsIdent(a.key))
    && (match st.kind
        case Socket(opens, _, open, auth, send, receives) =>
          && (opens || (open == [] && auth == []))
          && (receives || (st.extract == [] && st.assert_ == []))
          && (!opens && !receives ==> send.Some?)
        case Use(path, _, flow) => path != "" && flow.Some? && st.extract == [] && st.assert_ == [] && !st.tunesThrottle
        case _ => true)
  }

  /** Step `i` refers only to what it can see, names no session twice and works on none that is not open,
      extracts over no closed root, and asserts on variables something extracts. */
  ghost predicate Placed(f: Flow, i: int)
    requires 0 <= i < |f.steps|
  {
    var st := f.steps[i];
    && (st.kind.Socket? ==> if st.kind.opens then !OpenBefore(f, i, st.kind.session)
                            else OpenBefore(f, i, st.kind.session))
    && (forall t, ref :: HasField(st, t) && MentionsIn(t, ref) ==> RefFine(f, i, ref))
    && (st.kind.Use? ==> forall n, ref :: n in st.kind.with && MentionsIn(st.kind.with[n], ref) ==> RefFine(f, i, ref))
    && (st.kind.Use? ==> !Visible(f, i, st.id))
    && (forall x :: x in st.extract ==> !Closed(f, i, x))
    && (forall a :: a in st.assert_ && a.VarAssertion? ==> Visible(f, i + 1, a.key))
  }

  /** The values a use step passes: each to an input there is, and one to each input without a default. */
  ghost predicate Passes(with: map<string, Templated>, used: Flow) {
    && (forall n :: n in with ==> DeclaresInput(used, n))
    && (forall i: Input :: i in used.inputs && i.default.None? ==> i.name in with)
  }

  ghost predicate InputsFine(ins: seq<Input>) {
    && (forall i, j :: 0 <= i < j < |ins| ==> ins[i].name != ins[j].name)
    && (forall i: Input :: i in ins ==> IsIdent(i.name))
    && (forall i: Input, ref :: i in ins && i.default.Some? && MentionsIn(i.default.value, ref) ==> Root(ref) == "env")
  }

  /** Everything that makes a flow acceptable. */
  ghost predicate Acceptable(f: Flow, pools: set<string>, used: bool)
    decreases f
  {
    && IsIdent(f.name)
    && (f.data == "" || (f.data in pools && !used))
    && f.steps != []
    && InputsFine(f.inputs)
    && (forall i, j :: 0 <= i < j < |f.steps| ==> f.steps[i].id != f.steps[j].id)
    && (forall i :: 0 <= i < |f.steps| ==> Shaped(f.steps[i]) && Placed(f, i))
    && (forall i :: 0 <= i < |f.steps| && f.steps[i].kind.Use? && f.steps[i].kind.flow.Some? ==>
          && Acceptable(f.steps[i].kind.flow.value, {}, true)
          && Passes(f.steps[i].kind.with, f.steps[i].kind.flow.value))
    && (forall i, j :: 0 <= i < j < |f.outputs| ==> f.outputs[i] != f.outputs[j])
    && (forall o :: o in f.outputs ==> IsIdent(o) && ExtractedBefore(f, |f.steps|, o))
  }

  // ---------------------------------------------------------------- walking the steps

  ghost predicate IdBefore(f: Flow, i: int, x: string) {
    exists j :: 0 <= j < i && j < |f.steps| && f.steps[j].id == x
  }

  /** What the check knows before step `i` is what the positions before it say. */
  ghost predicate Knows(f: Flow, i: int, k: Known) {
    && (forall x :: x in k.ids <==> IdBefore(f, i, x))
    && (forall x :: x in k.sessions <==> OpenBefore(f, i, x))
    && (forall x :: x in k.extracted <==> ExtractedBefore(f, i, x))
    && (forall x :: x in k.available <==> Visible(f, i, x))
    && (forall x :: x in k.fields <==> Closed(f, i, x))
    && (forall x, m :: x in k.fields ==> (m in k.fields[x] <==> Member(f, i, x, m)))
  }

  lemma StartKnows(f: Flow)
    ensures Knows(f, 0, Start(f))
  {
  }

  ghost predicate UsedFine(st: Step) {
    st.kind.Use? && st.kind.flow.Some? ==>
      Acceptable(st.kind.flow.value, {}, true) && Passes(st.kind.with, st.kind.flow.value)
  }

  ghost predicate StepFine(f: Flow, i: int)
    requires 0 <= i < |f.steps|
  {
    !IdBefore(f, i, f.steps[i].id) && Shaped(f.steps[i]) && Placed(f, i) && UsedFine(f.steps[i])
  }

  lemma ShapedIs(st: Step)
    ensures Shaped(st) <==> ShapeOk(st) && (st.kind.Use? ==> st.kind.path != "" && st.kind.flow.Some?)
  {
    hide IsIdent;
    if ShapeOk(st) {
      assert forall x :: x in st.extract ==> IsIdent(x);
      assert forall a :: a in st.assert_ && a.VarAssertion? ==> IsIdent(a.key);
    }
    if Shaped(st) {
      forall i | 0 <= i < |st.extract|
        ensures IsIdent(st.extract[i])
      {
        assert st.extract[i] in st.extract;
      }
      forall i | 0 <= i < |st.assert_| && st.assert_[i].VarAssertion?
        ensures IsIdent(st.assert_[i].key)
      {
        assert st.assert_[i] in st.assert_;
      }
    }
  }

  lemma PassesIs(with: map<string, Templated>, f: Flow)
    ensures Passes(with, f) <==> WithOk(with, f.inputs)
  {
    if Passes(with, f) {
      forall i | 0 <= i < |f.inputs|
        ensures f.inputs[i].name in with || f.inputs[i].default.Some?
      {
        assert f.inputs[i] in f.inputs;
      }
      forall n | n in with
        ensures exists i :: 0 <= i < |f.inputs| && f.inputs[i].name == n
      {
        assert DeclaresInput(f, n);
      }
    }
    if WithOk(with, f.inputs) {
      forall n | n in with
        ensures DeclaresInput(f, n)
      {
      }
    }
  }

  lemma InputsFineIs(ins: seq<Input>)
    ensures InputsFine(ins) <==> InputsOk(ins)
  {
    hide IsIdent, Root;
    forall i: Input, ref | i in ins && i.default.Some?
      ensures ref in RefsIn(i.default.value) <==> MentionsIn(i.default.value, ref)
    {
      RefsInMentions(i.default.value, ref);
    }
    if InputsFine(ins) {
      forall i | 0 <= i < |ins|
        ensures IsIdent(ins[i].name) && DefaultOk(ins[i])
      {
        assert ins[i] in ins;
      }
    }
    if InputsOk(ins) {
      forall i: Input | i in ins
        ensures IsIdent(i.name) && DefaultOk(i)
      {
      }
    }
  }

  lemma RefFineIs(f: Flow, i: int, k: Known, ref: string)
    requires Knows(f, i, k)
    ensures RefOk(k, ref) <==> RefFine(f, i, ref)
  {
    hide Root, Rest, Visible, Closed, Member;
  }

  /** The references of a step, in either form. */
  lemma RefsFineIs(f: Flow, i: int, k: Known, st: Step)
    requires Knows(f, i, k)
    ensures RefsOk(k, st) <==>
              && (forall t, ref :: HasField(st, t) && MentionsIn(t, ref) ==> RefFine(f, i, ref))
              && (st.kind.Use? ==>
                    forall n, ref :: n in st.kind.with && MentionsIn(st.kind.with[n], ref) ==> RefFine(f, i, ref))
  {
    hide Knows, RefOk, RefFine, HasField, MentionsIn, RefsIn, Fields;
    forall ref
      ensures RefOk(k, ref) <==> RefFine(f, i, ref)
      ensures ref in RefsOf(Fields(st)) <==> exists t :: HasField(st, t) && MentionsIn(t, ref)
    {
      RefFineIs(f, i, k, ref);
      FieldsAre(st, ref);
    }
    forall t: Templated, ref
      ensures ref in RefsIn(t) <==> MentionsIn(t, ref)
    {
      RefsInMentions(t, ref);
    }
  }

  /** What the check knows after step `i`. */
  lemma KnowsNext(f: Flow, i: nat, k: Known)
    requires i < |f.steps| && Knows(f, i, k)
    requires ShapeOk(f.steps[i]) && (f.steps[i].kind.Use? ==> f.steps[i].id !in k.available)
    requires forall x :: x in f.steps[i].extract ==> x !in WithUse(k, f.steps[i]).fields
    ensures Knows(f, i + 1, After(k, f.steps[i]))
  {
    hide IsIdent, OpenBefore, ExtractedBefore, Closed, IdBefore, Member;
    var st, k' := f.steps[i], After(k, f.steps[i]);
    forall x
      ensures IdBefore(f, i + 1, x) <==> IdBefore(f, i, x) || x == st.id
      ensures OpenBefore(f, i + 1, x) <==> OpenBefore(f, i, x) || Opens(st, x)
      ensures ExtractedBefore(f, i + 1, x) <==> ExtractedBefore(f, i, x) || x in st.extract
      ensures Closed(f, i + 1, x) <==> Closed(f, i, x) || (st.kind.Use? && x == st.id)
    {
      Later(f, i, x);
    }
    KnowsMembers(f, i, k);
  }

  lemma Later(f: Flow, i: nat, x: string)
    requires i < |f.steps|
    ensures IdBefore(f, i + 1, x) <==> IdBefore(f, i, x) || x == f.steps[i].id
    ensures OpenBefore(f, i + 1, x) <==> OpenBefore(f, i, x) || Opens(f.steps[i], x)
    ensures ExtractedBefore(f, i + 1, x) <==> ExtractedBefore(f, i, x) || x in f.steps[i].extract
    ensures Closed(f, i + 1, x) <==> Closed(f, i, x) || (f.steps[i].kind.Use? && x == f.steps[i].id)
  {
    hide Opens;
  }

  lemma KnowsMembers(f: Flow, i: nat, k: Known)
    requires i < |f.steps| && Knows(f, i, k) && (f.steps[i].kind.Use? ==> f.steps[i].id !in k.available)
    ensures var u := WithUse(k, f.steps[i]);
            forall x, m :: x in u.fields ==> (m in u.fields[x] <==> Member(f, i + 1, x, m))
  {
    var st, u := f.steps[i], WithUse(k, f.steps[i]);
    forall x, m | x in u.fields
      ensures m in u.fields[x] <==> Member(f, i + 1, x, m)
    {
      MemberLater(f, i, x, m);
      if st.kind.Use? && x == st.id {
        assert Visible(f, i, x) <==> x in k.available;
        MembersSeen(f, i, x, m);
      }
    }
  }

  lemma MemberLater(f: Flow, i: nat, x: string, m: string)
    requires i < |f.steps|
    ensures Member(f, i + 1, x, m) <==> Member(f, i, x, m) || Gives(f.steps[i], x, m)
  {
    hide Gives;
  }

  lemma MembersSeen(f: Flow, i: nat, x: string, m: string)
    ensures Member(f, i, x, m) ==> Visible(f, i, x)
  {
    if x == "inputs" && DeclaresInput(f, m) {
      assert Closed(f, i, x);
    }
    if j :| 0 <= j < i && j < |f.steps| && Gives(f.steps[j], x, m) {
      assert UsedAs(f, i, x);
    }
  }

  /** Where a step's shape is right, its extractions and assertions are checked alike. */
  lemma ReadsFine(f: Flow, i: nat, k: Known)
    requires i < |f.steps| && Knows(f, i, k) && ShapeOk(f.steps[i])
    requires f.steps[i].kind.Use? ==> f.steps[i].id !in k.available
    ensures var st := f.steps[i];
            var free := forall x :: x in st.extract ==> !Closed(f, i, x);
            && ((forall j :: 0 <= j < |st.extract| ==> st.extract[j] !in WithUse(k, st).fields) <==> free)
            && (free ==>
                  ((forall j :: 0 <= j < |st.assert_| && st.assert_[j].VarAssertion? && st.assert_[j].key != "" ==>
                      st.assert_[j].key in After(k, st).available)
                   <==> forall a :: a in st.assert_ && a.VarAssertion? ==> Visible(f, i + 1, a.key)))
  {
    hide IsIdent, Closed, Visible, After;
    var st := f.steps[i];
    if forall j :: 0 <= j < |st.extract| ==> st.extract[j] !in WithUse(k, st).fields {
      assert forall x :: x in st.extract ==> x !in k.fields;
    }
    if forall x :: x in st.extract ==> !Closed(f, i, x) {
      assert forall j :: 0 <= j < |st.extract| ==> st.extract[j] in st.extract;
      ExtractsFree(f, i, k);
      KnowsNext(f, i, k);
      AssertsFine(f, i, After(k, st));
    }
  }

  lemma ExtractsFree(f: Flow, i: nat, k: Known)
    requires i < |f.steps| && Knows(f, i, k) && ShapeOk(f.steps[i])
    requires forall x :: x in f.steps[i].extract ==> !Closed(f, i, x)
    ensures forall x :: x in f.steps[i].extract ==> x !in WithUse(k, f.steps[i]).fields
  {
    hide IsIdent, Closed;
  }

  lemma AssertsFine(f: Flow, i: nat, k': Known)
    requires i < |f.steps| && Knows(f, i + 1, k') && ShapeOk(f.steps[i])
    ensures var all := f.steps[i].assert_;
            (forall j :: 0 <= j < |all| && all[j].VarAssertion? && all[j].key != "" ==> all[j].key in k'.available)
            <==> forall a :: a in all && a.VarAssertion? ==> Visible(f, i + 1, a.key)
  {
    hide Visible, Closed, Member, IdBefore, OpenBefore, ExtractedBefore;
    var st := f.steps[i];
    if forall a :: a in st.assert_ && a.VarAssertion? ==> Visible(f, i + 1, a.key) {
      assert forall j :: 0 <= j < |st.assert_| ==> st.assert_[j] in st.assert_;
    }
  }

  /** One step, on the check's terms and by its position. */
  lemma StepFineIs(f: Flow, i: nat, k: Known)
    requires i < |f.steps| && Knows(f, i, k)
    requires UsedKnown(f.steps[i])
    ensures StepOk(k, f.steps[i]) <==> StepFine(f, i)
  {
    hide FlowOk, RefsOk, RefOk, ShapeOk, Shaped, HasField, MentionsIn, RefFine, Acceptable, WithOk, Passes, Closed,
         Member, After, WithUse, Visible, OpenBefore, ExtractedBefore, IdBefore;
    var st := f.steps[i];
    ShapedIs(st);
    RefsFineIs(f, i, k, st);
    if st.kind.Use? && st.kind.flow.Some? {
      PassesIs(st.kind.with, st.kind.flow.value);
    }
    if ShapeOk(st) && (st.kind.Use? ==> st.id !in k.available) {
      ReadsFine(f, i, k);
    }
  }

  /** The check and the positions agree about the flow a step uses. */
  ghost predicate UsedKnown(st: Step) {
    st.kind.Use? && st.kind.flow.Some? ==>
      (FlowOk(st.kind.flow.value, {}, true) <==> Acceptable(st.kind.flow.value, {}, true))
  }

  lemma {:induction false} StepsFineIs(f: Flow, i: nat, k: Known)
    requires i <= |f.steps| && Knows(f, i, k)
    requires forall j :: i <= j < |f.steps| ==> UsedKnown(f.steps[j])
    ensures StepsOk(k, f.steps[i..]) <==> forall j :: i <= j < |f.steps| ==> StepFine(f, j)
    ensures StepsOk(k, f.steps[i..]) ==> Knows(f, |f.steps|, AfterAll(k, f.steps[i..]))
    decreases |f.steps| - i
  {
    hide Knows, StepOk, StepFine, UsedKnown, After;
    if i == |f.steps| {
      assert f.steps[i..] == [];
    } else {
      var rest := f.steps[i..];
      assert rest[0] == f.steps[i] && rest[1..] == f.steps[i + 1..];
      StepFineIs(f, i, k);
      if StepOk(k, f.steps[i]) {
        FineKnowsNext(f, i, k);
        StepsFineIs(f, i + 1, After(k, f.steps[i]));
      }
    }
  }

  lemma FineKnowsNext(f: Flow, i: nat, k: Known)
    requires i < |f.steps| && Knows(f, i, k) && StepOk(k, f.steps[i])
    ensures Knows(f, i + 1, After(k, f.steps[i]))
  {
    hide Knows, ShapeOk, WithUse, After, RefsOk, UseOk, SessionOk;
    KnowsNext(f, i, k);
  }

  // ---------------------------------------------------------------- acceptance

  lemma OutputsFine(f: Flow, k: Known)
    requires Knows(f, |f.steps|, k)
    ensures OutputsOk(f.outputs, k.extracted) <==>
              && (forall i, j :: 0 <= i < j < |f.outputs| ==> f.outputs[i] != f.outputs[j])
              && (forall o :: o in f.outputs ==> IsIdent(o) && ExtractedBefore(f, |f.steps|, o))
  {
    hide IsIdent, ExtractedBefore;
    assert forall i :: 0 <= i < |f.outputs| ==> f.outputs[i] in f.outputs;
  }

  /** The check accepts a flow if and only if its positions are all fine. */
  lemma {:induction false} AcceptedExactly(f: Flow, pools: set<string>, used: bool)
    ensures FlowOk(f, pools, used) <==> Acceptable(f, pools, used)
    decreases f
  {
    hide Knows, StepOk, StepFine, InputsFine, InputsOk, IsIdent, AfterAll, Start, ExtractedBefore, Passes, OutputsOk;
    forall j | 0 <= j < |f.steps|
      ensures UsedKnown(f.steps[j])
    {
      if f.steps[j].kind.Use? && f.steps[j].kind.flow.Some? {
        AcceptedExactly(f.steps[j].kind.flow.value, {}, true);
      }
    }
    StartKnows(f);
    StepsFineIs(f, 0, Start(f));
    assert f.steps[0..] == f.steps;
    InputsFineIs(f.inputs);
    AllFine(f);
    if StepsOk(Start(f), f.steps) {
      OutputsFine(f, AfterAll(Start(f), f.steps));
    }
  }

  lemma AllFine(f: Flow)
    ensures (forall j :: 0 <= j < |f.steps| ==> StepFine(f, j)) <==>
              && (forall i, j :: 0 <= i < j < |f.steps| ==> f.steps[i].id != f.steps[j].id)
              && (forall i :: 0 <= i < |f.steps| ==> Shaped(f.steps[i]) && Placed(f, i))
              && (forall i :: 0 <= i < |f.steps| ==> UsedFine(f.steps[i]))
  {
    hide Shaped, Placed, UsedFine;
    if forall j :: 0 <= j < |f.steps| ==> StepFine(f, j) {
      forall i, j | 0 <= i < j < |f.steps|
        ensures f.steps[i].id != f.steps[j].id
      {
        assert StepFine(f, j);
      }
      forall i | 0 <= i < |f.steps|
        ensures Shaped(f.steps[i]) && Placed(f, i) && UsedFine(f.steps[i])
      {
        assert StepFine(f, i);
      }
    }
  }
}

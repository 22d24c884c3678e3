/** What a step can see and what it hands on (internal/executor/scope.go and iteration.go): references looked up in
    a scope, fields expanded reference by reference, used flows given their inputs and leaving their outcome, and
    steps that follow one another. */
module Scoping {
  import opened FlowIr
  import opened Options
  import opened Sequences
  import opened Interp
  import opened Verdicts

  // ---------------------------------------------------------------- references

  /** "env.x" is the environment's x and never anything else; below the pool's name is the row's column; any
      other reference is the variable of exactly that name, and one not set yet is told from one that is
      missing. */
  lemma ScopeTold(cx: Context, vars: map<string, Value>, x: string)
    ensures ScopeValue(cx, vars, "env." + x) == if cx.env(x).Some? then Found(Str(cx.env(x).value)) else Missing
    ensures ScopeValue(cx, vars, "env") == Missing
    ensures '.' !in cx.pool && cx.pool !in {"", "env"} ==>
              ScopeValue(cx, vars, cx.pool + "." + x)
              == if cx.row(x).Some? then Found(Str(cx.row(x).value)) else Missing
    ensures Root(x) !in {"env", cx.pool} || Root(x) == "" ==>
              ScopeValue(cx, vars, x) == if x in vars then Found(vars[x]) else NoValueYet
  {
    CutJoin("env", x);
    assert "env" + "." + x == "env." + x;
    CutIsWhole("env");
    RootOfEnv();
    if '.' !in cx.pool {
      CutJoin(cx.pool, x);
    }
  }

  lemma RootOfEnv()
    ensures Root("env") == "env" && !HasDot("env")
  {
    assert "env"[1..] == "nv" && "nv"[1..] == "v" && "v"[1..] == "";
    assert Root("v") == "v";
    assert Root("nv") == "nv";
  }

  /** A used flow sees the same environment and the same answers, and no column of the caller's row: what is
      not in the environment is a variable of its own or nothing. */
  lemma ChildSees(cx: Context, vars: map<string, Value>, x: string)
    ensures var child := ChildContext(cx);
            && child.mode == cx.mode && child.world == cx.world
            && ScopeValue(child, vars, "env." + x) == ScopeValue(cx, vars, "env." + x)
            && (Root(x) != "env" ==> ScopeValue(child, vars, x) == if x in vars then Found(vars[x]) else NoValueYet)
  {
    ScopeTold(cx, vars, x);
    ScopeTold(ChildContext(cx), vars, x);
  }

  /** What is not found injects nothing, and no more does a null inside a text; a null that is the whole of a
      JSON value is one, and any other value is its text. */
  lemma InjectedTold(s: string, whole: bool)
    ensures Injected(Missing, whole) == Injected(NoValueYet, whole) == None
    ensures Injected(Found(Str(s)), whole) == Injected(Found(Json(s)), whole) == Some(s)
    ensures Injected(Found(Null), true) == Some("null") && Injected(Found(Null), false) == None
  {
  }

  // ---------------------------------------------------------------- fields

  /** The references without a value yet, in order. */
  function Unset(cx: Context, vars: map<string, Value>, refs: seq<string>): seq<Event> {
    if refs == [] then [] else
      (if ScopeValue(cx, vars, refs[0]).NoValueYet? then [NoValue(refs[0])] else []) + Unset(cx, vars, refs[1..])
  }

  lemma {:induction false} ExpandNotes(cx: Context, vars: map<string, Value>, sh: Shared, t: Templated)
    ensures Expand(cx, vars, sh, t).0 == sh.(log := sh.log + Unset(cx, vars, RefsIn(t)))
    decreases t
  {
    hide ScopeValue;
    if t == [] {
      assert sh.log + [] == sh.log;
    } else if t[0].Text? {
      ExpandNotes(cx, vars, sh, t[1..]);
    } else {
      var name := t[0].name;
      var none := ScopeValue(cx, vars, name).NoValueYet?;
      ExpandNotes(cx, vars, if none then Note(sh, NoValue(name)) else sh, t[1..]);
      var all := [name] + RefsIn(t[1..]);
      assert all[0] == name && all[1..] == RefsIn(t[1..]);
      Assoc(sh.log, if none then [NoValue(name)] else [], Unset(cx, vars, RefsIn(t[1..])));
      assert sh.log + [] == sh.log;
    }
  }

  /** Expanding a field part by part: a field is the text of its first part before the text of the rest,
      wherever it is cut; a piece of text is itself; a reference is what it injects. The notes made so far do
      not matter. */
  lemma {:induction false} ExpandTold(cx: Context, vars: map<string, Value>, sh: Shared, sh': Shared, a: Templated,
                                      b: Templated, s: string, name: string, whole: bool)
    ensures Expand(cx, vars, sh, a + b).1 == Concat(Expand(cx, vars, sh', a).1, Expand(cx, vars, sh', b).1)
    ensures Expand(cx, vars, sh, [Text(s)]).1 == Some(s)
    ensures Expand(cx, vars, sh, [Ref(name, whole)]).1 == Injected(ScopeValue(cx, vars, name), whole)
    decreases a
  {
    hide ScopeValue, Injected;
    ExpandOne(cx, vars, sh, s, name, whole);
    if a == [] {
      assert a + b == b;
      ExpandAnywhere(cx, vars, sh, sh', b);
      var r := Expand(cx, vars, sh', b).1;
      assert r.Some? ==> "" + r.value == r.value;
    } else {
      assert (a + b)[0] == a[0] && (a + b)[1..] == a[1..] + b;
      ExpandFirst(cx, vars, sh, a + b);
      ExpandFirst(cx, vars, sh', a);
      ExpandTold(cx, vars, sh, sh', a[1..], b, s, name, whole);
      ExpandAnywhere(cx, vars, sh, sh', [a[0]]);
      ExpandAnywhere(cx, vars, sh, sh', b);
      ConcatAssoc(Expand(cx, vars, sh', [a[0]]).1, Expand(cx, vars, sh', a[1..]).1, Expand(cx, vars, sh', b).1);
    }
  }

  lemma ExpandOne(cx: Context, vars: map<string, Value>, sh: Shared, s: string, name: string, whole: bool)
    ensures Expand(cx, vars, sh, [Text(s)]).1 == Some(s)
    ensures Expand(cx, vars, sh, [Ref(name, whole)]).1 == Injected(ScopeValue(cx, vars, name), whole)
  {
    hide ScopeValue, Injected;
    var t, r := [Text(s)], [Ref(name, whole)];
    assert t[0] == Text(s) && t[1..] == [] && r[0] == Ref(name, whole) && r[1..] == [];
    assert s + "" == s;
    var i := Injected(ScopeValue(cx, vars, name), whole);
    assert i.Some? ==> i.value + "" == i.value;
  }

  lemma ExpandFirst(cx: Context, vars: map<string, Value>, sh: Shared, t: Templated)
    requires t != []
    ensures Expand(cx, vars, sh, t).1 == Concat(Expand(cx, vars, sh, [t[0]]).1, Expand(cx, vars, sh, t[1..]).1)
  {
    hide ScopeValue, Injected;
    match t[0] {
      case Text(s) => ExpandOne(cx, vars, sh, s, "", false);
      case Ref(name, whole) =>
        ExpandOne(cx, vars, sh, "", name, whole);
        ExpandAnywhere(cx, vars, if ScopeValue(cx, vars, name).NoValueYet? then Note(sh, NoValue(name)) else sh, sh,
                       t[1..]);
    }
  }

  lemma {:induction false} ExpandAnywhere(cx: Context, vars: map<string, Value>, sh: Shared, sh': Shared, t: Templated)
    ensures Expand(cx, vars, sh, t).1 == Expand(cx, vars, sh', t).1
    decreases t
  {
    hide ScopeValue, Injected;
    if t != [] {
      match t[0] {
        case Text(_) => ExpandAnywhere(cx, vars, sh, sh', t[1..]);
        case Ref(name, _) =>
          var none := ScopeValue(cx, vars, name).NoValueYet?;
          ExpandAnywhere(cx, vars, if none then Note(sh, NoValue(name)) else sh,
                         if none then Note(sh', NoValue(name)) else sh', t[1..]);
      }
    }
  }

  /** Fields in order: all succeed exactly when each one does. */
  lemma {:induction false} ExpandAllTold(cx: Context, vars: map<string, Value>, sh: Shared, sh': Shared,
                                         ts: seq<Templated>)
    ensures ExpandAll(cx, vars, sh, ts).1 <==> forall i :: 0 <= i < |ts| ==> Expand(cx, vars, sh', ts[i]).1.Some?
    decreases ts
  {
    hide Expand;
    if ts != [] {
      var (sh1, s) := Expand(cx, vars, sh, ts[0]);
      ExpandAnywhere(cx, vars, sh, sh', ts[0]);
      ExpandAllTold(cx, vars, sh1, sh', ts[1..]);
      if s.Some? && forall i :: 0 <= i < |ts[1..]| ==> Expand(cx, vars, sh', ts[1..][i]).1.Some? {
        forall i | 0 <= i < |ts|
          ensures Expand(cx, vars, sh', ts[i]).1.Some?
        {
          assert i > 0 ==> ts[i] == ts[1..][i - 1];
        }
      }
      if forall i :: 0 <= i < |ts| ==> Expand(cx, vars, sh', ts[i]).1.Some? {
        forall i | 0 <= i < |ts[1..]|
          ensures Expand(cx, vars, sh', ts[1..][i]).1.Some?
        {
          assert ts[1..][i] == ts[i + 1];
        }
      }
    }
  }

  // ---------------------------------------------------------------- inputs

  /** The text an input gets once those before it are bound: what was passed, in the caller's scope; else the
      default, in the used flow's own; nothing when there is neither. */
  function InputText(cx: Context, callerVars: map<string, Value>, with: map<string, Templated>, i: Input,
                     vars: map<string, Value>): Option<string> {
    if i.name in with then Expand(cx, callerVars, NOTHING_YET, with[i.name]).1
    else if i.default.Some? then Expand(ChildContext(cx), vars, NOTHING_YET, i.default.value).1
    else None
  }

  /** After `n` inputs: each of them has its text, unless a later one has the same name, and nothing else is
      changed. */
  ghost predicate InputsBound(cx: Context, callerVars: map<string, Value>, with: map<string, Templated>,
                              ins: seq<Input>, vars: map<string, Value>, vars': map<string, Value>)
  {
    && (forall x :: x !in InputVars(ins) ==> (x in vars' <==> x in vars) && (x in vars ==> vars'[x] == vars[x]))
    && (forall j :: 0 <= j < |ins| && ins[j].name !in NamesOf(ins[j + 1..]) ==>
          HasOwn(cx, callerVars, with, ins, j, vars, vars'))
  }

  /** Input `j` holds the text it gets when those before it are bound. */
  ghost predicate HasOwn(cx: Context, callerVars: map<string, Value>, with: map<string, Templated>, ins: seq<Input>,
                         j: nat, vars: map<string, Value>, vars': map<string, Value>)
    requires j < |ins|
  {
    var before := BindInputs(cx, callerVars, with, ins[..j], vars, NOTHING_YET).0;
    var x, text := "inputs." + ins[j].name, InputText(cx, callerVars, with, ins[j], before);
    text.Some? && x in vars' && vars'[x] == Str(text.value)
  }

  function NamesOf(ins: seq<Input>): seq<string> {
    seq(|ins|, k requires 0 <= k < |ins| => ins[k].name)
  }

  /** Inputs are bound if and only if each gets a text, and then each one holds its own. */
  lemma {:induction false} InputsTold(cx: Context, callerVars: map<string, Value>, with: map<string, Templated>,
                                      ins: seq<Input>, vars: map<string, Value>, sh: Shared)
    ensures var r := BindInputs(cx, callerVars, with, ins, vars, sh);
            && (r.2 ==> InputsBound(cx, callerVars, with, ins, vars, r.0))
            && (r.2 <==> forall j :: 0 <= j < |ins| ==> GetsText(cx, callerVars, with, ins, j, vars))
    decreases ins
  {
    hide Expand, InputText, InputsBound, GetsText;
    var r := BindInputs(cx, callerVars, with, ins, vars, sh);
    if ins == [] {
      NoInputs(cx, callerVars, with, vars);
    } else {
      var i := ins[0];
      BindFirst(cx, callerVars, with, ins, vars, sh);
      FirstGetsText(cx, callerVars, with, ins, vars);
      var text := InputText(cx, callerVars, with, i, vars);
      if text.Some? {
        var vars1 := vars["inputs." + i.name := Str(text.value)];
        InputsTold(cx, callerVars, with, ins[1..], vars1, sh);
        forall j | 0 < j < |ins|
          ensures GetsText(cx, callerVars, with, ins, j, vars)
                  <==> GetsText(cx, callerVars, with, ins[1..], j - 1, vars1)
        {
          LaterGetsText(cx, callerVars, with, ins, vars, text.value, j);
        }
        GetTextSplits(cx, callerVars, with, ins, vars, vars1);
        if r.2 {
          MoreBound(cx, callerVars, with, ins, vars, text.value, r.0);
        }
      }
    }
  }

  /** Input `j` gets a text when those before it are bound. */
  ghost predicate GetsText(cx: Context, callerVars: map<string, Value>, with: map<string, Templated>, ins: seq<Input>,
                           j: int, vars: map<string, Value>)
  {
    0 <= j < |ins| && InputText(cx, callerVars, with, ins[j],
                                BindInputs(cx, callerVars, with, ins[..j], vars, NOTHING_YET).0).Some?
  }

  lemma GetTextSplits(cx: Context, callerVars: map<string, Value>, with: map<string, Templated>, ins: seq<Input>,
                      vars: map<string, Value>, vars1: map<string, Value>)
    requires ins != []
    requires forall j :: 0 < j < |ins| ==>
               (GetsText(cx, callerVars, with, ins, j, vars)
                <==> GetsText(cx, callerVars, with, ins[1..], j - 1, vars1))
    ensures (forall j :: 0 <= j < |ins| ==> GetsText(cx, callerVars, with, ins, j, vars))
            <==> GetsText(cx, callerVars, with, ins, 0, vars)
                 && forall j :: 0 <= j < |ins[1..]| ==> GetsText(cx, callerVars, with, ins[1..], j, vars1)
  {
    hide GetsText;
    if forall j :: 0 <= j < |ins| ==> GetsText(cx, callerVars, with, ins, j, vars) {
      forall j | 0 <= j < |ins[1..]|
        ensures GetsText(cx, callerVars, with, ins[1..], j, vars1)
      {
        assert GetsText(cx, callerVars, with, ins, j + 1, vars);
      }
    }
  }

  lemma FirstGetsText(cx: Context, callerVars: map<string, Value>, with: map<string, Templated>, ins: seq<Input>,
                      vars: map<string, Value>)
    requires ins != []
    ensures GetsText(cx, callerVars, with, ins, 0, vars) <==> InputText(cx, callerVars, with, ins[0], vars).Some?
  {
    hide InputText;
    assert ins[..0] == [];
  }

  lemma LaterGetsText(cx: Context, callerVars: map<string, Value>, with: map<string, Templated>, ins: seq<Input>,
                      vars: map<string, Value>, text: string, j: nat)
    requires 0 < j < |ins| && InputText(cx, callerVars, with, ins[0], vars) == Some(text)
    ensures var vars1 := vars["inputs." + ins[0].name := Str(text)];
            && BindInputs(cx, callerVars, with, ins[..j], vars, NOTHING_YET).0
               == BindInputs(cx, callerVars, with, ins[1..][..j - 1], vars1, NOTHING_YET).0
            && (GetsText(cx, callerVars, with, ins, j, vars)
                <==> GetsText(cx, callerVars, with, ins[1..], j - 1, vars1))
  {
    hide InputText, BindInputs;
    assert ins[..j][0] == ins[0] && ins[..j][1..] == ins[1..][..j - 1];
    BindFirst(cx, callerVars, with, ins[..j], vars, NOTHING_YET);
  }

  /** Binding the first input; the notes made so far do not matter. */
  lemma BindFirst(cx: Context, callerVars: map<string, Value>, with: map<string, Templated>, ins: seq<Input>,
                  vars: map<string, Value>, sh: Shared)
    requires ins != []
    ensures var r, text := BindInputs(cx, callerVars, with, ins, vars, sh),
                           InputText(cx, callerVars, with, ins[0], vars);
            if text.None? then !r.2
            else
              var rest := BindInputs(cx, callerVars, with, ins[1..],
                                     vars["inputs." + ins[0].name := Str(text.value)], sh);
              r.0 == rest.0 && r.2 == rest.2
  {
    hide Expand;
    var i := ins[0];
    if i.name in with {
      ExpandAnywhere(cx, callerVars, sh, NOTHING_YET, with[i.name]);
    } else if i.default.Some? {
      ExpandAnywhere(ChildContext(cx), vars, sh, NOTHING_YET, i.default.value);
    }
    var text := InputText(cx, callerVars, with, i, vars);
    if text.Some? {
      var sh1 := if i.name in with then Expand(cx, callerVars, sh, with[i.name]).0
                 else Expand(ChildContext(cx), vars, sh, i.default.value).0;
      BindAnywhere(cx, callerVars, with, ins[1..], vars["inputs." + i.name := Str(text.value)], sh1, sh);
    }
  }

  lemma {:induction false} BindAnywhere(cx: Context, callerVars: map<string, Value>, with: map<string, Templated>,
                                        ins: seq<Input>, vars: map<string, Value>, sh: Shared, sh': Shared)
    ensures var r, r' := BindInputs(cx, callerVars, with, ins, vars, sh),
                         BindInputs(cx, callerVars, with, ins, vars, sh');
            r.0 == r'.0 && r.2 == r'.2
    decreases ins
  {
    hide Expand;
    if ins != [] {
      var i := ins[0];
      if i.name in with {
        ExpandAnywhere(cx, callerVars, sh, sh', with[i.name]);
        var (s, t) := Expand(cx, callerVars, sh, with[i.name]);
        if t.Some? {
          BindAnywhere(cx, callerVars, with, ins[1..], vars["inputs." + i.name := Str(t.value)], s,
                       Expand(cx, callerVars, sh', with[i.name]).0);
        }
      } else if i.default.Some? {
        var child := ChildContext(cx);
        ExpandAnywhere(child, vars, sh, sh', i.default.value);
        var (s, t) := Expand(child, vars, sh, i.default.value);
        if t.Some? {
          BindAnywhere(cx, callerVars, with, ins[1..], vars["inputs." + i.name := Str(t.value)], s,
                       Expand(child, vars, sh', i.default.value).0);
        }
      }
    }
  }

  lemma NoInputs(cx: Context, callerVars: map<string, Value>, with: map<string, Templated>, vars: map<string, Value>)
    ensures InputsBound(cx, callerVars, with, [], vars, vars)
  {
  }

  lemma MoreBound(cx: Context, callerVars: map<string, Value>, with: map<string, Templated>, ins: seq<Input>,
                  vars: map<string, Value>, text: string, vars': map<string, Value>)
    requires ins != [] && InputText(cx, callerVars, with, ins[0], vars) == Some(text)
    requires InputsBound(cx, callerVars, with, ins[1..], vars["inputs." + ins[0].name := Str(text)], vars')
    ensures InputsBound(cx, callerVars, with, ins, vars, vars')
  {
    hide InputText, HasOwn;
    FirstInputVar(ins);
    forall j: nat | j < |ins| && ins[j].name !in NamesOf(ins[j + 1..])
      ensures HasOwn(cx, callerVars, with, ins, j, vars, vars')
    {
      if j == 0 {
        NameIsInput(ins[1..], ins[0].name);
        FirstOwn(cx, callerVars, with, ins, vars, text, vars');
      } else {
        assert ins[1..][j..] == ins[j + 1..] && ins[1..][j - 1] == ins[j];
        LaterOwn(cx, callerVars, with, ins, vars, text, j, vars');
      }
    }
  }

  lemma FirstOwn(cx: Context, callerVars: map<string, Value>, with: map<string, Templated>, ins: seq<Input>,
                 vars: map<string, Value>, text: string, vars': map<string, Value>)
    requires ins != [] && InputText(cx, callerVars, with, ins[0], vars) == Some(text)
    requires var x := "inputs." + ins[0].name; x in vars' && vars'[x] == Str(text)
    ensures HasOwn(cx, callerVars, with, ins, 0, vars, vars')
  {
    hide InputText, BindInputs;
    NoneBefore(cx, callerVars, with, ins, vars);
  }

  lemma LaterOwn(cx: Context, callerVars: map<string, Value>, with: map<string, Templated>, ins: seq<Input>,
                 vars: map<string, Value>, text: string, j: nat, vars': map<string, Value>)
    requires 0 < j < |ins| && InputText(cx, callerVars, with, ins[0], vars) == Some(text)
    requires HasOwn(cx, callerVars, with, ins[1..], j - 1, vars["inputs." + ins[0].name := Str(text)], vars')
    ensures HasOwn(cx, callerVars, with, ins, j, vars, vars')
  {
    hide InputText, BindInputs;
    assert ins[1..][j - 1] == ins[j];
    LaterGetsText(cx, callerVars, with, ins, vars, text, j);
  }

  lemma NoneBefore(cx: Context, callerVars: map<string, Value>, with: map<string, Templated>, ins: seq<Input>,
                   vars: map<string, Value>)
    ensures BindInputs(cx, callerVars, with, ins[..0], vars, NOTHING_YET).0 == vars
  {
    assert ins[..0] == [];
  }

  lemma FirstInputVar(ins: seq<Input>)
    requires ins != []
    ensures InputVars(ins) == {"inputs." + ins[0].name} + InputVars(ins[1..])
  {
    forall i | 0 <= i < |ins|
      ensures "inputs." + ins[i].name in {"inputs." + ins[0].name} + InputVars(ins[1..])
    {
      assert i > 0 ==> ins[i] == ins[1..][i - 1];
    }
    forall i | 0 <= i < |ins[1..]|
      ensures "inputs." + ins[1..][i].name in InputVars(ins)
    {
      assert ins[1..][i] == ins[i + 1];
    }
  }

  lemma NameIsInput(ins: seq<Input>, name: string)
    ensures "inputs." + name in InputVars(ins) <==> name in NamesOf(ins)
  {
    forall i | 0 <= i < |ins| && "inputs." + ins[i].name == "inputs." + name
      ensures NamesOf(ins)[i] == name
    {
      assert ("inputs." + name)[7..] == name && ("inputs." + ins[i].name)[7..] == ins[i].name;
    }
    if name in NamesOf(ins) {
      var i :| 0 <= i < |ins| && NamesOf(ins)[i] == name;
      assert "inputs." + ins[i].name == "inputs." + name;
    }
  }

  // ---------------------------------------------------------------- used flows

  /** A used flow's failures are reported under the use step, one for one and in order. */
  lemma {:induction false} PrefixedTold(id: string, fs: seq<Failure>)
    ensures |Prefixed(id, fs)| == |fs|
    ensures forall k :: 0 <= k < |fs| ==> Prefixed(id, fs)[k] == Failure(id + "/" + fs[k].stepId, fs[k].detail)
    decreases fs
  {
    if fs != [] {
      PrefixedTold(id, fs[1..]);
    }
  }

  /** How a use step leaves its flow, which ended as `sub`: what the caller's level takes over, that the used
      flow's connections are closed and no other, and how the step ends. An error inside is one of the step; an
      abort inside stops the run; a failure inside fails the step and takes its action. */
  ghost predicate Left(cx: Context, st: Step, f: Flow, fr: Frame, sub: Result, r: Result) {
    && r.err == sub.err
    && r.fr.ws == fr.ws && r.fr.failures == fr.failures + Prefixed(st.id, sub.fr.failures)
    && r.fr.throttled == (fr.throttled || sub.fr.throttled)
    && r.sh.tick == sub.sh.tick && r.sh.dialled == sub.sh.dialled
    && r.sh.closed == sub.sh.closed + multiset(Conns(sub.fr.ws))
    && if sub.err then !r.cont && r.out == sub.out && r.fr.vars == fr.vars
       else
         && r.cont == (!sub.fr.aborted && (sub.fr.failures == [] || Action(cx, st) == Record))
         && r.fr.aborted == (fr.aborted || sub.fr.aborted || (sub.fr.failures != [] && Action(cx, st) == AbortRun))
         && r.out == (if !sub.fr.aborted && sub.fr.failures != [] then Some(Failed) else sub.out)
         && r.fr.vars == GiveOutputs(st.id, f.outputs, sub.fr.vars, fr.vars)
  }

  lemma LeaveTold(cx: Context, st: Step, f: Flow, fr: Frame, sub: Result)
    requires sub.out.Some?
    ensures Left(cx, st, f, fr, sub, LeaveUse(cx, st, f, fr, sub))
  {
    hide GiveOutputs, Prefixed, Binds, EffectiveAction, Conns;
  }

  /** A use step over the run of its flow, which starts with its inputs for variables and nothing else. */
  lemma UseTold(cx: Context, st: Step, path: seq<string>, fr: Frame, sh: Shared)
    requires st.kind.Use? && st.kind.flow.Some?
    ensures var f, r := st.kind.flow.value, RunUse(cx, st, path, fr, sh);
            var ins := BindInputs(cx, fr.vars, st.kind.with, f.inputs, map[], sh);
            var start := Frame(ins.0, map[], [], false, false);
            if !ins.2 then r.err && !r.cont && r.out == None && r.fr == fr && r.sh == ins.1
            else Left(cx, st, f, fr, RunSteps(ChildContext(cx), f.steps, path + [st.id], start, ins.1, Ok), r)
  {
    hide RunSteps, BindInputs, LeaveUse, Left;
    var f := st.kind.flow.value;
    var ins := BindInputs(cx, fr.vars, st.kind.with, f.inputs, map[], sh);
    var start := FRESH_FRAME.(vars := ins.0);
    LeaveTold(cx, st, f, fr, RunSteps(ChildContext(cx), f.steps, path + [st.id], start, ins.1, Ok));
  }

  // ---------------------------------------------------------------- steps

  /** Steps cut in two anywhere: the second part runs exactly when the first one ran to its end, from what it
      left. */
  lemma {:induction false} StepsThen(cx: Context, a: seq<Step>, b: seq<Step>, path: seq<string>, fr: Frame, sh: Shared,
                                     out: Outcome)
    ensures var r := RunSteps(cx, a, path, fr, sh, out);
            RunSteps(cx, a + b, path, fr, sh, out)
            == if r.err || !r.cont then r else RunSteps(cx, b, path, r.fr, r.sh, r.out.value)
    decreases a
  {
    hide RunStep, Worst;
    if a == [] {
      assert a + b == b;
    } else {
      assert (a + b)[0] == a[0] && (a + b)[1..] == a[1..] + b;
      var s := RunStep(cx, a[0], path, fr, sh);
      var out1 := if s.out.Some? then Worst(out, s.out.value) else out;
      StepsThen(cx, a[1..], b, path, s.fr, s.sh, out1);
    }
  }

  /** One step: noted as started, then run as its kind says; its error or its wish to stop is the run's, and of
      its outcome and the one so far the worse is left. */
  lemma StepTold(cx: Context, st: Step, path: seq<string>, fr: Frame, sh: Shared, out: Outcome)
    ensures var r := RunSteps(cx, [st], path, fr, sh, out);
            var sh1 := Note(sh, Started(path + [st.id]));
            var s := match st.kind
              case Request(_, _) => RunRequest(cx, st, path, fr, sh1)
              case Socket(_, _, _, _, _, _) => RunSocket(cx, st, path, fr, sh1)
              case Use(_, _, _) => RunUse(cx, st, path, fr, sh1)
              case Wait => Result(fr, sh1, Some(Ok), true, false)
              case Poll(_) => Stop(fr, sh1, None);
            && r.fr == s.fr && r.sh == s.sh && r.err == s.err && r.cont == (s.cont && !s.err)
            && r.out == Some(if s.out.Some? then Worst(out, s.out.value) else out)
  {
    hide RunRequest, RunSocket, RunUse, Worst;
    assert [st][0] == st && [st][1..] == [];
  }

  /** No steps leave everything as it is. */
  lemma NoSteps(cx: Context, path: seq<string>, fr: Frame, sh: Shared, out: Outcome)
    ensures RunSteps(cx, [], path, fr, sh, out) == Result(fr, sh, Some(out), true, false)
  {
  }
}

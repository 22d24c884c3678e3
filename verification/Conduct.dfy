/** How failures, throttles and aborts travel through nested flows (internal/executor/iteration.go,
    `runSteps` and `runUse`): what a reader of the whole run noted down is exactly what its top level
    reports. */
module Conduct {
  import opened FlowIr
  import opened Options
  import opened Interp

  /** Whether a reference was found without a value before the flow had gone on without one it was due. */
  datatype Mood = Calm | Lacking | Caught

  /** What the notes of a run amount to. */
  datatype Digest = Digest(
    failures: seq<(seq<string>, string)>,  // every failure recorded at any depth, with its full path
    throttles: nat,                        // throttles seen at any depth
    aborts: nat,                           // times some step asked to abort the run
    ranOn: bool,                           // some step started after that
    mood: Mood)                            // calm until some flow goes on without a value, unless caught first

  function From(m: Mood, next: Mood): Mood {
    if m == Calm then next else m
  }

  function Feed(d: Digest, e: Event): Digest {
    match e
    case Started(_) => d.(ranOn := d.ranOn || d.aborts > 0)
    case Recorded(path, detail) => d.(failures := d.failures + [(path, detail)])
    case SawThrottle => d.(throttles := d.throttles + 1)
    case AskedAbort => d.(aborts := d.aborts + 1)
    case WentWithout(_) => d.(mood := From(d.mood, Lacking))
    case NoValue(_) => d.(mood := From(d.mood, Caught))
    case _ => d
  }

  function Read(log: seq<Event>): Digest {
    if log == [] then Digest([], 0, 0, false, Calm) else Feed(Read(log[..|log| - 1]), log[|log| - 1])
  }

  lemma ReadNote(sh: Shared, e: Event)
    ensures Read(Note(sh, e).log) == Feed(Read(sh.log), e)
  {
    assert (sh.log + [e])[..|sh.log|] == sh.log;
  }

  /** A step started after some step had asked to abort the run. */
  ghost predicate RanOn(log: seq<Event>) {
    exists i, j :: 0 <= i < j < |log| && log[i].AskedAbort? && log[j].Started?
  }

  /** The notes up to `n` tell of no flow that went on without a value and of no reference without one. */
  predicate CalmUpTo(log: seq<Event>, n: int) {
    forall i :: 0 <= i < n && i < |log| ==> !log[i].WentWithout? && !log[i].NoValue?
  }

  /** The flags of the digest, over the notes by their positions. */
  lemma {:induction false} FlagsTold(log: seq<Event>)
    ensures var d := Read(log);
            && (d.throttles > 0 <==> exists i :: 0 <= i < |log| && log[i].SawThrottle?)
            && (d.aborts > 0 <==> exists i :: 0 <= i < |log| && log[i].AskedAbort?)
            && (d.ranOn <==> RanOn(log))
    decreases |log|
  {
    if log != [] {
      var n := |log| - 1;
      FlagsTold(log[..n]);
      assert log == log[..n] + [log[n]];
      hide RanOn, Read;
      RanOnMore(log[..n], log[n]);
      ReadLast(log);
    }
  }

  lemma ReadLast(log: seq<Event>)
    requires log != []
    ensures Read(log) == Feed(Read(log[..|log| - 1]), log[|log| - 1])
  {
    hide Feed;
  }

  lemma RanOnMore(init: seq<Event>, e: Event)
    ensures RanOn(init + [e]) <==>
              RanOn(init) || (e.Started? && exists i :: 0 <= i < |init| && init[i].AskedAbort?)
  {
    var log := init + [e];
    if RanOn(init) {
      var i, j :| 0 <= i < j < |init| && init[i].AskedAbort? && init[j].Started?;
      assert log[i].AskedAbort? && log[j].Started?;
    }
    if e.Started? && exists i :: 0 <= i < |init| && init[i].AskedAbort? {
      var i :| 0 <= i < |init| && init[i].AskedAbort?;
      assert log[i].AskedAbort? && log[|init|].Started?;
    }
  }

  /** The mood of the digest is calm when no such note was made; else the first one tells which it is. */
  lemma {:induction false} MoodTold(log: seq<Event>)
    ensures var d := Read(log);
            && (d.mood == Calm <==> CalmUpTo(log, |log|))
            && (forall i :: 0 <= i < |log| && CalmUpTo(log, i) ==>
                  (log[i].WentWithout? ==> d.mood == Lacking) && (log[i].NoValue? ==> d.mood == Caught))
    decreases |log|
  {
    if log != [] {
      var n := |log| - 1;
      var init := log[..n];
      MoodTold(init);
      ReadLast(log);
      assert CalmUpTo(init, n) <==> CalmUpTo(log, n);
      forall i | 0 <= i < n && CalmUpTo(log, i)
        ensures CalmUpTo(init, i)
        ensures log[i].WentWithout? ==> Read(log).mood == Lacking
        ensures log[i].NoValue? ==> Read(log).mood == Caught
      {
        assert log[i] == init[i];
      }
    }
  }

  /** The failures of one part of the notes and then those of the rest, each with its path and detail. */
  lemma {:induction false} FailuresThen(a: seq<Event>, b: seq<Event>, path: seq<string>, detail: string)
    ensures Read(a + b).failures == Read(a).failures + Read(b).failures
    ensures Read([Recorded(path, detail)]).failures == [(path, detail)]
    ensures (forall e :: e in b ==> !e.Recorded?) ==> Read(b).failures == []
    decreases |b|
  {
    hide Read;
    SingleFailure(path, detail);
    if b == [] {
      assert a + b == a;
    } else {
      var n := |b| - 1;
      FailuresThen(a, b[..n], path, detail);
      assert (a + b)[..|a + b| - 1] == a + b[..n] && (a + b)[|a + b| - 1] == b[n];
      ReadLast(a + b);
      ReadLast(b);
    }
  }

  lemma SingleFailure(path: seq<string>, detail: string)
    ensures Read([Recorded(path, detail)]).failures == [(path, detail)] && Read([]).failures == []
  {
    assert [Recorded(path, detail)][..0] == [];
  }

  /** A step's path within the levels around it, as failure reports spell it. */
  function Join(path: seq<string>): string {
    if path == [] then "" else if |path| == 1 then path[0] else path[0] + "/" + Join(path[1..])
  }

  /** The failures a level `depth` use steps down reports. */
  function Local(fs: seq<(seq<string>, string)>, depth: nat): seq<Failure>
    requires forall k :: 0 <= k < |fs| ==> depth <= |fs[k].0|
  {
    seq(|fs|, k requires 0 <= k < |fs| => Failure(Join(fs[k].0[depth..]), fs[k].1))
  }

  /** All of these happened in steps strictly inside the level at `path`. */
  ghost predicate Under(path: seq<string>, fs: seq<(seq<string>, string)>) {
    forall k :: 0 <= k < |fs| ==> path < fs[k].0
  }

  /** From (fr, sh) to (fr', sh'), the level at `path` took in exactly what was noted: each failure
      once, in order, under its path from here; a throttle or an abort if and only if there was one;
      and no step started once an abort was asked for. */
  ghost predicate Follows(path: seq<string>, fr: Frame, sh: Shared, fr': Frame, sh': Shared) {
    var d, e := Read(sh.log), Read(sh'.log);
    && d.failures <= e.failures
    && Under(path, e.failures[|d.failures|..])
    && fr'.failures == fr.failures + Local(e.failures[|d.failures|..], |path|)
    && d.throttles <= e.throttles && (fr'.throttled <==> fr.throttled || d.throttles < e.throttles)
    && d.aborts <= e.aborts && (fr'.aborted <==> fr.aborted || d.aborts < e.aborts)
    && (d.aborts == 0 && !d.ranOn ==> !e.ranOn)
    && (d.mood == Calm || e.mood == d.mood)
  }

  /** What a step or a run of steps keeps to. */
  ghost predicate Conducted(path: seq<string>, fr: Frame, sh: Shared, r: Result) {
    && Follows(path, fr, sh, r.fr, r.sh)
    && (r.cont ==> Read(r.sh.log).aborts == Read(sh.log).aborts)
  }

  /** Nothing but missing values, found or left, was noted between the two. */
  ghost predicate Quiet(sh: Shared, sh': Shared) {
    var d, e := Read(sh.log), Read(sh'.log);
    e == d.(mood := e.mood) && (d.mood == Calm || e.mood == d.mood)
  }

  lemma QuietFollows(path: seq<string>, fr: Frame, sh: Shared, fr': Frame, sh': Shared)
    requires Quiet(sh, sh')
    requires fr'.failures == fr.failures && fr'.throttled == fr.throttled && fr'.aborted == fr.aborted
    ensures Follows(path, fr, sh, fr', sh')
  {
    hide Read;
  }

  lemma LocalConcat(x: seq<(seq<string>, string)>, y: seq<(seq<string>, string)>, path: seq<string>)
    requires Under(path, x) && Under(path, y)
    ensures Under(path, x + y) && Local(x + y, |path|) == Local(x, |path|) + Local(y, |path|)
  {
  }

  lemma FollowsTrans(path: seq<string>, fr: Frame, sh: Shared, fr1: Frame, sh1: Shared, fr2: Frame, sh2: Shared)
    requires Follows(path, fr, sh, fr1, sh1) && Follows(path, fr1, sh1, fr2, sh2)
    requires Read(sh1.log).aborts == Read(sh.log).aborts
    ensures Follows(path, fr, sh, fr2, sh2)
  {
    hide Read;
    var d, e, g := Read(sh.log).failures, Read(sh1.log).failures, Read(sh2.log).failures;
    LocalConcat(e[|d|..], g[|e|..], path);
    assert g[|d|..] == e[|d|..] + g[|e|..];
  }

  /** Going on from a result that asked to go on. */
  lemma Then(path: seq<string>, fr: Frame, sh: Shared, fr1: Frame, sh1: Shared, r: Result)
    requires Follows(path, fr, sh, fr1, sh1) && Read(sh1.log).aborts == Read(sh.log).aborts
    requires Conducted(path, fr1, sh1, r)
    ensures Conducted(path, fr, sh, r)
  {
    FollowsTrans(path, fr, sh, fr1, sh1, r.fr, r.sh);
    hide Read, Follows;
  }

  /** Going on after nothing of note. */
  lemma AfterQuiet(path: seq<string>, fr: Frame, sh: Shared, fr1: Frame, sh1: Shared, r: Result)
    requires Quiet(sh, sh1) && Conducted(path, fr1, sh1, r)
    requires fr1.failures == fr.failures && fr1.throttled == fr.throttled && fr1.aborted == fr.aborted
    ensures Conducted(path, fr, sh, r)
  {
    QuietFollows(path, fr, sh, fr1, sh1);
    Then(path, fr, sh, fr1, sh1, r);
  }

  // ---------------------------------------------------------------- leaves

  lemma OnwardQuiet(st: Step, fr: Frame, sh: Shared)
    ensures Quiet(sh, Onward(st, fr, sh))
  {
    ReadNote(sh, WentWithout(st.id));
    hide Read, Binds;
  }

  lemma QuietAfter(path: seq<string>, fr: Frame, sh: Shared, fr1: Frame, sh1: Shared, sh2: Shared)
    requires Follows(path, fr, sh, fr1, sh1) && Quiet(sh1, sh2)
    ensures Follows(path, fr, sh, fr1, sh2) && Read(sh2.log).aborts == Read(sh1.log).aborts
  {
    hide Read;
  }

  lemma {:induction false} ExpandQuiet(cx: Context, vars: map<string, Value>, sh: Shared, t: Templated)
    ensures Quiet(sh, Expand(cx, vars, sh, t).0)
    decreases t
  {
    if t != [] {
      match t[0] {
        case Text(_) => ExpandQuiet(cx, vars, sh, t[1..]);
        case Ref(name, _) =>
          ReadNote(sh, NoValue(name));
          ExpandQuiet(cx, vars, if ScopeValue(cx, vars, name).NoValueYet? then Note(sh, NoValue(name)) else sh, t[1..]);
      }
    }
  }

  lemma {:induction false} ExpandAllQuiet(cx: Context, vars: map<string, Value>, sh: Shared, ts: seq<Templated>)
    ensures Quiet(sh, ExpandAll(cx, vars, sh, ts).0)
    decreases ts
  {
    if ts != [] {
      ExpandQuiet(cx, vars, sh, ts[0]);
      ExpandAllQuiet(cx, vars, Expand(cx, vars, sh, ts[0]).0, ts[1..]);
    }
  }

  lemma FailConducted(cx: Context, st: Step, path: seq<string>, fr: Frame, sh: Shared, detail: string, out: Outcome)
    ensures Conducted(path, fr, sh, Fail(cx, st, path, fr, sh, detail, out))
  {
    hide Follows, Read, Onward;
    var r := Fail(cx, st, path, fr, sh, detail, out);
    var sh1 := Note(sh, Recorded(path + [st.id], detail));
    if EffectiveAction(st.onFailure, cx.mode) == AbortRun {
      AbortFollows(st, path, fr, sh, detail);
    } else {
      FailureFollows(st, path, fr, sh, detail);
      OnwardQuiet(st, fr, sh1);
      QuietAfter(path, fr, sh, r.fr, sh1, Onward(st, fr, sh1));
    }
  }

  lemma FailureFollows(st: Step, path: seq<string>, fr: Frame, sh: Shared, detail: string)
    ensures var sh1 := Note(sh, Recorded(path + [st.id], detail));
            && Follows(path, fr, sh, fr.(failures := fr.failures + [Failure(st.id, detail)]), sh1)
            && Read(sh1.log).aborts == Read(sh.log).aborts
  {
    ReadNote(sh, Recorded(path + [st.id], detail));
    hide Read;
    OneFailure(st, path, Read(sh.log).failures, detail);
  }

  lemma AbortFollows(st: Step, path: seq<string>, fr: Frame, sh: Shared, detail: string)
    ensures var fr1 := fr.(failures := fr.failures + [Failure(st.id, detail)], aborted := true);
            Follows(path, fr, sh, fr1, Note(Note(sh, Recorded(path + [st.id], detail)), AskedAbort))
  {
    ReadNote(sh, Recorded(path + [st.id], detail));
    ReadNote(Note(sh, Recorded(path + [st.id], detail)), AskedAbort);
    hide Read;
    OneFailure(st, path, Read(sh.log).failures, detail);
  }

  lemma OneFailure(st: Step, path: seq<string>, d: seq<(seq<string>, string)>, detail: string)
    ensures var news := (d + [(path + [st.id], detail)])[|d|..];
            Under(path, news) && Local(news, |path|) == [Failure(st.id, detail)]
  {
    var news := (d + [(path + [st.id], detail)])[|d|..];
    assert news == [(path + [st.id], detail)];
    assert (path + [st.id])[|path|..] == [st.id];
  }

  lemma ThrottleConducted(cx: Context, st: Step, path: seq<string>, fr: Frame, sh: Shared, detail: string)
    ensures Conducted(path, fr, sh, Throttle(cx, st, path, fr, sh, detail))
  {
    var fr1, sh1 := fr.(throttled := true), Note(sh, SawThrottle);
    ReadNote(sh, SawThrottle);
    FailConducted(cx, st, path, fr1, sh1, detail, Throttled);
    OnwardQuiet(st, fr, sh1);
    hide Read, Fail, Onward;
    assert Follows(path, fr, sh, fr1, sh1);
    if ThrottleIsError(st, cx.mode) {
      Then(path, fr, sh, fr1, sh1, Fail(cx, st, path, fr1, sh1, detail, Throttled));
    } else {
      QuietAfter(path, fr, sh, fr1, sh1, Onward(st, fr, sh1));
    }
  }

  lemma TroubleConducted(cx: Context, st: Step, path: seq<string>, fr: Frame, sh: Shared, a: Answer)
    ensures Conducted(path, fr, sh, Trouble(cx, st, path, fr, sh, a))
  {
    ThrottleConducted(cx, st, path, fr, sh, a.detail);
    FailConducted(cx, st, path, fr, sh, a.detail, Failed);
    hide Conducted, Throttle, Fail;
  }

  lemma StandStill(path: seq<string>, fr: Frame, sh: Shared, sh': Shared, out: Option<Outcome>, cont: bool, err: bool)
    requires Quiet(sh, sh')
    ensures Conducted(path, fr, sh, Result(fr, sh', out, cont, err))
  {
    QuietFollows(path, fr, sh, fr, sh');
  }

  lemma {:induction false} AssertConducted(cx: Context, st: Step, path: seq<string>, left: nat, fr: Frame, sh: Shared,
          out: Outcome)
    ensures Conducted(path, fr, sh, Assert(cx, st, path, left, fr, sh, out))
    decreases left
  {
    hide Conducted, Fail, Read;
    if left == 0 {
      StandStill(path, fr, sh, sh, Some(out), true, false);
    } else {
      var (a, sh1) := Ask(cx, sh);
      if a.ok {
        AssertConducted(cx, st, path, left - 1, fr, sh1, out);
        AfterQuiet(path, fr, sh, fr, sh1, Assert(cx, st, path, left - 1, fr, sh1, out));
      } else {
        var r := Fail(cx, st, path, fr, sh1, a.detail, Failed);
        FailConducted(cx, st, path, fr, sh1, a.detail, Failed);
        AfterQuiet(path, fr, sh, fr, sh1, r);
        if !a.fatal && r.cont {
          AssertConducted(cx, st, path, left - 1, r.fr, r.sh, Failed);
          GoOn(path, fr, sh, r, Assert(cx, st, path, left - 1, r.fr, r.sh, Failed));
        }
      }
    }
  }

  lemma GoOn(path: seq<string>, fr: Frame, sh: Shared, s: Result, r: Result)
    requires Conducted(path, fr, sh, s) && s.cont && Conducted(path, s.fr, s.sh, r)
    ensures Conducted(path, fr, sh, r)
  {
    Then(path, fr, sh, s.fr, s.sh, r);
  }

  lemma {:induction false} ExtractConducted(cx: Context, st: Step, path: seq<string>, names: seq<string>, fr: Frame,
          sh: Shared)
    ensures Conducted(path, fr, sh, Extract(cx, st, path, names, fr, sh))
    decreases names
  {
    hide Conducted, Fail, Assert, Read;
    if names == [] {
      AssertConducted(cx, st, path, |st.assert_|, fr, sh, Ok);
    } else {
      var (a, sh1) := Ask(cx, sh);
      if a.value.None? {
        FailConducted(cx, st, path, fr, sh1, a.detail, Failed);
        AfterQuiet(path, fr, sh, fr, sh1, Fail(cx, st, path, fr, sh1, a.detail, Failed));
      } else {
        var fr1 := fr.(vars := fr.vars[names[0] := a.value.value]);
        ExtractConducted(cx, st, path, names[1..], fr1, sh1);
        AfterQuiet(path, fr, sh, fr1, sh1, Extract(cx, st, path, names[1..], fr1, sh1));
      }
    }
  }

  lemma RequestConducted(cx: Context, st: Step, path: seq<string>, fr: Frame, sh: Shared)
    requires st.kind.Request?
    ensures Conducted(path, fr, sh, RunRequest(cx, st, path, fr, sh))
  {
    hide Conducted, Fail, Trouble, Extract, Read, ExpandAll;
    var (sh1, built) := ExpandAll(cx, fr.vars, sh, st.kind.fields);
    ExpandAllQuiet(cx, fr.vars, sh, st.kind.fields);
    var (b, sh2) := Ask(cx, sh1);
    var (sh3, signed) := ExpandAll(cx, fr.vars, sh2, st.kind.auth);
    ExpandAllQuiet(cx, fr.vars, sh2, st.kind.auth);
    var (a, sh4) := Ask(cx, sh3);
    StandStill(path, fr, sh, sh2, None, false, true);
    FailConducted(cx, st, path, fr, sh2, b.detail, Failed);
    FailConducted(cx, st, path, fr, sh4, a.detail, Failed);
    TroubleConducted(cx, st, path, fr, sh4, a);
    ExtractConducted(cx, st, path, st.extract, fr, sh4);
    var r := RunRequest(cx, st, path, fr, sh);
    if !built || b.fatal {
    } else if !b.ok {
      AfterQuiet(path, fr, sh, fr, sh2, r);
    } else {
      AfterQuiet(path, fr, sh, fr, sh4, r);
    }
  }

  lemma OpenConducted(cx: Context, st: Step, path: seq<string>, fr: Frame, sh: Shared)
    requires st.kind.Socket?
    ensures Conducted(path, fr, sh, OpenSocket(cx, st, path, fr, sh))
    ensures OpenSocket(cx, st, path, fr, sh).out.None? ==> OpenSocket(cx, st, path, fr, sh).cont
  {
    hide Conducted, Read, ExpandAll;
    var name := st.kind.session;
    var (sh1, built) := ExpandAll(cx, fr.vars, sh, st.kind.open);
    ExpandAllQuiet(cx, fr.vars, sh, st.kind.open);
    var (b, sh2) := Ask(cx, sh1);
    var (sh3, signed) := ExpandAll(cx, fr.vars, sh2, st.kind.auth);
    ExpandAllQuiet(cx, fr.vars, sh2, st.kind.auth);
    var (a, sh4) := Ask(cx, sh3);
    var refused, lost := MarkSession(fr, name, Session(None, b.detail)), MarkSession(fr, name, Session(None, a.detail));
    var r := OpenSocket(cx, st, path, fr, sh);
    if !built {
      StandStill(path, fr, sh, sh1, Some(Ok), false, true);
    } else if !b.ok {
      FailConducted(cx, st, path, refused, sh2, b.detail, Failed);
      AfterQuiet(path, fr, sh, refused, sh2, r);
    } else if !signed {
      StandStill(path, fr, sh, sh3, Some(Ok), false, true);
    } else if !a.ok {
      TroubleConducted(cx, st, path, lost, sh4, a);
      AfterQuiet(path, fr, sh, lost, sh4, r);
    } else {
      StandStill(path, r.fr, sh, r.sh, None, true, false);
      AfterQuiet(path, fr, sh, r.fr, sh, r);
    }
  }

  lemma RetireConducted(cx: Context, st: Step, path: seq<string>, fr: Frame, sh: Shared, a: Answer)
    requires st.kind.Socket? && st.kind.session in fr.ws
    ensures Conducted(path, fr, sh, Retire(cx, st, path, fr, sh, a))
  {
    hide Conducted, Trouble, Read;
    var name := st.kind.session;
    var fr1 := MarkSession(fr, name, fr.ws[name].(dead := a.detail));
    TroubleConducted(cx, st, path, fr1, sh, a);
    AfterQuiet(path, fr, sh, fr1, sh, Trouble(cx, st, path, fr1, sh, a));
  }

  lemma ReceiveConducted(cx: Context, st: Step, path: seq<string>, fr: Frame, sh: Shared)
    requires st.kind.Socket? && st.kind.session in fr.ws
    ensures Conducted(path, fr, sh, ReceiveFrame(cx, st, path, fr, sh))
  {
    hide Conducted, Retire, Extract, Read;
    StandStill(path, fr, sh, sh, Some(Ok), true, false);
    var (a, sh1) := Ask(cx, sh);
    RetireConducted(cx, st, path, fr, sh1, a);
    ExtractConducted(cx, st, path, st.extract, fr, sh1);
    if st.kind.receives {
      AfterQuiet(path, fr, sh, fr, sh1, ReceiveFrame(cx, st, path, fr, sh));
    }
  }

  lemma WorkConducted(cx: Context, st: Step, path: seq<string>, fr: Frame, sh: Shared)
    requires st.kind.Socket?
    ensures Conducted(path, fr, sh, WorkSocket(cx, st, path, fr, sh))
  {
    var s := st.kind.session;
    ReadNote(sh, NeverOpened(s));
    hide Conducted, Fail, Retire, ReceiveFrame, Read, Expand;
    if s !in fr.ws {
      StandStill(path, fr, sh, Note(sh, NeverOpened(s)), Some(Ok), false, true);
    } else if fr.ws[s].dead != "" {
      FailConducted(cx, st, path, fr, sh, fr.ws[s].dead, Failed);
    } else if st.kind.send.None? {
      ReceiveConducted(cx, st, path, fr, sh);
    } else {
      var (sh1, text) := Expand(cx, fr.vars, sh, st.kind.send.value);
      ExpandQuiet(cx, fr.vars, sh, st.kind.send.value);
      var (a, sh2) := Ask(cx, sh1);
      StandStill(path, fr, sh, sh2, Some(Ok), false, true);
      RetireConducted(cx, st, path, fr, sh2, a);
      ReceiveConducted(cx, st, path, fr, sh2);
      if text.Some? && !a.fatal {
        AfterQuiet(path, fr, sh, fr, sh2, WorkSocket(cx, st, path, fr, sh));
      }
    }
  }

  lemma SocketConducted(cx: Context, st: Step, path: seq<string>, fr: Frame, sh: Shared)
    requires st.kind.Socket?
    ensures Conducted(path, fr, sh, RunSocket(cx, st, path, fr, sh))
  {
    hide Conducted, OpenSocket, WorkSocket, Read;
    if !st.kind.opens {
      WorkConducted(cx, st, path, fr, sh);
    } else {
      OpenConducted(cx, st, path, fr, sh);
      var r := OpenSocket(cx, st, path, fr, sh);
      if r.out.None? {
        WorkConducted(cx, st, path, r.fr, r.sh);
        GoOn(path, fr, sh, r, WorkSocket(cx, st, path, r.fr, r.sh));
      }
    }
  }

  lemma {:induction false} BindQuiet(cx: Context, callerVars: map<string, Value>, with: map<string, Templated>,
                                     ins: seq<Input>, vars: map<string, Value>, sh: Shared)
    ensures Quiet(sh, BindInputs(cx, callerVars, with, ins, vars, sh).1)
    decreases ins
  {
    ReadNote(sh, Crashed);
    hide Read, Expand;
    if ins != [] {
      var i := ins[0];
      if i.name in with || i.default.Some? {
        if i.name in with {
          ExpandQuiet(cx, callerVars, sh, with[i.name]);
        } else {
          ExpandQuiet(ChildContext(cx), vars, sh, i.default.value);
        }
        var (sh1, text) := if i.name in with then Expand(cx, callerVars, sh, with[i.name])
                           else Expand(ChildContext(cx), vars, sh, i.default.value);
        if text.Some? {
          BindQuiet(cx, callerVars, with, ins[1..], vars["inputs." + i.name := Str(text.value)], sh1);
        }
      }
    }
  }

  // ---------------------------------------------------------------- used flows

  /** A used flow's reports, prefixed by its use step, are this level's reports of the same failures. */
  lemma {:induction false} PrefixedLocal(path: seq<string>, id: string, fs: seq<(seq<string>, string)>)
    requires Under(path + [id], fs)
    ensures Under(path, fs)
    ensures Prefixed(id, Local(fs, |path| + 1)) == Local(fs, |path|)
  {
    if fs != [] {
      var p := fs[0].0;
      assert path + [id] < p && p[|path|] == id;
      assert p[|path|..] == [id] + p[|path| + 1..];
      PrefixedLocal(path, id, fs[1..]);
      assert Local(fs, |path| + 1)[1..] == Local(fs[1..], |path| + 1);
      assert Local(fs, |path|) == [Failure(Join(p[|path|..]), fs[0].1)] + Local(fs[1..], |path|);
    }
  }

  lemma AbsorbFollows(path: seq<string>, id: string, fr: Frame, child: Frame, sub: Frame, sh: Shared, sh': Shared)
    requires child.failures == [] && !child.throttled && !child.aborted
    requires Follows(path + [id], child, sh, sub, sh')
    ensures Follows(path, fr, sh, Absorb(id, fr, sub), sh')
  {
    hide Read;
    var d, e := Read(sh.log).failures, Read(sh'.log).failures;
    PrefixedLocal(path, id, e[|d|..]);
    assert sub.failures == Local(e[|d|..], |path| + 1);
  }

  lemma FinishConducted(cx: Context, st: Step, f: Flow, path: seq<string>, fr: Frame, sub: Frame, sh: Shared,
          sh': Shared, out: Outcome)
    requires Follows(path, fr, sh, Absorb(st.id, fr, sub), sh')
    requires sub.aborted || Read(sh'.log).aborts == Read(sh.log).aborts
    ensures Conducted(path, fr, sh, FinishUse(cx, st, f, fr, sub, sh', out))
  {
    hide Read, Prefixed, GiveOutputs, Follows, Onward;
    var fr1 := Absorb(st.id, fr, sub);
    var r := FinishUse(cx, st, f, fr, sub, sh', out);
    if !sub.aborted && sub.failures != [] && EffectiveAction(st.onFailure, cx.mode) == AbortRun {
      EndFollows(path, fr, sh, fr1, r.fr, sh');
    } else {
      SameRecord(path, fr, sh, fr1, r.fr, sh');
      OnwardQuiet(st, r.fr, sh');
      QuietAfter(path, fr, sh, r.fr, sh', Onward(st, r.fr, sh'));
    }
  }

  lemma SameRecord(path: seq<string>, fr: Frame, sh: Shared, fr1: Frame, fr2: Frame, sh': Shared)
    requires Follows(path, fr, sh, fr1, sh')
    requires fr2.failures == fr1.failures && fr2.throttled == fr1.throttled && fr2.aborted == fr1.aborted
    ensures Follows(path, fr, sh, fr2, sh')
  {
    hide Read;
  }

  lemma EndFollows(path: seq<string>, fr: Frame, sh: Shared, fr1: Frame, fr2: Frame, sh': Shared)
    requires Follows(path, fr, sh, fr1, sh')
    requires fr2.failures == fr1.failures && fr2.throttled == fr1.throttled && fr2.aborted
    ensures Follows(path, fr, sh, fr2, Note(sh', AskedAbort))
  {
    ReadNote(sh', AskedAbort);
    hide Read;
  }

  // ---------------------------------------------------------------- whole runs

  lemma {:induction false} UseConducted(cx: Context, st: Step, path: seq<string>, fr: Frame, sh: Shared)
    requires st.kind.Use?
    ensures Conducted(path, fr, sh, RunUse(cx, st, path, fr, sh))
    decreases st, 0
  {
    ReadNote(sh, Crashed);
    hide Read, Follows, FinishUse, BindInputs, RunSteps;
    if st.kind.flow.None? {
      StandStill(path, fr, sh, Note(sh, Crashed), None, false, true);
    } else {
      var f := st.kind.flow.value;
      var (vars, sh1, bound) := BindInputs(cx, fr.vars, st.kind.with, f.inputs, map[], sh);
      BindQuiet(cx, fr.vars, st.kind.with, f.inputs, map[], sh);
      if !bound {
        StandStill(path, fr, sh, sh1, None, false, true);
      } else {
        var child := FRESH_FRAME.(vars := vars);
        var r := RunSteps(ChildContext(cx), f.steps, path + [st.id], child, sh1, Ok);
        StepsConducted(ChildContext(cx), f.steps, path + [st.id], child, sh1, Ok);
        var sh2 := CloseSessions(r.fr, r.sh);
        SameLog(path + [st.id], child, sh1, r.fr, r.sh, sh2);
        AbsorbFollows(path, st.id, fr, child, r.fr, sh1, sh2);
        FromQuiet(path, fr, sh, sh1, Absorb(st.id, fr, r.fr), sh2);
        if !r.err {
          AbortShows(path + [st.id], child, sh1, r.fr, sh2);
          FinishConducted(cx, st, f, path, fr, r.fr, sh, sh2, r.out.value);
        }
      }
    }
  }

  lemma SameLog(path: seq<string>, fr: Frame, sh: Shared, fr': Frame, sh': Shared, sh'': Shared)
    requires Follows(path, fr, sh, fr', sh') && sh''.log == sh'.log
    ensures Follows(path, fr, sh, fr', sh'')
  {
    hide Read;
  }

  lemma FromQuiet(path: seq<string>, fr: Frame, sh: Shared, sh1: Shared, fr': Frame, sh': Shared)
    requires Quiet(sh, sh1) && Follows(path, fr, sh1, fr', sh')
    ensures Follows(path, fr, sh, fr', sh')
  {
    hide Read;
  }

  lemma AbortShows(path: seq<string>, fr: Frame, sh: Shared, fr': Frame, sh': Shared)
    requires Follows(path, fr, sh, fr', sh') && !fr.aborted
    ensures fr'.aborted || Read(sh'.log).aborts == Read(sh.log).aborts
  {
    hide Read;
  }

  lemma StartConducted(path: seq<string>, fr: Frame, sh: Shared, e: Event, r: Result)
    requires e.Started? && Conducted(path, fr, Note(sh, e), r)
    ensures Conducted(path, fr, sh, r)
  {
    ReadNote(sh, e);
    hide Read;
  }

  lemma {:induction false} StepConducted(cx: Context, st: Step, path: seq<string>, fr: Frame, sh: Shared)
    ensures Conducted(path, fr, sh, RunStep(cx, st, path, fr, sh))
    decreases st, 1
  {
    hide Read, Conducted, RunUse, RunRequest, RunSocket;
    var e := Started(path + [st.id]);
    var sh1 := Note(sh, e);
    match st.kind {
      case Request(_, _) => RequestConducted(cx, st, path, fr, sh1);
      case Socket(_, _, _, _, _, _) => SocketConducted(cx, st, path, fr, sh1);
      case Use(_, _, _) => UseConducted(cx, st, path, fr, sh1);
      case Wait => StandStill(path, fr, sh1, sh1, Some(Ok), true, false);
      case Poll(_) => StandStill(path, fr, sh1, sh1, None, false, true);
    }
    StartConducted(path, fr, sh, e, RunStep(cx, st, path, fr, sh));
  }

  /** Every run of steps, at every depth, whatever the environment answers. */
  lemma {:induction false} StepsConducted(cx: Context, steps: seq<Step>, path: seq<string>, fr: Frame, sh: Shared,
          out: Outcome)
    ensures Conducted(path, fr, sh, RunSteps(cx, steps, path, fr, sh, out))
    decreases steps, 2
  {
    hide Read, Conducted, RunStep, Worst;
    if steps == [] {
      StandStill(path, fr, sh, sh, Some(out), true, false);
    } else {
      var s := RunStep(cx, steps[0], path, fr, sh);
      StepConducted(cx, steps[0], path, fr, sh);
      var out1 := if s.out.Some? then Worst(out, s.out.value) else out;
      if s.err || !s.cont {
        Stopped(path, fr, sh, s, out1);
      } else {
        StepsConducted(cx, steps[1..], path, s.fr, s.sh, out1);
        GoOn(path, fr, sh, s, RunSteps(cx, steps[1..], path, s.fr, s.sh, out1));
      }
    }
  }

  lemma Stopped(path: seq<string>, fr: Frame, sh: Shared, s: Result, out: Outcome)
    requires Conducted(path, fr, sh, s)
    ensures Conducted(path, fr, sh, Result(s.fr, s.sh, Some(out), false, s.err))
  {
    hide Read;
  }

  /** The ledger of a whole iteration, over arbitrarily nested used flows and every environment: what
      the top level reports is exactly what happened anywhere below it. Each failure appears once, in
      order, named by the whole chain of use steps; the throttled flag is set if and only if some step
      was throttled; the iteration is aborted if and only if some step asked for it; and after that no
      step at any level starts. */
  lemma RunLedger(cx: Context, f: Flow)
    ensures var r := RunFlow(cx, f); var seen := Read(r.sh.log);
            && r.fr.failures == Local(seen.failures, 0)
            && (r.fr.throttled <==> seen.throttles > 0)
            && (r.fr.aborted <==> seen.aborts > 0)
            && !seen.ranOn
  {
    var r := RunSteps(cx, f.steps, [], FRESH_FRAME, NOTHING_YET, Ok);
    StepsConducted(cx, f.steps, [], FRESH_FRAME, NOTHING_YET, Ok);
    assert Read(NOTHING_YET.log) == Digest([], 0, 0, false, Calm);
    hide Read, RunSteps;
    var e := Read(r.sh.log).failures;
    assert e[0..] == e;
    assert [] + Local(e, 0) == Local(e, 0);
  }
}

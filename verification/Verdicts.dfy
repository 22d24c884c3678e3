/** What the answers of the environment come to (internal/executor/iteration.go and ws.go): for each kind of
    step, stated over the answers themselves, which failures are recorded, how the step ends, and what it
    binds. */
module Verdicts {
  import opened FlowIr
  import opened Options
  import opened Interp

  // ---------------------------------------------------------------- modes and outcomes

  /** Modes in which a failure is loud. */
  predicate Strict(mode: Mode) {
    mode == Integration || mode == System
  }

  /** A step's own action stands; without one a failure ends the flow in the strict modes and is only
      recorded in the others. A throttle counts as a failure when the step says so, and without a word of
      its own in the strict modes. */
  lemma Defaults(st: Step, mode: Mode)
    ensures st.onFailure.Some? ==> EffectiveAction(st.onFailure, mode) == st.onFailure.value
    ensures st.onFailure.None? && Strict(mode) ==> EffectiveAction(st.onFailure, mode) == AbortFlow
    ensures st.onFailure.None? && mode in {Load, Stress, Soak} ==> EffectiveAction(st.onFailure, mode) == Record
    ensures st.throttleIsError.Some? ==> ThrottleIsError(st, mode) == st.throttleIsError.value
    ensures st.throttleIsError.None? ==> ThrottleIsError(st, mode) == (mode !in {Load, Stress, Soak})
  {
  }

  /** A failure is worse than a throttle, and a throttle than anything else. */
  lemma WorstOf(a: Outcome, b: Outcome)
    ensures Worst(a, b) == Failed <==> Failed in {a, b}
    ensures Worst(a, b) == Throttled <==> Failed !in {a, b} && Throttled in {a, b}
    ensures a == Ok || a == Skipped ==> Worst(a, Ok) == a
  {
  }

  /** The action a step's failure takes. */
  function Action(cx: Context, st: Step): FailureAction {
    EffectiveAction(st.onFailure, cx.mode)
  }

  /** Whether what went wrong is recorded as a failure: anything but a throttle that does not count. */
  predicate Counts(cx: Context, st: Step, a: Answer) {
    !a.throttle || ThrottleIsError(st, cx.mode)
  }

  /** `r` is `fr` with those failures recorded and nothing else touched, after `asked` questions; the step
      ended as `out`, and goes on unless a failure's action stops it. */
  ghost predicate Reports(cx: Context, st: Step, fr: Frame, sh: Shared, r: Result, fails: seq<Failure>, asked: nat,
                          out: Outcome)
  {
    && r.fr.failures == fr.failures + fails
    && r.fr.aborted == (fr.aborted || (fails != [] && Action(cx, st) == AbortRun))
    && r.cont == (fails == [] || Action(cx, st) == Record)
    && r.out == Some(out) && !r.err
    && r.sh.tick == sh.tick + asked && r.sh.closed == sh.closed
  }

  ghost predicate SameBut(fr: Frame, r: Result) {
    r.fr.vars == fr.vars && r.fr.ws == fr.ws
  }

  lemma FailReports(cx: Context, st: Step, path: seq<string>, fr: Frame, sh: Shared, detail: string, out: Outcome)
    ensures var r := Fail(cx, st, path, fr, sh, detail, out);
            && Reports(cx, st, fr, sh, r, [Failure(st.id, detail)], 0, out)
            && SameBut(fr, r) && r.fr.throttled == fr.throttled && r.sh.dialled == sh.dialled
  {
    hide Binds;
  }

  /** An answer that is not ok is a throttle when it says so, flagged and the step's outcome; else a failure
      of the step. It is recorded as a failure with its own reason when it counts. */
  lemma TroubleReports(cx: Context, st: Step, path: seq<string>, fr: Frame, sh: Shared, a: Answer)
    ensures var r := Trouble(cx, st, path, fr, sh, a);
            && Reports(cx, st, fr, sh, r, if Counts(cx, st, a) then [Failure(st.id, a.detail)] else [], 0,
                       if a.throttle then Throttled else Failed)
            && SameBut(fr, r) && r.fr.throttled == (fr.throttled || a.throttle) && r.sh.dialled == sh.dialled
  {
    hide Fail, Binds;
    FailReports(cx, st, path, fr, sh, a.detail, Failed);
    FailReports(cx, st, path, fr.(throttled := true), Note(sh, SawThrottle), a.detail, Throttled);
    assert fr.failures + [] == fr.failures;
    OnwardKeeps(st, fr, Note(sh, SawThrottle));
  }

  lemma OnwardKeeps(st: Step, fr: Frame, sh: Shared)
    ensures var sh' := Onward(st, fr, sh); sh' == sh.(log := sh'.log)
  {
    hide Binds;
  }

  // ---------------------------------------------------------------- assertions

  /** The failures of the `n` answers from `from` on that are not ok, in order, each with its own reason. */
  ghost function NotOk(cx: Context, st: Step, from: nat, n: nat): seq<Failure> {
    if n == 0 then [] else
      var a := cx.world(from + n - 1);
      NotOk(cx, st, from, n - 1) + if a.ok then [] else [Failure(st.id, a.detail)]
  }

  lemma {:induction false} NotOkFirst(cx: Context, st: Step, from: nat, n: nat)
    requires n > 0
    ensures var a := cx.world(from);
            NotOk(cx, st, from, n) == (if a.ok then [] else [Failure(st.id, a.detail)]) + NotOk(cx, st, from + 1, n - 1)
    decreases n
  {
    if n > 1 {
      NotOkFirst(cx, st, from, n - 1);
      assert from + 1 + (n - 1) - 1 == from + n - 1;
    } else {
      assert NotOk(cx, st, from, 0) == [];
    }
  }

  /** An assertion that ends the step: it could not be evaluated, or its failure stops the flow. */
  predicate Ends(cx: Context, st: Step, a: Answer) {
    !a.ok && (a.fatal || Action(cx, st) != Record)
  }

  /** `m` of `left` answers were asked for: all of them, or up to the first that ends the step. */
  ghost predicate AskedFor(cx: Context, st: Step, from: nat, left: nat, m: nat) {
    && m <= left
    && (forall t: nat :: from <= t < from + m - 1 ==> !Ends(cx, st, cx.world(t)))
    && (m < left ==> m > 0 && Ends(cx, st, cx.world(from + m - 1)))
  }

  /** Reports that follow one another are one. */
  lemma ReportsThen(cx: Context, st: Step, fr: Frame, sh: Shared, r: Result, fails: seq<Failure>, asked: nat,
                    out: Outcome, r': Result, fails': seq<Failure>, asked': nat, out': Outcome)
    requires Reports(cx, st, fr, sh, r, fails, asked, out) && r.cont
    requires Reports(cx, st, r.fr, r.sh, r', fails', asked', out')
    ensures Reports(cx, st, fr, sh, r', fails + fails', asked + asked', out')
  {
    assert fr.failures + (fails + fails') == fr.failures + fails + fails';
  }

  /** The same report, seen from some questions before. */
  lemma ReportsLater(cx: Context, st: Step, fr: Frame, sh: Shared, sh1: Shared, r: Result, fails: seq<Failure>,
                     asked: nat, out: Outcome, before: nat)
    requires Reports(cx, st, fr, sh1, r, fails, asked, out)
    requires sh1.tick == sh.tick + before && sh1.closed == sh.closed
    ensures Reports(cx, st, fr, sh, r, fails, before + asked, out)
  {
  }

  /** Every assertion asked for that is not ok is a failure with its reason, in order; the step is failed if
      and only if there is one, or it was before. */
  lemma {:induction false} AssertTold(cx: Context, st: Step, path: seq<string>, left: nat, fr: Frame, sh: Shared,
          out: Outcome) returns (m: nat)
    ensures AskedFor(cx, st, sh.tick, left, m)
    ensures var r, fails := Assert(cx, st, path, left, fr, sh, out), NotOk(cx, st, sh.tick, m);
            && Reports(cx, st, fr, sh, r, fails, m, if fails == [] then out else Failed)
            && SameBut(fr, r) && r.fr.throttled == fr.throttled && r.sh.dialled == sh.dialled
    decreases left
  {
    hide Fail, Reports, NotOk, AskedFor, Action;
    var (a, sh1) := Ask(cx, sh);
    if left == 0 {
      m := 0;
      NoneAsked(cx, st, fr, sh, out);
    } else if a.ok {
      var k := AssertTold(cx, st, path, left - 1, fr, sh1, out);
      m := k + 1;
      NotOkFirst(cx, st, sh.tick, m);
      AskedMore(cx, st, sh.tick, left, k);
      var fails := NotOk(cx, st, sh.tick + 1, k);
      assert [] + fails == fails;
      ReportsLater(cx, st, fr, sh, sh1, Assert(cx, st, path, left, fr, sh, out), fails, k,
                   if fails == [] then out else Failed, 1);
    } else {
      m := AssertFailed(cx, st, path, left, fr, sh, out);
    }
  }

  lemma {:induction false} AssertFailed(cx: Context, st: Step, path: seq<string>, left: nat, fr: Frame, sh: Shared,
          out: Outcome) returns (m: nat)
    requires left > 0 && !cx.world(sh.tick).ok
    ensures AskedFor(cx, st, sh.tick, left, m)
    ensures var r, fails := Assert(cx, st, path, left, fr, sh, out), NotOk(cx, st, sh.tick, m);
            && Reports(cx, st, fr, sh, r, fails, m, Failed) && fails != []
            && SameBut(fr, r) && r.fr.throttled == fr.throttled && r.sh.dialled == sh.dialled
    decreases left, 0
  {
    hide Fail, Reports, NotOk, AskedFor, EffectiveAction;
    var (a, sh1) := Ask(cx, sh);
    var r, one := Fail(cx, st, path, fr, sh1, a.detail, Failed), [Failure(st.id, a.detail)];
    FailReports(cx, st, path, fr, sh1, a.detail, Failed);
    ReportsLater(cx, st, fr, sh, sh1, r, one, 0, Failed, 1);
    ContOf(cx, st, fr, sh, r, one, 1, Failed);
    if a.fatal || !r.cont {
      m := 1;
      NotOkFirst(cx, st, sh.tick, 1);
      NoneAsked(cx, st, fr, sh, out);
      NoneNotOk(cx, st, sh.tick + 1);
      assert one + [] == one;
      AskedOnce(cx, st, sh.tick, left);
    } else {
      var k := AssertTold(cx, st, path, left - 1, r.fr, r.sh, Failed);
      m := k + 1;
      NotOkFirst(cx, st, sh.tick, m);
      AskedMore(cx, st, sh.tick, left, k);
      ReportsThen(cx, st, fr, sh, r, one, 1, Failed, Assert(cx, st, path, left, fr, sh, out),
                  NotOk(cx, st, sh.tick + 1, k), k, Failed);
    }
  }

  lemma ContOf(cx: Context, st: Step, fr: Frame, sh: Shared, r: Result, fails: seq<Failure>, asked: nat, out: Outcome)
    requires Reports(cx, st, fr, sh, r, fails, asked, out) && fails != []
    ensures r.cont == (Action(cx, st) == Record) && r.sh.tick == sh.tick + asked
  {
  }

  lemma NoneAsked(cx: Context, st: Step, fr: Frame, sh: Shared, out: Outcome)
    ensures AskedFor(cx, st, sh.tick, 0, 0) && NotOk(cx, st, sh.tick, 0) == []
    ensures Reports(cx, st, fr, sh, Result(fr, sh, Some(out), true, false), [], 0, out)
  {
    assert fr.failures + [] == fr.failures;
  }

  lemma NoneNotOk(cx: Context, st: Step, from: nat)
    ensures NotOk(cx, st, from, 0) == []
  {
  }

  lemma AskedOnce(cx: Context, st: Step, from: nat, left: nat)
    requires left > 0 && Ends(cx, st, cx.world(from))
    ensures AskedFor(cx, st, from, left, 1)
  {
  }

  lemma AskedMore(cx: Context, st: Step, from: nat, left: nat, k: nat)
    requires left > 0 && !Ends(cx, st, cx.world(from)) && AskedFor(cx, st, from + 1, left - 1, k)
    ensures AskedFor(cx, st, from, left, k + 1)
  {
    hide Ends;
    assert k > 0 ==> from + 1 + k - 1 == from + (k + 1) - 1;
  }

  // ---------------------------------------------------------------- extractions

  /** No later place has the same name. */
  predicate Latest(names: seq<string>, j: nat) {
    j < |names| && names[j] !in names[j + 1..]
  }

  /** The answers from `from` on, bound to those names: the latest counts, other variables stay. */
  ghost predicate Bound(cx: Context, from: nat, names: seq<string>, vars: map<string, Value>,
                        vars': map<string, Value>)
  {
    && (forall x :: x !in names ==> (x in vars' <==> x in vars) && (x in vars ==> vars'[x] == vars[x]))
    && (forall j: nat :: Latest(names, j) ==> BoundTo(cx.world(from + j), names[j], vars'))
  }

  predicate BoundTo(a: Answer, x: string, vars: map<string, Value>) {
    a.value.Some? && x in vars && vars[x] == a.value.value
  }

  lemma BoundMore(cx: Context, from: nat, names: seq<string>, vars: map<string, Value>, vars': map<string, Value>,
                  x: string)
    requires cx.world(from).value.Some?
    requires Bound(cx, from + 1, names, vars[x := cx.world(from).value.value], vars')
    ensures Bound(cx, from, [x] + names, vars, vars')
  {
    hide Latest, BoundTo;
    var all := [x] + names;
    assert forall y :: y in all <==> y == x || y in names;
    forall j: nat | Latest(all, j)
      ensures j < |all| && BoundTo(cx.world(from + j), all[j], vars')
    {
      LatestRest(x, names, j);
      if j > 0 {
        assert from + 1 + (j - 1) == from + j;
      } else {
        BoundHere(cx.world(from), x, vars');
      }
    }
  }

  lemma BoundHere(a: Answer, x: string, vars: map<string, Value>)
    requires a.value.Some? && x in vars && vars[x] == a.value.value
    ensures BoundTo(a, x, vars)
  {
  }

  lemma LatestRest(x: string, names: seq<string>, j: nat)
    requires Latest([x] + names, j)
    ensures j < |names| + 1 && ([x] + names)[j] == if j == 0 then x else names[j - 1]
    ensures if j == 0 then x !in names else Latest(names, j - 1)
  {
    var all := [x] + names;
    assert all[j + 1..] == names[j..];
  }

  /** Reading an answer: the first `m` extractions find something, and it is bound to their names. When the
      next finds nothing that is the step's one failure; else the assertions are asked for. */
  lemma {:induction false} ExtractTold(cx: Context, st: Step, path: seq<string>, names: seq<string>, fr: Frame,
          sh: Shared) returns (m: nat, k: nat)
    ensures m <= |names| && Bound(cx, sh.tick, names[..m], fr.vars, Extract(cx, st, path, names, fr, sh).fr.vars)
    ensures var r := Extract(cx, st, path, names, fr, sh);
            r.fr.ws == fr.ws && r.fr.throttled == fr.throttled && r.sh.dialled == sh.dialled
    ensures m < |names| ==>
              && cx.world(sh.tick + m).value.None?
              && Reports(cx, st, fr, sh, Extract(cx, st, path, names, fr, sh),
                         [Failure(st.id, cx.world(sh.tick + m).detail)], m + 1, Failed)
    ensures m == |names| ==>
              var fails := NotOk(cx, st, sh.tick + m, k);
              && AskedFor(cx, st, sh.tick + m, |st.assert_|, k)
              && Reports(cx, st, fr, sh, Extract(cx, st, path, names, fr, sh), fails, m + k,
                         if fails == [] then Ok else Failed)
    decreases names
  {
    hide Fail, Assert, Bound, AskedFor, NotOk;
    NothingBound(cx, sh.tick, fr.vars);
    if names == [] {
      m := 0;
      k := AssertTold(cx, st, path, |st.assert_|, fr, sh, Ok);
      assert names[..0] == [];
    } else {
      var (a, sh1) := Ask(cx, sh);
      if a.value.None? {
        m, k := 0, 0;
        FailReports(cx, st, path, fr, sh1, a.detail, Failed);
        assert names[..0] == [];
      } else {
        var fr1 := fr.(vars := fr.vars[names[0] := a.value.value]);
        m, k := ExtractTold(cx, st, path, names[1..], fr1, sh1);
        BoundMore(cx, sh.tick, names[1..][..m], fr.vars, Extract(cx, st, path, names, fr, sh).fr.vars, names[0]);
        assert [names[0]] + names[1..][..m] == names[..m + 1];
        m := m + 1;
      }
    }
  }

  lemma NothingBound(cx: Context, from: nat, vars: map<string, Value>)
    ensures Bound(cx, from, [], vars, vars)
  {
  }

  // ---------------------------------------------------------------- requests

  /** A request step, over the answers of the allow-list, `b`, and of the call, `a`. Nothing is sent past a
      refusal; what the call answers is read only when it is ok. */
  lemma RequestTold(cx: Context, st: Step, path: seq<string>, fr: Frame, sh: Shared) returns (m: nat, k: nat)
    requires st.kind.Request?
    ensures var r := RunRequest(cx, st, path, fr, sh);
            var b, a := cx.world(sh.tick), cx.world(sh.tick + 1);
            var built := ExpandAll(cx, fr.vars, sh, st.kind.fields);
            var signed := ExpandAll(cx, fr.vars, built.0.(tick := sh.tick + 1), st.kind.auth);
            && r.fr.ws == fr.ws && r.sh.dialled == sh.dialled
            && (!built.1 || b.fatal ==> r.err && !r.cont && r.fr == fr && r.out == None && r.sh.tick == sh.tick + 1)
            && (built.1 && !b.fatal && !b.ok ==>
                  Reports(cx, st, fr, sh, r, [Failure(st.id, b.detail)], 1, Failed) && r.fr.vars == fr.vars)
            && (built.1 && !b.fatal && b.ok ==>
                  && (!signed.1 ==>
                        Reports(cx, st, fr, sh, r, [Failure(st.id, a.detail)], 2, Failed) && r.fr.vars == fr.vars)
                  && (signed.1 && !a.ok ==>
                        && Reports(cx, st, fr, sh, r, if Counts(cx, st, a) then [Failure(st.id, a.detail)] else [], 2,
                                   if a.throttle then Throttled else Failed)
                        && r.fr.vars == fr.vars && r.fr.throttled == (fr.throttled || a.throttle))
                  && (signed.1 && a.ok ==> Read(cx, st, fr, sh, r, 2, m, k)))
  {
    hide Fail, Trouble, Extract, ExpandAll, Reports, Read, Counts;
    m, k := 0, 0;
    var (sh1, built) := ExpandAll(cx, fr.vars, sh, st.kind.fields);
    ExpandAllKeeps(cx, fr.vars, sh, st.kind.fields);
    var (b, sh2) := Ask(cx, sh1);
    var (sh3, signed) := ExpandAll(cx, fr.vars, sh2, st.kind.auth);
    ExpandAllKeeps(cx, fr.vars, sh2, st.kind.auth);
    var (a, sh4) := Ask(cx, sh3);
    var r := RunRequest(cx, st, path, fr, sh);
    if !built || b.fatal {
    } else if !b.ok {
      FailReports(cx, st, path, fr, sh2, b.detail, Failed);
      ReportsLater(cx, st, fr, sh, sh2, r, [Failure(st.id, b.detail)], 0, Failed, 1);
    } else if !signed {
      FailReports(cx, st, path, fr, sh4, a.detail, Failed);
      ReportsLater(cx, st, fr, sh, sh4, r, [Failure(st.id, a.detail)], 0, Failed, 2);
    } else if !a.ok {
      TroubleReports(cx, st, path, fr, sh4, a);
      ReportsLater(cx, st, fr, sh, sh4, r, if Counts(cx, st, a) then [Failure(st.id, a.detail)] else [], 0,
                   if a.throttle then Throttled else Failed, 2);
    } else {
      m, k := ReadTold(cx, st, path, fr, sh4);
      ReadLater(cx, st, fr, sh, sh4, r, 2, m, k);
    }
  }

  lemma ReadLater(cx: Context, st: Step, fr: Frame, sh: Shared, sh1: Shared, r: Result, before: nat, m: nat, k: nat)
    requires Read(cx, st, fr, sh1, r, 0, m, k) && sh1.tick == sh.tick + before && sh1.closed == sh.closed
    ensures Read(cx, st, fr, sh, r, before, m, k)
  {
    hide Bound, AskedFor, NotOk;
  }

  /** What an answer that is read comes to, `after` questions into the step: the first `m` extractions are
      bound, and then either nothing is found, or `k` assertions are asked for. */
  ghost predicate Read(cx: Context, st: Step, fr: Frame, sh: Shared, r: Result, after: nat, m: nat, k: nat) {
    var from := sh.tick + after;
    && m <= |st.extract| && Bound(cx, from, st.extract[..m], fr.vars, r.fr.vars) && r.fr.throttled == fr.throttled
    && if m < |st.extract| then
         && cx.world(from + m).value.None?
         && Reports(cx, st, fr, sh, r, [Failure(st.id, cx.world(from + m).detail)], after + m + 1, Failed)
       else
         && AskedFor(cx, st, from + m, |st.assert_|, k)
         && Reports(cx, st, fr, sh, r, NotOk(cx, st, from + m, k), after + m + k,
                    if NotOk(cx, st, from + m, k) == [] then Ok else Failed)
  }

  lemma ReadTold(cx: Context, st: Step, path: seq<string>, fr: Frame, sh: Shared) returns (m: nat, k: nat)
    ensures Read(cx, st, fr, sh, Extract(cx, st, path, st.extract, fr, sh), 0, m, k)
    ensures var r := Extract(cx, st, path, st.extract, fr, sh); r.fr.ws == fr.ws && r.sh.dialled == sh.dialled
  {
    hide Extract, Bound, AskedFor, NotOk;
    m, k := ExtractTold(cx, st, path, st.extract, fr, sh);
  }

  lemma {:induction false} ExpandKeeps(cx: Context, vars: map<string, Value>, sh: Shared, t: Templated)
    ensures var sh' := Expand(cx, vars, sh, t).0; sh' == sh.(log := sh'.log)
    decreases t
  {
    hide ScopeValue;
    if t != [] {
      match t[0] {
        case Text(_) => ExpandKeeps(cx, vars, sh, t[1..]);
        case Ref(name, _) =>
          ExpandKeeps(cx, vars, if ScopeValue(cx, vars, name).NoValueYet? then Note(sh, NoValue(name)) else sh, t[1..]);
      }
    }
  }

  lemma {:induction false} ExpandAllKeeps(cx: Context, vars: map<string, Value>, sh: Shared, ts: seq<Templated>)
    ensures var sh' := ExpandAll(cx, vars, sh, ts).0; sh' == sh.(log := sh'.log)
    decreases ts
  {
    hide Expand;
    if ts != [] {
      ExpandKeeps(cx, vars, sh, ts[0]);
      ExpandAllKeeps(cx, vars, Expand(cx, vars, sh, ts[0]).0, ts[1..]);
    }
  }

  // ---------------------------------------------------------------- sockets

  /** The step's session is retired: it keeps its connection and is dead of `a`'s reason. */
  ghost predicate Retired(cx: Context, st: Step, fr: Frame, sh: Shared, r: Result, a: Answer, asked: nat)
    requires st.kind.Socket?
  {
    var s := st.kind.session;
    && Reports(cx, st, fr, sh, r, if Counts(cx, st, a) then [Failure(st.id, a.detail)] else [], asked,
               if a.throttle then Throttled else Failed)
    && r.fr.vars == fr.vars && r.fr.throttled == (fr.throttled || a.throttle)
    && s in fr.ws && r.fr.ws == fr.ws[s := Session(fr.ws[s].conn, a.detail)] && r.sh.dialled == sh.dialled
  }

  lemma RetireTold(cx: Context, st: Step, path: seq<string>, fr: Frame, sh: Shared, a: Answer)
    requires st.kind.Socket? && st.kind.session in fr.ws
    ensures Retired(cx, st, fr, sh, Retire(cx, st, path, fr, sh, a), a, 0)
  {
    hide Trouble, Counts;
    var s := st.kind.session;
    TroubleReports(cx, st, path, MarkSession(fr, s, fr.ws[s].(dead := a.detail)), sh, a);
  }

  /** Waiting for a frame, `after` questions into the step: a step that receives none is done; an answer that
      is not ok retires the session; an ok one is read. */
  ghost predicate Received(cx: Context, st: Step, fr: Frame, sh: Shared, r: Result, after: nat, m: nat, k: nat)
    requires st.kind.Socket?
  {
    var a := cx.world(sh.tick + after);
    if !st.kind.receives then
      Reports(cx, st, fr, sh, r, [], after, Ok) && SameBut(fr, r) && r.fr.throttled == fr.throttled
      && r.sh.dialled == sh.dialled
    else if !a.ok then Retired(cx, st, fr, sh, r, a, after + 1)
    else Read(cx, st, fr, sh, r, after + 1, m, k) && r.fr.ws == fr.ws && r.sh.dialled == sh.dialled
  }

  lemma ReceiveTold(cx: Context, st: Step, path: seq<string>, fr: Frame, sh: Shared) returns (m: nat, k: nat)
    requires st.kind.Socket? && st.kind.session in fr.ws
    ensures Received(cx, st, fr, sh, ReceiveFrame(cx, st, path, fr, sh), 0, m, k)
  {
    hide Retire, Extract, Bound, AskedFor, NotOk, Counts;
    m, k := 0, 0;
    assert fr.failures + [] == fr.failures;
    var (a, sh1) := Ask(cx, sh);
    if st.kind.receives && !a.ok {
      RetireTold(cx, st, path, fr, sh1, a);
    } else if st.kind.receives {
      m, k := ReadTold(cx, st, path, fr, sh1);
      ReadLater(cx, st, fr, sh, sh1, ReceiveFrame(cx, st, path, fr, sh), 1, m, k);
    }
  }

  lemma ReceivedLater(cx: Context, st: Step, fr: Frame, sh: Shared, sh1: Shared, r: Result, m: nat, k: nat)
    requires st.kind.Socket? && Received(cx, st, fr, sh1, r, 0, m, k)
    requires sh1.tick == sh.tick + 1 && sh1.closed == sh.closed && sh1.dialled == sh.dialled
    ensures Received(cx, st, fr, sh, r, 1, m, k)
  {
    hide Bound, AskedFor, NotOk, Counts;
  }

  /** Working on a session. One that nothing opened is an error of the engine; a dead one fails the step with
      what ended it, and nothing is asked. A frame that cannot be sent retires the session, and nothing is
      awaited then. */
  ghost predicate Worked(cx: Context, st: Step, fr: Frame, sh: Shared, r: Result, m: nat, k: nat)
    requires st.kind.Socket?
  {
    var s, a := st.kind.session, cx.world(sh.tick);
    if s !in fr.ws then
      r.fr == fr && r.err && !r.cont && r.out == Some(Ok) && r.sh == Note(sh, NeverOpened(s))
    else if fr.ws[s].dead != "" then
      && Reports(cx, st, fr, sh, r, [Failure(st.id, fr.ws[s].dead)], 0, Failed)
      && SameBut(fr, r) && r.fr.throttled == fr.throttled && r.sh.dialled == sh.dialled
    else if st.kind.send.None? then Received(cx, st, fr, sh, r, 0, m, k)
    else if a.fatal || Expand(cx, fr.vars, sh, st.kind.send.value).1.None? then
      r.fr == fr && r.err && !r.cont && r.out == Some(Ok) && r.sh.tick == sh.tick + 1 && r.sh.dialled == sh.dialled
    else if !a.ok then Retired(cx, st, fr, sh, r, a, 1)
    else Received(cx, st, fr, sh, r, 1, m, k)
  }

  lemma WorkTold(cx: Context, st: Step, path: seq<string>, fr: Frame, sh: Shared) returns (m: nat, k: nat)
    requires st.kind.Socket?
    ensures Worked(cx, st, fr, sh, WorkSocket(cx, st, path, fr, sh), m, k)
  {
    hide Fail, Expand, Retire, ReceiveFrame, Received, Counts;
    m, k := 0, 0;
    var s := st.kind.session;
    if s !in fr.ws {
    } else if fr.ws[s].dead != "" {
      FailReports(cx, st, path, fr, sh, fr.ws[s].dead, Failed);
    } else if st.kind.send.None? {
      m, k := ReceiveTold(cx, st, path, fr, sh);
    } else {
      var (sh1, text) := Expand(cx, fr.vars, sh, st.kind.send.value);
      ExpandKeeps(cx, fr.vars, sh, st.kind.send.value);
      var (a, sh2) := Ask(cx, sh1);
      if text.None? || a.fatal {
      } else if !a.ok {
        RetireTold(cx, st, path, fr, sh2, a);
      } else {
        m, k := ReceiveTold(cx, st, path, fr, sh2);
        ReceivedLater(cx, st, fr, sh, sh2, ReceiveFrame(cx, st, path, fr, sh2), m, k);
      }
    }
  }

  /** Opening a session, over the answers of the allow-list, `b`, and of the dial, `a`. Past a refusal nothing
      is dialled; either refusal leaves the session dead of its reason and without a connection; and only a
      session alive on the connection just dialled is worked on. */
  lemma OpenTold(cx: Context, st: Step, path: seq<string>, fr: Frame, sh: Shared)
    requires st.kind.Socket?
    ensures var r, s := OpenSocket(cx, st, path, fr, sh), st.kind.session;
            var b, a, conn := cx.world(sh.tick), cx.world(sh.tick + 1), sh.tick + 1;
            var built := ExpandAll(cx, fr.vars, sh, st.kind.open);
            var signed := ExpandAll(cx, fr.vars, built.0.(tick := sh.tick + 1), st.kind.auth);
            && r.fr.vars == fr.vars
            && (r.sh.dialled == if built.1 && b.ok && signed.1 && a.ok then sh.dialled + {conn} else sh.dialled)
            && (!built.1 || (b.ok && !signed.1) ==> r.err && !r.cont && r.out == Some(Ok) && r.fr == fr)
            && (built.1 && !b.ok ==>
                  && Reports(cx, st, fr, sh, r, [Failure(st.id, b.detail)], 1, Failed)
                  && r.fr.ws == fr.ws[s := Session(None, b.detail)] && r.fr.throttled == fr.throttled)
            && (built.1 && b.ok && signed.1 && !a.ok ==>
                  && Reports(cx, st, fr, sh, r, if Counts(cx, st, a) then [Failure(st.id, a.detail)] else [], 2,
                             if a.throttle then Throttled else Failed)
                  && r.fr.ws == fr.ws[s := Session(None, a.detail)] && r.fr.throttled == (fr.throttled || a.throttle))
            && (built.1 && b.ok && signed.1 && a.ok ==>
                  && r.fr == fr.(ws := fr.ws[s := Session(Some(conn), "")])
                  && r.out == None && r.cont && !r.err && r.sh.tick == sh.tick + 2)
  {
    hide Fail, Trouble, ExpandAll, Counts;
    var (sh1, built) := ExpandAll(cx, fr.vars, sh, st.kind.open);
    ExpandAllKeeps(cx, fr.vars, sh, st.kind.open);
    var (b, sh2) := Ask(cx, sh1);
    var (sh3, signed) := ExpandAll(cx, fr.vars, sh2, st.kind.auth);
    ExpandAllKeeps(cx, fr.vars, sh2, st.kind.auth);
    var (a, sh4) := Ask(cx, sh3);
    var s := st.kind.session;
    if built && !b.ok {
      FailReports(cx, st, path, MarkSession(fr, s, Session(None, b.detail)), sh2, b.detail, Failed);
    } else if built && signed && !a.ok {
      TroubleReports(cx, st, path, MarkSession(fr, s, Session(None, a.detail)), sh4, a);
    }
  }

  /** A socket step that opens works on its session exactly when opening went well, and then on the session
      just opened; one that does not open works on the session as it is. */
  lemma SocketTold(cx: Context, st: Step, path: seq<string>, fr: Frame, sh: Shared) returns (m: nat, k: nat)
    requires st.kind.Socket?
    ensures var r, o := RunSocket(cx, st, path, fr, sh), OpenSocket(cx, st, path, fr, sh);
            && (!st.kind.opens ==> Worked(cx, st, fr, sh, r, m, k))
            && (st.kind.opens && o.out == None ==> Worked(cx, st, o.fr, o.sh, r, m, k))
            && (st.kind.opens && o.out != None ==> r == o)
  {
    hide OpenSocket, WorkSocket, Worked;
    if !st.kind.opens {
      m, k := WorkTold(cx, st, path, fr, sh);
    } else {
      var o := OpenSocket(cx, st, path, fr, sh);
      m, k := WorkTold(cx, st, path, o.fr, o.sh);
    }
  }
}

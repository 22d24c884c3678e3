/** WebSocket sessions over a whole run (internal/executor/ws.go; internal/ir/validate.go:143-167): an
    accepted flow never works on a session nothing opened, a dead session stays dead, and every
    connection is closed exactly once. */
module Sessions {
  import opened FlowIr
  import opened Options
  import opened Interp
  import opened Validator

  /** No step worked on a session nothing opened, and none lacked what the check guarantees. */
  ghost predicate Whole(sh: Shared) {
    forall k :: 0 <= k < |sh.log| ==> !sh.log[k].NeverOpened? && !sh.log[k].Crashed?
  }

  /** `live` is what is still to be closed: everything else dialled was closed exactly once. */
  ghost predicate Balanced(sh: Shared, live: set<nat>) {
    && live <= sh.dialled
    && sh.closed == multiset(sh.dialled - live)
    && forall c :: c in sh.dialled ==> c < sh.tick
  }

  /** A session that is alive has its connection. */
  ghost predicate Wired(ws: map<string, Session>) {
    forall n :: n in ws && ws[n].dead == "" ==> ws[n].conn.Some?
  }

  /** Between steps at one level, with `outer` the connections of the levels around it. */
  ghost predicate Sound(outer: set<nat>, fr: Frame, sh: Shared) {
    Whole(sh) && Wired(fr.ws) && outer !! Conns(fr.ws) && Balanced(sh, outer + Conns(fr.ws))
  }

  /** Sessions stay registered, keep their connection, and once dead stay dead of the same cause. */
  ghost predicate StayDead(ws: map<string, Session>, ws': map<string, Session>) {
    forall n :: n in ws ==>
      n in ws' && ws'[n].conn == ws[n].conn && (ws[n].dead != "" ==> ws'[n].dead == ws[n].dead)
  }

  /** What happened between the two touched no session, dialled and closed nothing, and went as the
      check guarantees. */
  ghost predicate Aside(sh: Shared, sh': Shared) {
    && sh'.dialled == sh.dialled && sh'.closed == sh.closed && sh.tick <= sh'.tick
    && (Whole(sh) ==> Whole(sh'))
  }

  /** What a step or a run of steps keeps. */
  ghost predicate Kept(outer: set<nat>, fr: Frame, r: Result) {
    Sound(outer, r.fr, r.sh) && StayDead(fr.ws, r.fr.ws)
  }

  lemma AsideSound(outer: set<nat>, fr: Frame, sh: Shared, fr': Frame, sh': Shared)
    requires Sound(outer, fr, sh) && Aside(sh, sh') && fr'.ws == fr.ws
    ensures Sound(outer, fr', sh') && StayDead(fr.ws, fr'.ws)
  {
    hide Whole;
  }

  // ---------------------------------------------------------------- steps that leave sessions alone

  lemma {:induction false} ExpandAside(cx: Context, vars: map<string, Value>, sh: Shared, t: Templated)
    ensures Aside(sh, Expand(cx, vars, sh, t).0)
    decreases t
  {
    hide ScopeValue;
    if t != [] {
      match t[0] {
        case Text(_) => ExpandAside(cx, vars, sh, t[1..]);
        case Ref(name, _) =>
          ExpandAside(cx, vars, if ScopeValue(cx, vars, name).NoValueYet? then Note(sh, NoValue(name)) else sh, t[1..]);
      }
    }
  }

  lemma {:induction false} ExpandAllAside(cx: Context, vars: map<string, Value>, sh: Shared, ts: seq<Templated>)
    ensures Aside(sh, ExpandAll(cx, vars, sh, ts).0)
    decreases ts
  {
    if ts != [] {
      ExpandAside(cx, vars, sh, ts[0]);
      ExpandAllAside(cx, vars, Expand(cx, vars, sh, ts[0]).0, ts[1..]);
    }
  }

  lemma FailAside(cx: Context, st: Step, path: seq<string>, fr: Frame, sh: Shared, detail: string, out: Outcome)
    ensures var r := Fail(cx, st, path, fr, sh, detail, out); Aside(sh, r.sh) && r.fr.ws == fr.ws
  {
    hide EffectiveAction, Binds;
  }

  lemma TroubleAside(cx: Context, st: Step, path: seq<string>, fr: Frame, sh: Shared, a: Answer, out: Outcome)
    ensures var r := Fail(cx, st, path, fr, sh, a.detail, out); Aside(sh, r.sh) && r.fr.ws == fr.ws
    ensures var r := Trouble(cx, st, path, fr, sh, a); Aside(sh, r.sh) && r.fr.ws == fr.ws
  {
    hide EffectiveAction, ThrottleIsError, Binds, Fail;
    var fr1, sh1 := fr.(throttled := true), Note(sh, SawThrottle);
    FailAside(cx, st, path, fr, sh, a.detail, out);
    FailAside(cx, st, path, fr, sh, a.detail, Failed);
    FailAside(cx, st, path, fr1, sh1, a.detail, Throttled);
  }

  lemma {:induction false} AssertAside(cx: Context, st: Step, path: seq<string>, left: nat, fr: Frame, sh: Shared,
          out: Outcome)
    ensures var r := Assert(cx, st, path, left, fr, sh, out); Aside(sh, r.sh) && r.fr.ws == fr.ws
    decreases left
  {
    hide Fail, Whole;
    if left > 0 {
      var (a, sh1) := Ask(cx, sh);
      if a.ok {
        AssertAside(cx, st, path, left - 1, fr, sh1, out);
        NoteAside(sh, sh1);
      } else {
        TroubleAside(cx, st, path, fr, sh1, a, Failed);
        NoteAside(sh, sh1);
        var r := Fail(cx, st, path, fr, sh1, a.detail, Failed);
        if !a.fatal && r.cont {
          AssertAside(cx, st, path, left - 1, r.fr, r.sh, Failed);
        }
      }
    }
  }

  /** Asking a question alone, or noting something harmless. */
  lemma NoteAside(sh: Shared, sh1: Shared)
    requires sh1 == sh.(tick := sh.tick + 1)
    ensures Aside(sh, sh1)
  {
  }

  lemma {:induction false} ExtractAside(cx: Context, st: Step, path: seq<string>, names: seq<string>, fr: Frame,
          sh: Shared)
    ensures var r := Extract(cx, st, path, names, fr, sh); Aside(sh, r.sh) && r.fr.ws == fr.ws
    decreases names
  {
    hide Fail, Whole, Assert;
    if names == [] {
      AssertAside(cx, st, path, |st.assert_|, fr, sh, Ok);
    } else {
      var (a, sh1) := Ask(cx, sh);
      NoteAside(sh, sh1);
      if a.value.None? {
        TroubleAside(cx, st, path, fr, sh1, a, Failed);
      } else {
        ExtractAside(cx, st, path, names[1..], fr.(vars := fr.vars[names[0] := a.value.value]), sh1);
      }
    }
  }

  lemma RequestAside(cx: Context, st: Step, path: seq<string>, fr: Frame, sh: Shared)
    requires st.kind.Request?
    ensures var r := RunRequest(cx, st, path, fr, sh); Aside(sh, r.sh) && r.fr.ws == fr.ws
  {
    hide Fail, Trouble, Extract, ExpandAll, Whole;
    var (sh1, built) := ExpandAll(cx, fr.vars, sh, st.kind.fields);
    ExpandAllAside(cx, fr.vars, sh, st.kind.fields);
    var (b, sh2) := Ask(cx, sh1);
    NoteAside(sh1, sh2);
    var (sh3, signed) := ExpandAll(cx, fr.vars, sh2, st.kind.auth);
    ExpandAllAside(cx, fr.vars, sh2, st.kind.auth);
    var (a, sh4) := Ask(cx, sh3);
    NoteAside(sh3, sh4);
    TroubleAside(cx, st, path, fr, sh2, b, Failed);
    TroubleAside(cx, st, path, fr, sh4, a, Failed);
    ExtractAside(cx, st, path, st.extract, fr, sh4);
  }

  // ---------------------------------------------------------------- sockets

  lemma ConnsWith(ws: map<string, Session>, name: string, s: Session)
    requires name !in ws
    ensures Conns(ws[name := s]) == Conns(ws) + (if s.conn.Some? then {s.conn.value} else {})
  {
    var ws' := ws[name := s];
    assert name in ws' && ws'[name] == s;
    assert forall n :: n in ws ==> n in ws' && ws'[n] == ws[n];
  }

  lemma Dial(sh: Shared, live: set<nat>)
    requires Balanced(sh, live)
    ensures Balanced(sh.(tick := sh.tick + 1, dialled := sh.dialled + {sh.tick}), live + {sh.tick})
    ensures sh.tick !in live
  {
    assert (sh.dialled + {sh.tick}) - (live + {sh.tick}) == sh.dialled - live;
  }

  /** Registering a new name without a connection. */
  lemma RegisterDead(outer: set<nat>, fr: Frame, sh: Shared, name: string, s: Session)
    requires Sound(outer, fr, sh) && name !in fr.ws && s.conn.None? && s.dead != ""
    ensures Sound(outer, MarkSession(fr, name, s), sh)
    ensures StayDead(fr.ws, MarkSession(fr, name, s).ws)
  {
    ConnsWith(fr.ws, name, s);
    hide Balanced, Conns, Whole;
    assert Conns(fr.ws) + {} == Conns(fr.ws);
  }

  /** Registering a new name with the connection just dialled. */
  lemma RegisterLive(outer: set<nat>, fr: Frame, sh: Shared, name: string)
    requires Sound(outer, fr, sh) && name !in fr.ws
    ensures Sound(outer, MarkSession(fr, name, Session(Some(sh.tick), "")),
                  sh.(tick := sh.tick + 1, dialled := sh.dialled + {sh.tick}))
    ensures StayDead(fr.ws, MarkSession(fr, name, Session(Some(sh.tick), "")).ws)
  {
    ConnsWith(fr.ws, name, Session(Some(sh.tick), ""));
    Dial(sh, outer + Conns(fr.ws));
    hide Balanced, Conns;
    assert outer + (Conns(fr.ws) + {sh.tick}) == outer + Conns(fr.ws) + {sh.tick};
  }

  /** Retiring a live session. */
  lemma Bury(outer: set<nat>, fr: Frame, sh: Shared, sh': Shared, name: string, why: Reason)
    requires Sound(outer, fr, sh) && Aside(sh, sh') && name in fr.ws && fr.ws[name].dead == ""
    ensures var fr' := MarkSession(fr, name, fr.ws[name].(dead := why));
            Sound(outer, fr', sh') && StayDead(fr.ws, fr'.ws) && fr'.ws.Keys == fr.ws.Keys
  {
    hide Whole;
    AsideSound(outer, fr, sh, fr, sh');
    var ws' := fr.ws[name := fr.ws[name].(dead := why)];
    assert forall n :: n in ws' ==> n in fr.ws && ws'[n].conn == fr.ws[n].conn;
    assert forall n :: n in fr.ws ==> n in ws' && ws'[n].conn == fr.ws[n].conn;
    assert Conns(ws') == Conns(fr.ws);
  }

  /** Afterwards, when what follows leaves sessions alone. */
  lemma ThenAside(outer: set<nat>, fr: Frame, fr1: Frame, sh1: Shared, r: Result)
    requires Sound(outer, fr1, sh1) && StayDead(fr.ws, fr1.ws) && Aside(sh1, r.sh) && r.fr.ws == fr1.ws
    ensures Kept(outer, fr, r)
  {
    AsideSound(outer, fr1, sh1, r.fr, r.sh);
  }

  lemma StayDeadTrans(a: map<string, Session>, b: map<string, Session>, c: map<string, Session>)
    requires StayDead(a, b) && StayDead(b, c)
    ensures StayDead(a, c)
  {
  }

  lemma OpenKept(outer: set<nat>, cx: Context, st: Step, path: seq<string>, fr: Frame, sh: Shared)
    requires st.kind.Socket? && st.kind.session !in fr.ws && Sound(outer, fr, sh)
    ensures var r := OpenSocket(cx, st, path, fr, sh);
            && Kept(outer, fr, r)
            && (!r.err ==> r.fr.ws.Keys == fr.ws.Keys + {st.kind.session})
            && (r.out.None? ==> !r.err && r.fr.ws[st.kind.session].dead == "")
  {
    hide Sound, StayDead, Aside, ExpandAll, Fail, Trouble;
    var name := st.kind.session;
    var (sh1, built) := ExpandAll(cx, fr.vars, sh, st.kind.open);
    ExpandAllAside(cx, fr.vars, sh, st.kind.open);
    var (b, sh2) := Ask(cx, sh1);
    NoteAside(sh1, sh2);
    AsideTrans(sh, sh1, sh2);
    var (sh3, signed) := ExpandAll(cx, fr.vars, sh2, st.kind.auth);
    ExpandAllAside(cx, fr.vars, sh2, st.kind.auth);
    AsideTrans(sh, sh2, sh3);
    var (a, sh4) := Ask(cx, sh3);
    NoteAside(sh3, sh4);
    AsideTrans(sh, sh3, sh4);
    var r := OpenSocket(cx, st, path, fr, sh);
    TroubleShape(cx, st, path, MarkSession(fr, name, Session(None, b.detail)), sh2, b);
    TroubleShape(cx, st, path, MarkSession(fr, name, Session(None, a.detail)), sh4, a);
    if !built {
      AsideSound(outer, fr, sh, fr, sh1);
    } else if !b.ok {
      var fr1 := MarkSession(fr, name, Session(None, b.detail));
      AsideSound(outer, fr, sh, fr, sh2);
      RegisterDead(outer, fr, sh2, name, Session(None, b.detail));
      TroubleAside(cx, st, path, fr1, sh2, b, Failed);
      ThenAside(outer, fr, fr1, sh2, r);
    } else if !signed {
      AsideSound(outer, fr, sh, fr, sh3);
    } else if !a.ok {
      var fr1 := MarkSession(fr, name, Session(None, a.detail));
      AsideSound(outer, fr, sh, fr, sh4);
      RegisterDead(outer, fr, sh4, name, Session(None, a.detail));
      TroubleAside(cx, st, path, fr1, sh4, a, Failed);
      ThenAside(outer, fr, fr1, sh4, r);
    } else {
      AsideSound(outer, fr, sh, fr, sh3);
      RegisterLive(outer, fr, sh3, name);
    }
  }

  lemma AsideTrans(a: Shared, b: Shared, c: Shared)
    requires Aside(a, b) && Aside(b, c)
    ensures Aside(a, c)
  {
    hide Whole;
  }

  lemma TroubleShape(cx: Context, st: Step, path: seq<string>, fr: Frame, sh: Shared, a: Answer)
    ensures var r := Fail(cx, st, path, fr, sh, a.detail, Failed); r.out.Some? && !r.err
    ensures var r := Trouble(cx, st, path, fr, sh, a); r.out.Some? && !r.err
  {
  }

  lemma ReceiveKept(outer: set<nat>, cx: Context, st: Step, path: seq<string>, fr0: Frame, sh0: Shared, fr: Frame,
          sh: Shared)
    requires st.kind.Socket? && st.kind.session in fr.ws && fr.ws[st.kind.session].dead == ""
    requires Sound(outer, fr0, sh0) && Aside(sh0, sh) && fr.ws == fr0.ws
    ensures var r := ReceiveFrame(cx, st, path, fr, sh); Kept(outer, fr, r) && r.fr.ws.Keys == fr.ws.Keys
  {
    hide Sound, StayDead, Aside, Trouble, Extract;
    AsideSound(outer, fr0, sh0, fr, sh);
    var (a, sh1) := Ask(cx, sh);
    NoteAside(sh, sh1);
    ExtractAside(cx, st, path, st.extract, fr, sh1);
    if st.kind.receives && !a.ok {
      RetireKept(outer, cx, st, path, fr, sh, sh1, a);
    } else if st.kind.receives {
      AsideTrans(sh, sh1, ReceiveFrame(cx, st, path, fr, sh).sh);
      AsideSound(outer, fr, sh, ReceiveFrame(cx, st, path, fr, sh).fr, ReceiveFrame(cx, st, path, fr, sh).sh);
    }
  }

  lemma RetireKept(outer: set<nat>, cx: Context, st: Step, path: seq<string>, fr: Frame, sh: Shared, sh1: Shared,
          a: Answer)
    requires st.kind.Socket? && st.kind.session in fr.ws && fr.ws[st.kind.session].dead == ""
    requires Sound(outer, fr, sh) && Aside(sh, sh1)
    ensures var r := Retire(cx, st, path, fr, sh1, a); Kept(outer, fr, r) && r.fr.ws.Keys == fr.ws.Keys
  {
    hide Sound, StayDead, Aside, Trouble;
    var name := st.kind.session;
    var fr1 := MarkSession(fr, name, fr.ws[name].(dead := a.detail));
    Bury(outer, fr, sh, sh1, name, a.detail);
    TroubleAside(cx, st, path, fr1, sh1, a, Failed);
    ThenAside(outer, fr, fr1, sh1, Retire(cx, st, path, fr, sh1, a));
  }

  lemma WorkKept(outer: set<nat>, cx: Context, st: Step, path: seq<string>, fr: Frame, sh: Shared)
    requires st.kind.Socket? && st.kind.session in fr.ws && Sound(outer, fr, sh)
    ensures var r := WorkSocket(cx, st, path, fr, sh); Kept(outer, fr, r) && r.fr.ws.Keys == fr.ws.Keys
  {
    hide Sound, StayDead, Aside, Retire, ReceiveFrame, Expand, Fail;
    var s := st.kind.session;
    if fr.ws[s].dead != "" {
      FailAside(cx, st, path, fr, sh, fr.ws[s].dead, Failed);
      AsideSound(outer, fr, sh, WorkSocket(cx, st, path, fr, sh).fr, WorkSocket(cx, st, path, fr, sh).sh);
    } else if st.kind.send.None? {
      SameAside(sh);
      ReceiveKept(outer, cx, st, path, fr, sh, fr, sh);
    } else {
      var (sh1, text) := Expand(cx, fr.vars, sh, st.kind.send.value);
      ExpandAside(cx, fr.vars, sh, st.kind.send.value);
      var (a, sh2) := Ask(cx, sh1);
      NoteAside(sh1, sh2);
      AsideTrans(sh, sh1, sh2);
      if text.None? || a.fatal {
        AsideSound(outer, fr, sh, fr, sh2);
      } else if !a.ok {
        RetireKept(outer, cx, st, path, fr, sh, sh2, a);
      } else {
        ReceiveKept(outer, cx, st, path, fr, sh, fr, sh2);
      }
    }
  }

  lemma SameAside(sh: Shared)
    ensures Aside(sh, sh)
  {
  }

  lemma SocketKept(outer: set<nat>, cx: Context, st: Step, path: seq<string>, fr: Frame, sh: Shared)
    requires st.kind.Socket? && (st.kind.opens <==> st.kind.session !in fr.ws) && Sound(outer, fr, sh)
    ensures var r := RunSocket(cx, st, path, fr, sh);
            && Kept(outer, fr, r)
            && (!r.err ==> r.fr.ws.Keys == fr.ws.Keys + {st.kind.session})
  {
    hide Sound, StayDead, OpenSocket, WorkSocket;
    if !st.kind.opens {
      WorkKept(outer, cx, st, path, fr, sh);
    } else {
      OpenKept(outer, cx, st, path, fr, sh);
      var o := OpenSocket(cx, st, path, fr, sh);
      if o.out.None? {
        WorkKept(outer, cx, st, path, o.fr, o.sh);
        StayDeadTrans(fr.ws, o.fr.ws, RunSocket(cx, st, path, fr, sh).fr.ws);
      }
    }
  }

  // ---------------------------------------------------------------- one connection, one session

  /** No two sessions of a level hold the same connection, and every connection was dialled before now. */
  ghost predicate Tidy(ws: map<string, Session>, tick: nat) {
    && (forall m, n :: m in ws && n in ws && m != n && ws[m].conn.Some? ==> ws[m].conn != ws[n].conn)
    && (forall n :: n in ws && ws[n].conn.Some? ==> ws[n].conn.value < tick)
  }

  /** From one state of a level to a later one. */
  ghost predicate StaysTidy(fr: Frame, sh: Shared, r: Result) {
    sh.tick <= r.sh.tick && (Tidy(fr.ws, sh.tick) ==> Tidy(r.fr.ws, r.sh.tick))
  }

  /** Registering a session without a connection, or with one dialled just now. */
  lemma MarkTidy(ws: map<string, Session>, name: string, s: Session, tick: nat, later: nat)
    requires s.conn.None? ==> tick <= later
    requires s.conn.Some? ==> s.conn.value == tick < later
    ensures Tidy(ws, tick) ==> Tidy(ws[name := s], later)
  {
  }

  lemma OpenTidy(cx: Context, st: Step, path: seq<string>, fr: Frame, sh: Shared)
    requires st.kind.Socket?
    ensures StaysTidy(fr, sh, OpenSocket(cx, st, path, fr, sh))
  {
    hide ExpandAll, Fail, Trouble, Whole, Tidy;
    var name := st.kind.session;
    var (sh1, built) := ExpandAll(cx, fr.vars, sh, st.kind.open);
    ExpandAllAside(cx, fr.vars, sh, st.kind.open);
    var (b, sh2) := Ask(cx, sh1);
    var (sh3, signed) := ExpandAll(cx, fr.vars, sh2, st.kind.auth);
    ExpandAllAside(cx, fr.vars, sh2, st.kind.auth);
    var (a, sh4) := Ask(cx, sh3);
    var refused, lost := Session(None, b.detail), Session(None, a.detail);
    TroubleAside(cx, st, path, MarkSession(fr, name, refused), sh2, b, Failed);
    TroubleAside(cx, st, path, MarkSession(fr, name, lost), sh4, a, Failed);
    var r := OpenSocket(cx, st, path, fr, sh);
    LaterTidy(fr.ws, sh.tick, r.sh.tick);
    LaterTidy(fr.ws, sh.tick, sh3.tick);
    if built && !b.ok {
      MarkTidy(fr.ws, name, refused, sh.tick, r.sh.tick);
    } else if built && signed && !a.ok {
      MarkTidy(fr.ws, name, lost, sh.tick, r.sh.tick);
    } else if built && signed {
      MarkTidy(fr.ws, name, Session(Some(sh3.tick), ""), sh3.tick, r.sh.tick);
    }
  }

  lemma RetireTidy(cx: Context, st: Step, path: seq<string>, fr: Frame, sh: Shared, a: Answer)
    requires st.kind.Socket? && st.kind.session in fr.ws
    ensures StaysTidy(fr, sh, Retire(cx, st, path, fr, sh, a))
  {
    hide Trouble, Whole;
    var s := st.kind.session;
    TroubleAside(cx, st, path, MarkSession(fr, s, fr.ws[s].(dead := a.detail)), sh, a, Failed);
  }

  lemma ReceiveTidy(cx: Context, st: Step, path: seq<string>, fr: Frame, sh: Shared)
    requires st.kind.Socket? && st.kind.session in fr.ws
    ensures StaysTidy(fr, sh, ReceiveFrame(cx, st, path, fr, sh))
  {
    hide Retire, Extract, Whole;
    var (a, sh1) := Ask(cx, sh);
    RetireTidy(cx, st, path, fr, sh1, a);
    ExtractAside(cx, st, path, st.extract, fr, sh1);
  }

  lemma WorkTidy(cx: Context, st: Step, path: seq<string>, fr: Frame, sh: Shared)
    requires st.kind.Socket?
    ensures StaysTidy(fr, sh, WorkSocket(cx, st, path, fr, sh))
  {
    hide Retire, ReceiveFrame, Expand, Fail, Whole;
    var s := st.kind.session;
    if s in fr.ws {
      FailAside(cx, st, path, fr, sh, fr.ws[s].dead, Failed);
      ReceiveTidy(cx, st, path, fr, sh);
      if st.kind.send.Some? {
        var (sh1, text) := Expand(cx, fr.vars, sh, st.kind.send.value);
        ExpandAside(cx, fr.vars, sh, st.kind.send.value);
        var (a, sh2) := Ask(cx, sh1);
        RetireTidy(cx, st, path, fr, sh2, a);
        ReceiveTidy(cx, st, path, fr, sh2);
      }
    }
  }

  lemma SocketTidy(cx: Context, st: Step, path: seq<string>, fr: Frame, sh: Shared)
    requires st.kind.Socket?
    ensures StaysTidy(fr, sh, RunSocket(cx, st, path, fr, sh))
  {
    hide OpenSocket, WorkSocket, Tidy;
    var r := OpenSocket(cx, st, path, fr, sh);
    OpenTidy(cx, st, path, fr, sh);
    WorkTidy(cx, st, path, fr, sh);
    WorkTidy(cx, st, path, r.fr, r.sh);
  }

  lemma {:induction false} BindTick(cx: Context, callerVars: map<string, Value>, with: map<string, Templated>,
                                    ins: seq<Input>, vars: map<string, Value>, sh: Shared)
    ensures sh.tick <= BindInputs(cx, callerVars, with, ins, vars, sh).1.tick
    decreases ins
  {
    hide Expand, Whole;
    if ins != [] && (ins[0].name in with || ins[0].default.Some?) {
      var i := ins[0];
      if i.name in with {
        ExpandAside(cx, callerVars, sh, with[i.name]);
      } else {
        ExpandAside(ChildContext(cx), vars, sh, i.default.value);
      }
      var (sh1, text) := if i.name in with then Expand(cx, callerVars, sh, with[i.name])
                         else Expand(ChildContext(cx), vars, sh, i.default.value);
      if text.Some? {
        BindTick(cx, callerVars, with, ins[1..], vars["inputs." + i.name := Str(text.value)], sh1);
      }
    }
  }

  lemma {:induction false} UseTidy(cx: Context, st: Step, path: seq<string>, fr: Frame, sh: Shared)
    requires st.kind.Use?
    ensures StaysTidy(fr, sh, RunUse(cx, st, path, fr, sh))
    decreases st, 0
  {
    hide Tidy, RunSteps, BindInputs, Conns, Prefixed, GiveOutputs;
    if st.kind.flow.Some? {
      var f := st.kind.flow.value;
      var (vars, sh1, bound) := BindInputs(cx, fr.vars, st.kind.with, f.inputs, map[], sh);
      BindTick(cx, fr.vars, st.kind.with, f.inputs, map[], sh);
      if bound {
        StepsTidy(ChildContext(cx), f.steps, path + [st.id], FRESH_FRAME.(vars := vars), sh1, Ok);
      }
    }
    LaterTidy(fr.ws, sh.tick, RunUse(cx, st, path, fr, sh).sh.tick);
  }

  lemma LaterTidy(ws: map<string, Session>, tick: nat, later: nat)
    ensures Tidy(ws, tick) && tick <= later ==> Tidy(ws, later)
  {
  }

  lemma {:induction false} StepTidy(cx: Context, st: Step, path: seq<string>, fr: Frame, sh: Shared)
    ensures StaysTidy(fr, sh, RunStep(cx, st, path, fr, sh))
    decreases st, 1
  {
    hide Tidy, RunRequest, RunSocket, RunUse, Whole;
    var sh1 := Note(sh, Started(path + [st.id]));
    match st.kind {
      case Request(_, _) =>
        RequestAside(cx, st, path, fr, sh1);
        LaterTidy(fr.ws, sh1.tick, RunRequest(cx, st, path, fr, sh1).sh.tick);
      case Socket(_, _, _, _, _, _) => SocketTidy(cx, st, path, fr, sh1);
      case Use(_, _, _) => UseTidy(cx, st, path, fr, sh1);
      case Wait =>
      case Poll(_) =>
    }
  }

  /** Any flow, accepted or not: one session holds one connection. */
  lemma {:induction false} StepsTidy(cx: Context, steps: seq<Step>, path: seq<string>, fr: Frame, sh: Shared,
          out: Outcome)
    ensures StaysTidy(fr, sh, RunSteps(cx, steps, path, fr, sh, out))
    decreases steps, 2
  {
    hide Tidy, RunStep, Worst;
    if steps != [] {
      var s := RunStep(cx, steps[0], path, fr, sh);
      StepTidy(cx, steps[0], path, fr, sh);
      if !s.err && s.cont {
        StepsTidy(cx, steps[1..], path, s.fr, s.sh, if s.out.Some? then Worst(out, s.out.value) else out);
      }
    }
  }

  // ---------------------------------------------------------------- used flows and whole runs

  lemma {:induction false} BindAside(cx: Context, callerVars: map<string, Value>, with: map<string, Templated>,
                                     ins: seq<Input>, vars: map<string, Value>, sh: Shared)
    requires forall i :: 0 <= i < |ins| ==> ins[i].name in with || ins[i].default.Some?
    ensures Aside(sh, BindInputs(cx, callerVars, with, ins, vars, sh).1)
    decreases ins
  {
    hide Expand, Whole;
    SameAside(sh);
    if ins != [] {
      var i := ins[0];
      if i.name in with {
        ExpandAside(cx, callerVars, sh, with[i.name]);
      } else {
        ExpandAside(ChildContext(cx), vars, sh, i.default.value);
      }
      var (sh1, text) := if i.name in with then Expand(cx, callerVars, sh, with[i.name])
                         else Expand(ChildContext(cx), vars, sh, i.default.value);
      if text.Some? {
        BindAside(cx, callerVars, with, ins[1..], vars["inputs." + i.name := Str(text.value)], sh1);
      }
    }
  }

  /** A used flow starts with no session of its own. */
  lemma EnterUse(outer: set<nat>, fr: Frame, sh: Shared, vars: map<string, Value>)
    requires Sound(outer, fr, sh)
    ensures Sound(outer + Conns(fr.ws), FRESH_FRAME.(vars := vars), sh)
  {
    hide Whole;
    assert Conns(map[]) == {};
    assert outer + Conns(fr.ws) + {} == outer + Conns(fr.ws);
  }

  /** When it ends, its connections are closed and the caller's are as they were. */
  lemma LeaveUse(outer: set<nat>, fr: Frame, sub: Frame, sh: Shared, fr': Frame)
    requires outer !! Conns(fr.ws) && Wired(fr.ws) && Sound(outer + Conns(fr.ws), sub, sh) && fr'.ws == fr.ws
    ensures Sound(outer, fr', CloseSessions(sub, sh))
    ensures StayDead(fr.ws, fr'.ws)
  {
    Hang(sh, outer + Conns(fr.ws), Conns(sub.ws));
  }

  /** Closing some of what is live. */
  lemma Hang(sh: Shared, live: set<nat>, mine: set<nat>)
    requires live !! mine && Balanced(sh, live + mine)
    ensures Balanced(sh.(closed := sh.closed + multiset(mine)), live)
  {
    assert sh.dialled - live == (sh.dialled - (live + mine)) + mine;
    DisjointUnion(sh.dialled - (live + mine), mine);
  }

  lemma DisjointUnion(a: set<nat>, b: set<nat>)
    requires a !! b
    ensures multiset(a + b) == multiset(a) + multiset(b)
  {
  }

  lemma {:induction false} UseKept(outer: set<nat>, cx: Context, st: Step, path: seq<string>, fr: Frame, sh: Shared)
    requires st.kind.Use? && UseOk(st) && Sound(outer, fr, sh)
    ensures var r := RunUse(cx, st, path, fr, sh); Kept(outer, fr, r) && r.fr.ws.Keys == fr.ws.Keys
    decreases st, 0
  {
    var f := st.kind.flow.value;
    assert FlowOk(f, {}, true) && WithOk(st.kind.with, f.inputs);
    hide Sound, StayDead, Conns, Wired, StepsOk, InputsOk, OutputsOk, RunSteps, BindInputs, FinishUse;
    var (vars, sh1, bound) := BindInputs(cx, fr.vars, st.kind.with, f.inputs, map[], sh);
    BindAside(cx, fr.vars, st.kind.with, f.inputs, map[], sh);
    AsideSound(outer, fr, sh, fr, sh1);
    if bound {
      EnterUse(outer, fr, sh1, vars);
      var child := FRESH_FRAME.(vars := vars);
      StepsKept(outer + Conns(fr.ws), ChildContext(cx), f.steps, path + [st.id], child, sh1, Ok, Start(f));
      var r := RunSteps(ChildContext(cx), f.steps, path + [st.id], child, sh1, Ok);
      Apart(outer, fr, sh1);
      LeaveUse(outer, fr, r.fr, r.sh, Absorb(st.id, fr, r.fr));
      if !r.err {
        FinishKept(outer, cx, st, f, fr, r.fr, CloseSessions(r.fr, r.sh), r.out.value);
      }
    }
  }

  lemma Apart(outer: set<nat>, fr: Frame, sh: Shared)
    requires Sound(outer, fr, sh)
    ensures outer !! Conns(fr.ws) && Wired(fr.ws)
  {
  }

  lemma FinishKept(outer: set<nat>, cx: Context, st: Step, f: Flow, fr: Frame, sub: Frame, sh: Shared, out: Outcome)
    requires Sound(outer, Absorb(st.id, fr, sub), sh)
    ensures var r := FinishUse(cx, st, f, fr, sub, sh, out); Kept(outer, fr, r) && r.fr.ws.Keys == fr.ws.Keys
  {
    hide Sound, StayDead, Prefixed, GiveOutputs, EffectiveAction, Binds;
    var r := FinishUse(cx, st, f, fr, sub, sh, out);
    SameSessions(outer, Absorb(st.id, fr, sub), fr, r.fr, sh);
    NoteEnd(outer, r.fr, sh, AskedAbort);
    NoteEnd(outer, r.fr, sh, WentWithout(st.id));
  }

  lemma SameSessions(outer: set<nat>, fr: Frame, fr0: Frame, fr': Frame, sh: Shared)
    requires Sound(outer, fr, sh) && fr'.ws == fr.ws == fr0.ws
    ensures Sound(outer, fr', sh) && StayDead(fr0.ws, fr'.ws)
  {
    hide Whole, Balanced, Conns;
  }

  lemma NoteEnd(outer: set<nat>, fr: Frame, sh: Shared, e: Event)
    requires Sound(outer, fr, sh) && (e.AskedAbort? || e.WentWithout?)
    ensures Sound(outer, fr, Note(sh, e))
  {
  }

  lemma NoteStart(outer: set<nat>, fr: Frame, sh: Shared, path: seq<string>)
    requires Sound(outer, fr, sh)
    ensures Sound(outer, fr, Note(sh, Started(path)))
  {
  }

  lemma {:induction false} StepKept(outer: set<nat>, cx: Context, st: Step, path: seq<string>, fr: Frame, sh: Shared,
          k: Known)
    requires StepOk(k, st) && fr.ws.Keys == k.sessions && Sound(outer, fr, sh)
    ensures var r := RunStep(cx, st, path, fr, sh);
            Kept(outer, fr, r) && (r.cont && !r.err ==> r.fr.ws.Keys == After(k, st).sessions)
    decreases st, 1
  {
    hide Sound, StayDead, Aside, RunRequest, RunSocket, RunUse, UseOk, ShapeOk, RefsOk, Extracted;
    NoteStart(outer, fr, sh, path + [st.id]);
    var sh1 := Note(sh, Started(path + [st.id]));
    SameAside(sh1);
    AsideSound(outer, fr, sh1, fr, sh1);
    match st.kind {
      case Request(_, _) =>
        RequestAside(cx, st, path, fr, sh1);
        AsideSound(outer, fr, sh1, RunRequest(cx, st, path, fr, sh1).fr, RunRequest(cx, st, path, fr, sh1).sh);
      case Socket(_, _, _, _, _, _) => SocketKept(outer, cx, st, path, fr, sh1);
      case Use(_, _, _) => UseKept(outer, cx, st, path, fr, sh1);
      case Wait =>
      case Poll(_) =>
    }
  }

  /** Every run of accepted steps, at every depth, whatever each dial, throttle or allow-list check
      answers. */
  lemma {:induction false} StepsKept(outer: set<nat>, cx: Context, steps: seq<Step>, path: seq<string>, fr: Frame,
          sh: Shared, out: Outcome, k: Known)
    requires StepsOk(k, steps) && fr.ws.Keys == k.sessions && Sound(outer, fr, sh)
    ensures Kept(outer, fr, RunSteps(cx, steps, path, fr, sh, out))
    decreases steps, 2
  {
    hide Sound, StayDead, RunStep, StepOk, After, Worst;
    if steps == [] {
      SameAside(sh);
      AsideSound(outer, fr, sh, fr, sh);
    } else {
      var s := RunStep(cx, steps[0], path, fr, sh);
      StepKept(outer, cx, steps[0], path, fr, sh, k);
      if !s.err && s.cont {
        var out1 := if s.out.Some? then Worst(out, s.out.value) else out;
        StepsKept(outer, cx, steps[1..], path, s.fr, s.sh, out1, After(k, steps[0]));
        StayDeadTrans(fr.ws, s.fr.ws, RunSteps(cx, steps[1..], path, s.fr, s.sh, out1).fr.ws);
      }
    }
  }

  /** An accepted flow, run against any environment: no step at any depth works on a session nothing
      opened or meets a use step without a flow or an input without a value, and when the iteration
      ends every connection opened in it or in a used flow has been closed exactly once. */
  lemma RunClosesOnce(cx: Context, f: Flow, pools: set<string>)
    requires FlowOk(f, pools, false)
    ensures var r := RunFlow(cx, f); Whole(r.sh) && r.sh.closed == multiset(r.sh.dialled)
  {
    hide Whole, StepsOk, RunSteps, InputsOk, OutputsOk;
    assert Conns(map[]) == {};
    NothingWrong();
    StepsKept({}, cx, f.steps, [], FRESH_FRAME, NOTHING_YET, Ok, Start(f));
    var r := RunSteps(cx, f.steps, [], FRESH_FRAME, NOTHING_YET, Ok);
    LeaveUse({}, FRESH_FRAME, r.fr, r.sh, FRESH_FRAME);
  }

  lemma NothingWrong()
    ensures Sound({}, FRESH_FRAME, NOTHING_YET)
  {
    assert Conns(map[]) == {};
  }

  /** Across any accepted steps of one level, the entry's or a used flow's, a session that has died stays
      dead of the same cause and never gets another connection. */
  lemma DeadStaysDead(outer: set<nat>, cx: Context, steps: seq<Step>, i: nat, path: seq<string>, fr: Frame, sh: Shared,
                      k: Known, name: string)
    requires i <= |steps| && StepsOk(k, steps) && fr.ws.Keys == k.sessions && Sound(outer, fr, sh)
    ensures var before := RunSteps(cx, steps[..i], path, fr, sh, Ok);
            var after := RunSteps(cx, steps[i..], path, before.fr, before.sh, before.out.value);
            before.cont && name in before.fr.ws && before.fr.ws[name].dead != "" ==>
              name in after.fr.ws && after.fr.ws[name] == before.fr.ws[name]
  {
    SplitSteps(cx, steps, i, path, fr, sh, Ok, k, outer);
    hide Sound, StepsOk, RunSteps, AfterAll;
    var before := RunSteps(cx, steps[..i], path, fr, sh, Ok);
    if before.cont {
      StepsKept(outer, cx, steps[i..], path, before.fr, before.sh, before.out.value, AfterAll(k, steps[..i]));
    }
  }

  /** Before any accepted step of one level, a session that is alive has a connection that was dialled and
      has not been closed, so every frame is sent and awaited on one. */
  lemma AliveIsOpen(outer: set<nat>, cx: Context, steps: seq<Step>, i: nat, path: seq<string>, fr: Frame, sh: Shared,
                    k: Known, name: string)
    requires i <= |steps| && StepsOk(k, steps) && fr.ws.Keys == k.sessions && Sound(outer, fr, sh)
    ensures var before := RunSteps(cx, steps[..i], path, fr, sh, Ok);
            before.cont && name in before.fr.ws && before.fr.ws[name].dead == "" ==>
              var conn := before.fr.ws[name].conn;
              conn.Some? && conn.value in before.sh.dialled && conn.value !in before.sh.closed
  {
    SplitSteps(cx, steps, i, path, fr, sh, Ok, k, outer);
    hide StepsOk, RunSteps, AfterAll, Whole;
  }

  lemma {:induction false} SplitSteps(cx: Context, steps: seq<Step>, i: nat, path: seq<string>, fr: Frame, sh: Shared,
                                      out: Outcome, k: Known, outer: set<nat>)
    requires i <= |steps| && StepsOk(k, steps) && fr.ws.Keys == k.sessions && Sound(outer, fr, sh)
    ensures StepsOk(AfterAll(k, steps[..i]), steps[i..])
    ensures var r := RunSteps(cx, steps[..i], path, fr, sh, out);
            r.cont ==> Sound(outer, r.fr, r.sh) && r.fr.ws.Keys == AfterAll(k, steps[..i]).sessions
    decreases steps
  {
    hide Sound, RunStep, StepOk, After, StayDead;
    if i == 0 {
      assert steps[..0] == [] && steps[0..] == steps;
    } else {
      assert steps[..i][1..] == steps[1..][..i - 1] && steps[i..] == steps[1..][i - 1..];
      var s := RunStep(cx, steps[0], path, fr, sh);
      StepKept(outer, cx, steps[0], path, fr, sh, k);
      if !s.err && s.cont {
        SplitSteps(cx, steps[1..], i - 1, path, s.fr, s.sh,
                   if s.out.Some? then Worst(out, s.out.value) else out, After(k, steps[0]), outer);
      } else {
        AcceptedRest(k, steps, i);
      }
    }
  }

  lemma {:induction false} AcceptedRest(k: Known, steps: seq<Step>, i: nat)
    requires i <= |steps| && StepsOk(k, steps)
    ensures StepsOk(AfterAll(k, steps[..i]), steps[i..])
    decreases steps
  {
    hide StepOk, After;
    if i == 0 {
      assert steps[..0] == [] && steps[0..] == steps;
    } else {
      assert steps[..i][1..] == steps[1..][..i - 1] && steps[i..] == steps[1..][i - 1..];
      AcceptedRest(After(k, steps[0]), steps[1..], i - 1);
    }
  }
}

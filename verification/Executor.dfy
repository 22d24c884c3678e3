/** The engine as it runs: objects updated in place, with aliased sessions (internal/executor/
    iteration.go, ws.go and scope.go), proved to do what Interp says step by step. */
module Executor {
  import opened FlowIr
  import opened Options
  import opened Interp
  import Sessions

  /** One level's variables, and what is fixed while its flow runs. */
  class Scope {
    const cx: Context
    var vars: map<string, Value>

    constructor (cx: Context)
      ensures this.cx == cx && vars == map[]
    {
      this.cx := cx;
      vars := map[];
    }

    /** The scope a used flow runs in: the same environment, no data row, no variables. */
    method Child() returns (c: Scope)
      ensures fresh(c) && c.cx == ChildContext(cx) && c.vars == map[]
    {
      c := new Scope(ChildContext(cx));
    }

    method Set(name: string, v: Value)
      modifies this
      ensures vars == old(vars)[name := v]
    {
      vars := vars[name := v];
    }

    method Value(ref: string) returns (l: Lookup)
      ensures l == ScopeValue(cx, vars, ref)
    {
      var root, rest, hasDot := Root(ref), Rest(ref), HasDot(ref);
      if root == "env" {
        if !hasDot {
          return Missing;
        }
        var v := cx.env(rest);
        return if v.None? then Missing else Found(Str(v.value));
      } else if cx.pool != "" && root == cx.pool {
        var v := cx.row(rest);
        return if v.None? then Missing else Found(Str(v.value));
      } else if ref in vars {
        return Found(vars[ref]);
      } else {
        return NoValueYet;
      }
    }
  }

  class WsSession {
    const conn: Option<nat>
    var dead: string

    constructor (conn: Option<nat>, dead: string)
      ensures this.conn == conn && this.dead == dead
    {
      this.conn := conn;
      this.dead := dead;
    }
  }

  /** One level's record; its sessions are objects, shared by name. */
  class Iteration {
    var failures: seq<Failure>
    var throttled: bool
    var aborted: bool
    var ws: map<string, WsSession>

    constructor ()
      ensures failures == [] && !throttled && !aborted && ws == map[]
    {
      failures, throttled, aborted, ws := [], false, false, map[];
    }

    /** No two names share a session. */
    ghost predicate Valid()
      reads this
    {
      forall m, n :: m in ws && n in ws && m != n ==> ws[m] != ws[n]
    }

    ghost function Sessions(): map<string, Session>
      reads this, ws.Values
    {
      map n | n in ws :: Session(ws[n].conn, ws[n].dead)
    }

    /** This level as a value. */
    ghost function View(scope: Scope): Frame
      reads this, ws.Values, scope
    {
      Frame(scope.vars, Sessions(), failures, throttled, aborted)
    }

    /** Register a new session by name, dead or alive. */
    method MarkSession(name: string, conn: Option<nat>, dead: string, ghost scope: Scope)
      requires Valid()
      modifies this
      ensures Valid() && name in ws && fresh(ws[name]) && ws == old(ws)[name := ws[name]]
      ensures View(scope) == Interp.MarkSession(old(View(scope)), name, Session(conn, dead))
    {
      var s := new WsSession(conn, dead);
      ws := ws[name := s];
      assert Sessions() == old(Sessions())[name := Session(conn, dead)];
    }
  }

  /** What every level of a run shares: the position in the environment's answers, and, for the proof,
      the notes and the connections. */
  class Runner {
    var tick: nat
    ghost var log: seq<Event>
    ghost var dialled: set<nat>
    ghost var closed: multiset<nat>

    constructor ()
      ensures Seen() == NOTHING_YET
    {
      tick, log, dialled, closed := 0, [], {}, multiset{};
    }

    ghost function Seen(): Shared
      reads this
    {
      Shared(tick, log, dialled, closed)
    }

    method Ask(scope: Scope) returns (a: Answer)
      modifies this
      ensures (a, Seen()) == Interp.Ask(scope.cx, old(Seen()))
    {
      a := scope.cx.world(tick);
      tick := tick + 1;
    }

    ghost method Note(e: Event)
      modifies this
      ensures Seen() == Interp.Note(old(Seen()), e)
    {
      log := log + [e];
    }

    /** Going on past a step, with or without everything it was to bind. */
    ghost method Onward(st: Step, fr: Frame)
      modifies this
      ensures Seen() == Interp.Onward(st, fr, old(Seen()))
    {
      if !(Binds(st) <= fr.vars.Keys) {
        Note(WentWithout(st.id));
      }
    }

    // ------------------------------------------------------------ templates

    method Expand(scope: Scope, t: Templated) returns (text: Option<string>)
      modifies this
      ensures (Seen(), text) == Interp.Expand(scope.cx, scope.vars, old(Seen()), t)
    {
      hide *;
      ghost var whole := Interp.Expand(scope.cx, scope.vars, Seen(), t);
      text := Some("");
      ExpandEdges(scope.cx, scope.vars, Seen(), t, text);
      for i := 0 to |t|
        invariant var r := Interp.Expand(scope.cx, scope.vars, Seen(), t[i..]);
                  r.0 == whole.0 && Concat(text, r.1) == whole.1
      {
        match t[i] {
          case Text(s) =>
            ExpandText(scope.cx, scope.vars, Seen(), t, i, text);
            text := if text.None? then None else Some(text.value + s);
          case Ref(name, w) =>
            ExpandRef(scope.cx, scope.vars, Seen(), t, i, text);
            var l := scope.Value(name);
            if l.NoValueYet? {
              Note(NoValue(name));
            }
            var s := Injected(l, w);
            text := if text.None? || s.None? then None else Some(text.value + s.value);
        }
      }
      ExpandEdges(scope.cx, scope.vars, Seen(), t, text);
    }

    lemma ExpandText(cx: Context, vars: map<string, Value>, sh: Shared, t: Templated, i: nat, text: Option<string>)
      requires i < |t| && t[i].Text?
      ensures var r, r2 := Interp.Expand(cx, vars, sh, t[i..]), Interp.Expand(cx, vars, sh, t[i + 1..]);
              r.0 == r2.0 && Concat(text, r.1) ==
                 Concat(if text.None? then None else Some(text.value + t[i].text), r2.1)
    {
      assert t[i..][1..] == t[i + 1..];
      var r2 := Interp.Expand(cx, vars, sh, t[i + 1..]);
      if text.Some? && r2.1.Some? {
        assert text.value + t[i].text + r2.1.value == text.value + (t[i].text + r2.1.value);
      }
    }

    lemma ExpandRef(cx: Context, vars: map<string, Value>, sh: Shared, t: Templated, i: nat, text: Option<string>)
      requires i < |t| && t[i].Ref?
      ensures var l := ScopeValue(cx, vars, t[i].name);
              var s := Injected(l, t[i].whole);
              var r := Interp.Expand(cx, vars, sh, t[i..]);
              var r2 := Interp.Expand(cx, vars, if l.NoValueYet? then Interp.Note(sh, NoValue(t[i].name))
                        else sh, t[i + 1..]);
              r.0 == r2.0 && Concat(text, r.1) ==
                 Concat(if text.None? || s.None? then None else Some(text.value + s.value), r2.1)
    {
      hide ScopeValue, Injected;
      assert t[i..][1..] == t[i + 1..];
      var l := ScopeValue(cx, vars, t[i].name);
      var s := Injected(l, t[i].whole);
      var r2 := Interp.Expand(cx, vars, if l.NoValueYet? then Interp.Note(sh, NoValue(t[i].name)) else sh, t[i + 1..]);
      if text.Some? && s.Some? && r2.1.Some? {
        assert text.value + s.value + r2.1.value == text.value + (s.value + r2.1.value);
      }
    }

    lemma ExpandEdges(cx: Context, vars: map<string, Value>, sh: Shared, t: Templated, text: Option<string>)
      ensures Interp.Expand(cx, vars, sh, t[|t|..]) == (sh, Some("")) && Concat(text, Some("")) == text
      ensures t[0..] == t && forall r :: Concat(Some(""), r) == r
    {
      if text.Some? {
        assert text.value + "" == text.value;
      }
      forall r
        ensures Concat(Some(""), r) == r
      {
        if r.Some? {
          assert "" + r.value == r.value;
        }
      }
    }

    method ExpandAll(scope: Scope, ts: seq<Templated>) returns (ok: bool)
      modifies this
      ensures (Seen(), ok) == Interp.ExpandAll(scope.cx, scope.vars, old(Seen()), ts)
    {
      assert ts[0..] == ts;
      for i := 0 to |ts|
        invariant Interp.ExpandAll(scope.cx, scope.vars, old(Seen()), ts) ==
                  Interp.ExpandAll(scope.cx, scope.vars, Seen(), ts[i..])
      {
        assert ts[i..][1..] == ts[i + 1..];
        hide Interp.Expand;
        var text := Expand(scope, ts[i]);
        if text.None? {
          return false;
        }
      }
      return true;
    }

    // ------------------------------------------------------------ recording

    /** Record a failure and say whether the flow goes on. */
    method Record(it: Iteration, st: Step, path: seq<string>, scope: Scope, detail: string, ghost out: Outcome)
      returns (cont: bool)
      modifies this, it
      ensures it.ws == old(it.ws)
      ensures Result(it.View(scope), Seen(), Some(out), cont, false) ==
              Fail(scope.cx, st, path, old(it.View(scope)), old(Seen()), detail, out)
    {
      hide Binds;
      ghost var fr := it.View(scope);
      it.failures := it.failures + [Failure(st.id, detail)];
      Note(Recorded(path + [st.id], detail));
      assert it.Sessions() == fr.ws;
      match EffectiveAction(st.onFailure, scope.cx.mode) {
        case AbortRun =>
          it.aborted := true;
          Note(AskedAbort);
          assert it.Sessions() == fr.ws;
          return false;
        case AbortFlow => return false;
        case Record =>
          Onward(st, it.View(scope));
          assert it.Sessions() == fr.ws;
          return true;
      }
    }

    method RecordThrottle(it: Iteration, st: Step, path: seq<string>, scope: Scope, detail: string) returns (cont: bool)
      modifies this, it
      ensures it.ws == old(it.ws)
      ensures Result(it.View(scope), Seen(), Some(Throttled), cont, false) ==
              Throttle(scope.cx, st, path, old(it.View(scope)), old(Seen()), detail)
    {
      hide Binds, Fail;
      ghost var fr := it.View(scope);
      it.throttled := true;
      Note(SawThrottle);
      assert it.Sessions() == fr.ws;
      if !ThrottleIsError(st, scope.cx.mode) {
        Onward(st, it.View(scope));
        assert it.Sessions() == fr.ws;
        return true;
      }
      cont := Record(it, st, path, scope, detail, Throttled);
    }

    method RecordTrouble(it: Iteration, st: Step, path: seq<string>, scope: Scope, a: Answer)
      returns (out: Outcome, cont: bool)
      modifies this, it
      ensures it.ws == old(it.ws)
      ensures Result(it.View(scope), Seen(), Some(out), cont, false) ==
              Trouble(scope.cx, st, path, old(it.View(scope)), old(Seen()), a)
    {
      hide Fail, Throttle;
      if a.throttle {
        cont := RecordThrottle(it, st, path, scope, a.detail);
        TroubleOut(scope.cx, st, path, old(it.View(scope)), old(Seen()), a);
        out := Throttled;
      } else {
        cont := Record(it, st, path, scope, a.detail, Failed);
        out := Failed;
      }
    }

    lemma TroubleOut(cx: Context, st: Step, path: seq<string>, fr: Frame, sh: Shared, a: Answer)
      ensures Throttle(cx, st, path, fr, sh, a.detail).out == Some(Throttled)
    {
    }

    // ------------------------------------------------------------ extract and assert

    /** Extractions, then assertions, against what the step produced. */
    method Evaluate(it: Iteration, st: Step, path: seq<string>, scope: Scope) returns (out: Outcome, cont: bool)
      modifies this, it, scope
      ensures it.ws == old(it.ws)
      ensures Result(it.View(scope), Seen(), Some(out), cont, false) ==
              Extract(scope.cx, st, path, st.extract, old(it.View(scope)), old(Seen()))
    {
      hide Fail, Interp.Assert;
      ghost var goal := Extract(scope.cx, st, path, st.extract, it.View(scope), Seen());
      assert st.extract[0..] == st.extract;
      for i := 0 to |st.extract|
        invariant it.ws == old(it.ws)
        invariant Extract(scope.cx, st, path, st.extract[i..], it.View(scope), Seen()) == goal
      {
        assert st.extract[i..][1..] == st.extract[i + 1..];
        ghost var fr := it.View(scope);
        var a := Ask(scope);
        assert it.View(scope) == fr;
        if a.value.None? {
          cont := Record(it, st, path, scope, a.detail, Failed);
          return Failed, cont;
        }
        scope.Set(st.extract[i], a.value.value);
        assert it.View(scope) == fr.(vars := fr.vars[st.extract[i] := a.value.value]);
      }
      out, cont := EvaluateAsserts(it, st, path, scope);
    }

    method EvaluateAsserts(it: Iteration, st: Step, path: seq<string>, scope: Scope) returns (out: Outcome, cont: bool)
      modifies this, it
      ensures it.ws == old(it.ws)
      ensures Result(it.View(scope), Seen(), Some(out), cont, false) ==
              Interp.Assert(scope.cx, st, path, |st.assert_|, old(it.View(scope)), old(Seen()), Ok)
    {
      hide Fail;
      ghost var goal := Interp.Assert(scope.cx, st, path, |st.assert_|, it.View(scope), Seen(), Ok);
      out, cont := Ok, true;
      for j := 0 to |st.assert_|
        invariant cont && it.ws == old(it.ws)
        invariant Interp.Assert(scope.cx, st, path, |st.assert_| - j, it.View(scope), Seen(), out) == goal
      {
        ghost var fr := it.View(scope);
        var a := Ask(scope);
        assert it.View(scope) == fr;
        if !a.ok {
          FailOut(scope.cx, st, path, fr, Seen(), a.detail);
          cont := Record(it, st, path, scope, a.detail, Failed);
          out := Failed;
          if a.fatal || !cont {
            return;
          }
        }
      }
    }

    lemma FailOut(cx: Context, st: Step, path: seq<string>, fr: Frame, sh: Shared, detail: string)
      ensures Fail(cx, st, path, fr, sh, detail, Failed).out == Some(Failed) &&
              !Fail(cx, st, path, fr, sh, detail, Failed).err
    {
    }

    // ------------------------------------------------------------ requests

    /** A call-shaped step. */
    method RunRequest(it: Iteration, st: Step, path: seq<string>, scope: Scope)
      returns (out: Option<Outcome>, cont: bool, err: bool)
      requires st.kind.Request?
      modifies this, it, scope
      ensures it.ws == old(it.ws)
      ensures Result(it.View(scope), Seen(), out, cont, err) ==
              Interp.RunRequest(scope.cx, st, path, old(it.View(scope)), old(Seen()))
    {
      hide Fail, Trouble, Extract, Interp.ExpandAll;
      ghost var fr := it.View(scope);
      var built := ExpandAll(scope, st.kind.fields);
      var b := Ask(scope);
      assert it.View(scope) == fr;
      if !built || b.fatal {
        return None, false, true;
      }
      if !b.ok {
        FailOut(scope.cx, st, path, fr, Seen(), b.detail);
        cont := Record(it, st, path, scope, b.detail, Failed);
        return Some(Failed), cont, false;
      }
      var signed := ExpandAll(scope, st.kind.auth);
      var a := Ask(scope);
      assert it.View(scope) == fr;
      var o;
      if !signed {
        FailOut(scope.cx, st, path, fr, Seen(), a.detail);
        cont := Record(it, st, path, scope, a.detail, Failed);
        o := Failed;
      } else if !a.ok {
        o, cont := RecordTrouble(it, st, path, scope, a);
      } else {
        o, cont := Evaluate(it, st, path, scope);
      }
      return Some(o), cont, false;
    }

    // ------------------------------------------------------------ sockets

    /** What a level's session objects may become: new ones are fresh, old ones keep their names. */
    twostate predicate Grew(it: Iteration)
      reads it
    {
      && it.Valid()
      && forall n :: n in it.ws ==> (n in old(it.ws) && it.ws[n] == old(it.ws)[n]) || fresh(it.ws[n])
    }

    /** Open a session, once the allow-list lets it; the step goes on only when there is one. */
    method OpenWS(it: Iteration, st: Step, path: seq<string>, scope: Scope)
      returns (out: Option<Outcome>, cont: bool, err: bool)
      requires st.kind.Socket? && it.Valid()
      modifies this, it
      ensures Grew(it)
      ensures Result(it.View(scope), Seen(), out, cont, err) ==
              OpenSocket(scope.cx, st, path, old(it.View(scope)), old(Seen()))
    {
      hide Fail, DialSocket, Interp.ExpandAll, Interp.MarkSession, Iteration.Sessions;
      ghost var fr := it.View(scope);
      var built := ExpandAll(scope, st.kind.open);
      if !built {
        return Some(Ok), false, true;
      }
      var b := Ask(scope);
      assert it.View(scope) == fr;
      if !b.ok {
        it.MarkSession(st.kind.session, None, b.detail, scope);
        FailOut(scope.cx, st, path, it.View(scope), Seen(), b.detail);
        cont := Record(it, st, path, scope, b.detail, Failed);
        return Some(Failed), cont, false;
      }
      out, cont, err := DialWS(it, st, path, scope);
    }

    /** Dial a session and register it, dead with the reason when that fails. */
    method DialWS(it: Iteration, st: Step, path: seq<string>, scope: Scope)
      returns (out: Option<Outcome>, cont: bool, err: bool)
      requires st.kind.Socket? && it.Valid()
      modifies this, it
      ensures Grew(it)
      ensures Result(it.View(scope), Seen(), out, cont, err) ==
              DialSocket(scope.cx, st, path, old(it.View(scope)), old(Seen()))
    {
      hide Trouble, Interp.ExpandAll, Interp.MarkSession, Iteration.Sessions;
      ghost var fr := it.View(scope);
      var signed := ExpandAll(scope, st.kind.auth);
      if !signed {
        assert it.View(scope) == fr;
        return Some(Ok), false, true;
      }
      var conn := tick;
      var a := Ask(scope);
      assert it.View(scope) == fr;
      if !a.ok {
        it.MarkSession(st.kind.session, None, a.detail, scope);
        var o;
        o, cont := RecordTrouble(it, st, path, scope, a);
        return Some(o), cont, false;
      }
      dialled := dialled + {conn};
      it.MarkSession(st.kind.session, Some(conn), "", scope);
      return None, true, false;
    }

    /** A failed read or write: the session object itself is retired, so every later step that names
        it finds it dead. */
    method RecordWSError(it: Iteration, st: Step, path: seq<string>, scope: Scope, a: Answer)
      returns (out: Outcome, cont: bool)
      requires st.kind.Socket? && it.Valid() && st.kind.session in it.ws
      modifies this, it, it.ws[st.kind.session]
      ensures it.ws == old(it.ws)
      ensures Result(it.View(scope), Seen(), Some(out), cont, false) ==
              Retire(scope.cx, st, path, old(it.View(scope)), old(Seen()), a)
    {
      hide Trouble;
      ghost var fr := it.View(scope);
      var s := it.ws[st.kind.session];
      s.dead := a.detail;
      assert it.Sessions() == fr.ws[st.kind.session := fr.ws[st.kind.session].(dead := a.detail)];
      out, cont := RecordTrouble(it, st, path, scope, a);
    }

    method Receive(it: Iteration, st: Step, path: seq<string>, scope: Scope) returns (out: Outcome, cont: bool)
      requires st.kind.Socket? && it.Valid() && st.kind.session in it.ws
      modifies this, it, it.ws[st.kind.session], scope
      ensures it.ws == old(it.ws)
      ensures Result(it.View(scope), Seen(), Some(out), cont, false) ==
              ReceiveFrame(scope.cx, st, path, old(it.View(scope)), old(Seen()))
    {
      hide Retire, Extract;
      if !st.kind.receives {
        return Ok, true;
      }
      ghost var fr := it.View(scope);
      var a := Ask(scope);
      assert it.View(scope) == fr;
      if !a.ok {
        out, cont := RecordWSError(it, st, path, scope, a);
      } else {
        out, cont := Evaluate(it, st, path, scope);
      }
    }

    /** Work on a session an earlier step, or this one, opened. */
    method WorkWS(it: Iteration, st: Step, path: seq<string>, scope: Scope)
      returns (out: Option<Outcome>, cont: bool, err: bool)
      requires st.kind.Socket? && it.Valid()
      modifies this, it, it.ws.Values, scope
      ensures it.ws == old(it.ws)
      ensures Result(it.View(scope), Seen(), out, cont, err) ==
              WorkSocket(scope.cx, st, path, old(it.View(scope)), old(Seen()))
    {
      hide Fail, Retire, ReceiveFrame, Interp.Expand;
      ghost var fr := it.View(scope);
      var name := st.kind.session;
      if name !in it.ws {
        Note(NeverOpened(name));
        assert it.View(scope) == fr;
        return Some(Ok), false, true;
      }
      if it.ws[name].dead != "" {
        var why := it.ws[name].dead;
        FailOut(scope.cx, st, path, fr, Seen(), why);
        cont := Record(it, st, path, scope, why, Failed);
        return Some(Failed), cont, false;
      }
      var o;
      if st.kind.send.Some? {
        var text := Expand(scope, st.kind.send.value);
        var a := Ask(scope);
        assert it.View(scope) == fr;
        if text.None? || a.fatal {
          return Some(Ok), false, true;
        }
        if !a.ok {
          o, cont := RecordWSError(it, st, path, scope, a);
          return Some(o), cont, false;
        }
      }
      o, cont := Receive(it, st, path, scope);
      return Some(o), cont, false;
    }

    method RunWS(it: Iteration, st: Step, path: seq<string>, scope: Scope)
      returns (out: Option<Outcome>, cont: bool, err: bool)
      requires st.kind.Socket? && it.Valid()
      modifies this, it, it.ws.Values, scope
      ensures Grew(it)
      ensures Result(it.View(scope), Seen(), out, cont, err) ==
              RunSocket(scope.cx, st, path, old(it.View(scope)), old(Seen()))
    {
      hide OpenSocket, WorkSocket;
      if st.kind.opens {
        out, cont, err := OpenWS(it, st, path, scope);
        if out.Some? {
          return;
        }
      }
      out, cont, err := WorkWS(it, st, path, scope);
    }

    /** The sessions of `all` that are no longer among `left`. */
    ghost function Done(all: map<string, Session>, left: set<string>): map<string, Session> {
      map n | n in all && n !in left :: all[n]
    }

    lemma CloseEdges(all: map<string, Session>)
      ensures Conns(Done(all, all.Keys)) == {} && Done(all, {}) == all
    {
    }

    lemma CloseOne(all: map<string, Session>, left: set<string>, n: string, tick: nat)
      requires Sessions.Tidy(all, tick) && n in all && n in left
      ensures multiset(Conns(Done(all, left - {n}))) ==
              multiset(Conns(Done(all, left))) + (if all[n].conn.Some? then multiset{all[n].conn.value} else multiset{})
    {
      var was, now := Done(all, left), Done(all, left - {n});
      assert n in now && forall m :: m in was ==> m in now && now[m] == was[m];
      if all[n].conn.Some? {
        var c := all[n].conn.value;
        assert Conns(now) == Conns(was) + {c};
        assert c !in Conns(was);
      } else {
        assert Conns(now) == Conns(was);
      }
    }

    /** Close every session of a level, in whatever order the map gives them. */
    method CloseSessions(it: Iteration, ghost scope: Scope)
      requires it.Valid() && Sessions.Tidy(it.Sessions(), tick)
      modifies this, it
      ensures Seen() == Interp.CloseSessions(old(it.View(scope)), old(Seen())) && it.ws == map[]
      ensures it.failures == old(it.failures) && it.throttled == old(it.throttled) && it.aborted == old(it.aborted)
    {
      hide Conns, Sessions.Tidy, Done;
      ghost var all := it.Sessions();
      var left := it.ws.Keys;
      assert left == all.Keys;
      CloseEdges(all);
      while left != {}
        invariant left <= it.ws.Keys && tick == old(tick)
        invariant Seen() == old(Seen()).(closed := old(Seen()).closed + multiset(Conns(Done(all, left))))
        modifies this
      {
        var n :| n in left;
        assert all[n] == Session(it.ws[n].conn, it.ws[n].dead);
        CloseOne(all, left, n, tick);
        left := left - {n};
        if it.ws[n].conn.Some? {
          closed := closed + multiset{it.ws[n].conn.value};
        }
      }
      it.ws := map[];
    }

    // ------------------------------------------------------------ used flows

    /** Fill a used flow's inputs into its scope. */
    method BindInputs(st: Step, ins: seq<Input>, scope: Scope, child: Scope) returns (ok: bool)
      requires st.kind.Use? && scope != child && child.cx == ChildContext(scope.cx)
      modifies this, child
      ensures (child.vars, Seen(), ok) ==
              Interp.BindInputs(scope.cx, scope.vars, st.kind.with, ins, old(child.vars), old(Seen()))
    {
      hide Interp.Expand;
      ghost var goal := Interp.BindInputs(scope.cx, scope.vars, st.kind.with, ins, child.vars, Seen());
      assert ins[0..] == ins;
      for k := 0 to |ins|
        invariant Interp.BindInputs(scope.cx, scope.vars, st.kind.with, ins[k..], child.vars, Seen()) == goal
      {
        assert ins[k..][1..] == ins[k + 1..];
        var name := ins[k].name;
        var text;
        if name in st.kind.with {
          text := Expand(scope, st.kind.with[name]);
        } else if ins[k].default.None? {
          Note(Crashed);
          return false;
        } else {
          text := Expand(child, ins[k].default.value);
        }
        if text.None? {
          return false;
        }
        child.Set("inputs." + name, Str(text.value));
      }
      return true;
    }

    /** Take over what a used flow recorded. */
    method Absorb(id: string, it: Iteration, sub: Iteration, ghost scope: Scope, ghost child: Scope)
      requires it != sub
      modifies it
      ensures it.ws == old(it.ws)
      ensures it.View(scope) == Interp.Absorb(id, old(it.View(scope)), old(sub.View(child)))
    {
      ghost var before := it.failures;
      assert sub.failures[0..] == sub.failures &&
             before + Prefixed(id, sub.failures) == it.failures + Prefixed(id, sub.failures[0..]);
      for k := 0 to |sub.failures|
        invariant it.ws == old(it.ws) && it.throttled == old(it.throttled) && it.aborted == old(it.aborted)
        invariant it.failures + Prefixed(id, sub.failures[k..]) == before + Prefixed(id, sub.failures)
      {
        var f := sub.failures[k];
        PrefixedStep(id, it.failures, sub.failures, k);
        it.failures := it.failures + [Failure(id + "/" + f.stepId, f.detail)];
      }
      assert sub.failures[|sub.failures|..] == [];
      assert it.failures == before + Prefixed(id, sub.failures);
      it.throttled := it.throttled || sub.throttled;
      it.aborted := it.aborted || sub.aborted;
      assert it.Sessions() == old(it.Sessions());
    }

    lemma PrefixedStep(id: string, acc: seq<Failure>, fs: seq<Failure>, k: nat)
      requires k < |fs|
      ensures acc + Prefixed(id, fs[k..]) ==
              acc + [Failure(id + "/" + fs[k].stepId, fs[k].detail)] + Prefixed(id, fs[k + 1..])
    {
      assert fs[k..][1..] == fs[k + 1..];
    }

    /** Give the caller the declared outputs that have a value. */
    method GiveOutputs(id: string, outs: seq<string>, scope: Scope, child: Scope)
      requires scope != child
      modifies scope
      ensures scope.vars == Interp.GiveOutputs(id, outs, child.vars, old(scope.vars))
    {
      assert outs[0..] == outs;
      for k := 0 to |outs|
        invariant Interp.GiveOutputs(id, outs[k..], child.vars, scope.vars) ==
                  Interp.GiveOutputs(id, outs, child.vars, old(scope.vars))
      {
        assert outs[k..][1..] == outs[k + 1..];
        if outs[k] in child.vars {
          scope.Set(id + "." + outs[k], child.vars[outs[k]]);
        }
      }
    }

    /** How a use step ends: an abort inside ends the run, a failure inside makes the step fail. */
    method EndUse(it: Iteration, st: Step, scope: Scope, aborted: bool, failed: bool, out: Outcome)
      returns (o: Outcome, cont: bool)
      modifies this, it
      ensures it.ws == old(it.ws)
      ensures Result(it.View(scope), Seen(), Some(o), cont, false) ==
              Interp.EndUse(scope.cx, st, old(it.View(scope)), aborted, failed, old(Seen()), out)
    {
      hide EffectiveAction, Binds;
      ghost var was := it.View(scope);
      if aborted {
        return out, false;
      }
      if !failed {
        Onward(st, it.View(scope));
        assert it.Sessions() == was.ws;
        return out, true;
      }
      match EffectiveAction(st.onFailure, scope.cx.mode) {
        case AbortRun =>
          it.aborted := true;
          Note(AskedAbort);
          assert it.Sessions() == was.ws;
          return Failed, false;
        case AbortFlow => return Failed, false;
        case Record =>
          Onward(st, it.View(scope));
          assert it.Sessions() == was.ws;
          return Failed, true;
      }
    }

    /** What a use step takes over once its flow has run without an error, and how it ends. */
    method FinishUse(it: Iteration, st: Step, f: Flow, scope: Scope, sub: Iteration, child: Scope, out: Outcome,
                     ghost fr: Frame, ghost inside: Frame)
      returns (o: Outcome, cont: bool)
      requires it != sub && scope != child
      requires it.View(scope) == Interp.Absorb(st.id, fr, inside)
      requires child.vars == inside.vars && sub.aborted == inside.aborted && sub.failures == inside.failures
      modifies this, it, scope
      ensures it.ws == old(it.ws)
      ensures Result(it.View(scope), Seen(), Some(o), cont, false) ==
              Interp.FinishUse(scope.cx, st, f, fr, inside, old(Seen()), out)
    {
      hide Interp.Absorb, Interp.EndUse, Interp.GiveOutputs;
      ghost var was := it.View(scope);
      GiveOutputs(st.id, f.outputs, scope, child);
      assert it.View(scope) == was.(vars := Interp.GiveOutputs(st.id, f.outputs, inside.vars, was.vars));
      o, cont := EndUse(it, st, scope, sub.aborted, |sub.failures| > 0, out);
    }

    /** Close the used flow's sessions and return to the caller. */
    method LeaveUse(it: Iteration, st: Step, f: Flow, scope: Scope, sub: Iteration, child: Scope, out: Outcome,
            err: bool,
                    ghost r: Result)
      returns (o: Outcome, cont: bool)
      requires it != sub && scope != child && sub.Valid() && Sessions.Tidy(sub.Sessions(), tick)
      requires r.fr == sub.View(child) && r.sh == Seen() && r.out == Some(out) && r.err == err
      modifies this, it, sub, scope
      ensures it.ws == old(it.ws)
      ensures Result(it.View(scope), Seen(), Some(o), cont, err) ==
              Interp.LeaveUse(scope.cx, st, f, old(it.View(scope)), r)
    {
      hide Interp.FinishUse, Interp.Absorb, Conns, Sessions.Tidy;
      ghost var fr := it.View(scope);
      CloseSessions(sub, child);
      assert it.View(scope) == fr;
      AbsorbAlike(st.id, fr, r.fr, sub.View(child));
      Absorb(st.id, it, sub, scope, child);
      if err {
        return out, false;
      }
      o, cont := FinishUse(it, st, f, scope, sub, child, out, fr, r.fr);
    }

    /** A used flow as one step: in a scope and an iteration of its own, whose sessions close with it. */
    method RunUse(it: Iteration, st: Step, path: seq<string>, scope: Scope)
      returns (out: Option<Outcome>, cont: bool, err: bool)
      requires st.kind.Use? && it.Valid()
      modifies this, it, it.ws.Values, scope
      ensures it.ws == old(it.ws)
      ensures Result(it.View(scope), Seen(), out, cont, err) ==
              Interp.RunUse(scope.cx, st, path, old(it.View(scope)), old(Seen()))
      decreases st, 0
    {
      hide Interp.BindInputs, Interp.RunSteps, Interp.LeaveUse, Conns, Sessions.Tidy;
      ghost var fr := it.View(scope);
      if st.kind.flow.None? {
        Note(Crashed);
        assert it.View(scope) == fr;
        return None, false, true;
      }
      var f := st.kind.flow.value;
      var child := scope.Child();
      var bound := BindInputs(st, f.inputs, scope, child);
      assert it.View(scope) == fr;
      if !bound {
        return None, false, true;
      }
      var sub := new Iteration();
      ghost var start, sh1 := sub.View(child), Seen();
      assert start == FRESH_FRAME.(vars := child.vars);
      var o;
      o, cont, err := RunSteps(sub, f.steps, path + [st.id], child);
      assert it.View(scope) == fr;
      NothingTidy(child.cx, f.steps, path + [st.id], start, sh1);
      o, cont := LeaveUse(it, st, f, scope, sub, child, o, err, Result(sub.View(child), Seen(), Some(o), cont, err));
      return Some(o), cont, err;
    }

    lemma NothingTidy(cx: Context, steps: seq<Step>, path: seq<string>, fr: Frame, sh: Shared)
      requires fr.ws == map[]
      ensures var r := Interp.RunSteps(cx, steps, path, fr, sh, Ok); Sessions.Tidy(r.fr.ws, r.sh.tick)
    {
      hide Interp.RunSteps;
      Sessions.StepsTidy(cx, steps, path, fr, sh, Ok);
    }

    /** Taking over a level does not look at its sessions or variables. */
    lemma AbsorbAlike(id: string, fr: Frame, sub: Frame, sub': Frame)
      requires sub.failures == sub'.failures && sub.throttled == sub'.throttled && sub.aborted == sub'.aborted
      ensures Interp.Absorb(id, fr, sub) == Interp.Absorb(id, fr, sub')
    {
    }

    // ------------------------------------------------------------ steps

    method RunStep(it: Iteration, st: Step, path: seq<string>, scope: Scope)
      returns (out: Option<Outcome>, cont: bool, err: bool)
      requires it.Valid()
      modifies this, it, it.ws.Values, scope
      ensures Grew(it)
      ensures Result(it.View(scope), Seen(), out, cont, err) ==
              Interp.RunStep(scope.cx, st, path, old(it.View(scope)), old(Seen()))
      decreases st, 1
    {
      hide Interp.RunRequest, RunSocket, Interp.RunUse;
      Note(Started(path + [st.id]));
      assert it.View(scope) == old(it.View(scope));
      match st.kind {
        case Request(_, _) => out, cont, err := RunRequest(it, st, path, scope);
        case Socket(_, _, _, _, _, _) => out, cont, err := RunWS(it, st, path, scope);
        case Use(_, _, _) => out, cont, err := RunUse(it, st, path, scope);
        case Wait => return Some(Ok), true, false;
        case Poll(_) => return None, false, true;
      }
    }

    /** Steps in order, until one errs or asks to stop; the worst outcome is kept. */
    method RunSteps(it: Iteration, steps: seq<Step>, path: seq<string>, scope: Scope)
      returns (out: Outcome, cont: bool, err: bool)
      requires it.Valid()
      modifies this, it, it.ws.Values, scope
      ensures Grew(it)
      ensures Result(it.View(scope), Seen(), Some(out), cont, err) ==
              Interp.RunSteps(scope.cx, steps, path, old(it.View(scope)), old(Seen()), Ok)
      decreases steps, 2
    {
      hide Interp.RunStep, Worst, Iteration.Sessions;
      ghost var goal := Interp.RunSteps(scope.cx, steps, path, it.View(scope), Seen(), Ok);
      assert steps[0..] == steps;
      out := Ok;
      for i := 0 to |steps|
        invariant Grew(it)
        invariant Interp.RunSteps(scope.cx, steps[i..], path, it.View(scope), Seen(), out) == goal
      {
        assert steps[i..][1..] == steps[i + 1..];
        var o, c, e := RunStep(it, steps[i], path, scope);
        if o.Some? {
          out := Worst(out, o.value);
        }
        if e {
          return out, false, true;
        }
        if !c {
          return out, false, false;
        }
      }
      return out, true, false;
    }

    /** One iteration of a flow. */
    method RunFlow(f: Flow, cx: Context) returns (it: Iteration, scope: Scope, out: Outcome, err: bool)
      requires Seen() == NOTHING_YET
      modifies this
      ensures fresh(it) && fresh(scope) && it.ws == map[]
      ensures var r := Interp.RunFlow(cx, f);
              && it.View(scope) == r.fr.(ws := map[])
              && Seen() == r.sh && Some(out) == r.out && err == r.err
    {
      hide Interp.RunSteps, Conns, Sessions.Tidy;
      scope := new Scope(cx);
      it := new Iteration();
      assert it.View(scope) == FRESH_FRAME;
      var cont;
      out, cont, err := RunSteps(it, f.steps, [], scope);
      NothingTidy(cx, f.steps, [], FRESH_FRAME, NOTHING_YET);
      CloseSessions(it, scope);
    }
  }
}

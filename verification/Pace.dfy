/** The pace guard (sdk-python/src/flowbench/prompt.py:54-109): a token bucket a name, which books waits
    into the future, over exact numbers. */
module Pace {
  import opened Options

  /** One call: the clock's reading, and the pace it declares, in calls a second and a burst. */
  datatype Call = Call(now: real, rate: real, capacity: real)

  datatype Level = Level(rate: real, capacity: real, tokens: real, at: real)

  function Min(a: real, b: real): real {
    if a <= b then a else b
  }

  /** What saving up for `t` seconds at a rate comes to; less than nothing for a time still ahead. */
  function Saved(t: real, rate: real): real {
    t * rate
  }

  /** A later call's pace takes over; what is saved up is cut to its burst. */
  function Rerated(b: Level, rate: real, capacity: real): Level {
    b.(rate := rate, capacity := capacity, tokens := Min(b.tokens, capacity))
  }

  /** How long a call at `now` waits, and the bucket with that wait booked. */
  function Taken(b: Level, now: real): (Level, real)
    requires b.rate > 0.0
  {
    var tokens := Min(b.capacity, b.tokens + Saved(now - b.at, b.rate));
    if tokens >= 1.0 then (b.(tokens := tokens - 1.0, at := now), 0.0)
    else
      var wait := (1.0 - tokens) / b.rate;
      (b.(tokens := 0.0, at := now + wait), wait)
  }

  /** A call against the bucket of its name, made full on first use. */
  function Served(b: Option<Level>, c: Call): (Level, real)
    requires c.rate > 0.0
  {
    Taken(Rerated(First(b, c), c.rate, c.capacity), c.now)
  }

  function First(b: Option<Level>, c: Call): Level {
    if b.Some? then b.value else Level(c.rate, c.capacity, c.capacity, c.now)
  }

  /** Calls in the order they were served: the clock never goes back, every pace allows something and
      every burst is at least one. */
  predicate Sane(calls: seq<Call>) {
    && (forall i :: 0 <= i < |calls| ==> calls[i].rate > 0.0 && calls[i].capacity >= 1.0)
    && (forall i, j :: 0 <= i < j < |calls| ==> calls[i].now <= calls[j].now)
  }

  /** The bucket after some calls, and when each was let go. */
  function After(calls: seq<Call>): Option<Level>
    requires Sane(calls)
  {
    if calls == [] then None else Some(Served(After(calls[..|calls| - 1]), calls[|calls| - 1]).0)
  }

  function Releases(calls: seq<Call>): (rs: seq<real>)
    requires Sane(calls)
    ensures |rs| == |calls|
  {
    if calls == [] then [] else
      var c := calls[|calls| - 1];
      Releases(calls[..|calls| - 1]) + [c.now + Served(After(calls[..|calls| - 1]), c).1]
  }

  // ---------------------------------------------------------------- one call

  /** Between calls: `at` is when the last one was let go, and if that is still ahead nothing is saved. */
  ghost predicate Booked(b: Level, now: real) {
    && b.rate > 0.0 && b.capacity >= 1.0 && 0.0 <= b.tokens <= b.capacity - 1.0
    && (b.at > now ==> b.tokens == 0.0)
  }

  lemma SavedSum(a: real, b: real, r: real)
    ensures Saved(a + b, r) == Saved(a, r) + Saved(b, r)
    ensures Saved(0.0, r) == 0.0
  {
  }

  lemma SavedSign(t: real, r: real)
    requires r > 0.0
    ensures (t >= 0.0 <==> Saved(t, r) >= 0.0) && (t > 0.0 <==> Saved(t, r) > 0.0)
  {
  }

  lemma SavedFaster(t: real, slow: real, fast: real)
    requires t >= 0.0 && slow <= fast
    ensures Saved(t, slow) <= Saved(t, fast)
  {
  }

  /** Waiting for what is missing saves up just that. */
  lemma SavedBy(x: real, r: real)
    requires r > 0.0
    ensures Saved(x / r, r) == x
  {
  }

  /** What saving up and spending one comes to. */
  lemma ServedStep(b: Level, c: Call, before: real)
    requires Booked(b, before) && before <= c.now && c.rate > 0.0 && c.capacity >= 1.0
    ensures var (b', wait) := Served(Some(b), c);
            && Booked(b', c.now) && wait >= 0.0 && b'.at == c.now + wait
            && b'.at >= b.at && b'.tokens <= b.tokens + Saved(b'.at - b.at, c.rate) - 1.0
  {
    hide Saved;
    var tokens := Min(b.tokens, c.capacity);
    var saved := Saved(c.now - b.at, c.rate);
    SavedSign(c.now - b.at, c.rate);
    if Min(c.capacity, tokens + saved) < 1.0 {
      var missing := 1.0 - tokens - saved;
      var wait := missing / c.rate;
      SavedBy(missing, c.rate);
      SavedSign(wait, c.rate);
      SavedSum(c.now - b.at, wait, c.rate);
      assert c.now - b.at + wait == c.now + wait - b.at;
      SavedSign(c.now + wait - b.at, c.rate);
    }
  }

  lemma FirstServed(c: Call)
    requires c.rate > 0.0 && c.capacity >= 1.0
    ensures var (b, wait) := Served(None, c); Booked(b, c.now) && wait == 0.0 && b.at == c.now
  {
  }

  // ---------------------------------------------------------------- a whole run

  lemma {:induction false} AfterBooked(calls: seq<Call>)
    requires Sane(calls) && calls != []
    ensures Booked(After(calls).value, calls[|calls| - 1].now)
    ensures After(calls).value.at == Releases(calls)[|calls| - 1] >= calls[|calls| - 1].now
    decreases |calls|
  {
    hide Served, Booked;
    var n := |calls| - 1;
    if n == 0 {
      FirstServed(calls[0]);
      assert calls[..0] == [];
    } else {
      AfterBooked(calls[..n]);
      ServedStep(After(calls[..n]).value, calls[n], calls[n - 1].now);
    }
  }

  /** While the last release is still ahead of the clock, nothing is saved up. */
  lemma FutureHasNoTokens(calls: seq<Call>)
    requires Sane(calls) && calls != []
    ensures var b := After(calls).value; b.at > calls[|calls| - 1].now ==> b.tokens == 0.0
  {
    hide After, Releases;
    AfterBooked(calls);
  }

  /** Releases come in the order of the calls, and none before its call. */
  lemma {:induction false} ReleasesInOrder(calls: seq<Call>)
    requires Sane(calls)
    ensures var rs := Releases(calls);
            && (forall i :: 0 <= i < |rs| ==> rs[i] >= calls[i].now)
            && (forall i, j :: 0 <= i < j < |rs| ==> rs[i] <= rs[j])
    decreases |calls|
  {
    hide Served, Booked;
    if calls != [] {
      var n := |calls| - 1;
      ReleasesInOrder(calls[..n]);
      AfterBooked(calls);
      if n > 0 {
        AfterBooked(calls[..n]);
        ServedStep(After(calls[..n]).value, calls[n], calls[n - 1].now);
      }
    }
  }

  /** No pace in the run is faster than `rate`, and no burst larger than `capacity`. */
  predicate Within(calls: seq<Call>, rate: real, capacity: real) {
    forall i :: 0 <= i < |calls| ==> calls[i].rate <= rate && calls[i].capacity <= capacity
  }

  /** From the release of one call to a later one: what was saved then, what was saved up since, and
      what was spent. */
  lemma {:induction false} SavedSince(calls: seq<Call>, i: nat, rate: real, capacity: real)
    requires Sane(calls) && i < |calls| && Within(calls, rate, capacity)
    ensures var rs, n := Releases(calls), |calls| - 1;
            After(calls).value.tokens <= capacity - 1.0 + Saved(rs[n] - rs[i], rate) - (n - i) as real
    decreases |calls|
  {
    hide Served, Saved;
    var n := |calls| - 1;
    AfterBooked(calls);
    CapacityAfter(calls);
    if i < n {
      SavedSince(calls[..n], i, rate, capacity);
      SavedLast(calls, rate);
      var rs := Releases(calls);
      SavedSum(rs[n] - rs[n - 1], rs[n - 1] - rs[i], rate);
      assert rs[n] - rs[n - 1] + (rs[n - 1] - rs[i]) == rs[n] - rs[i];
    } else {
      SavedSum(0.0, 0.0, rate);
    }
  }

  lemma SavedLast(calls: seq<Call>, rate: real)
    requires Sane(calls) && |calls| > 1 && calls[|calls| - 1].rate <= rate
    ensures var rs, n := Releases(calls), |calls| - 1;
            && rs[..n] == Releases(calls[..n])
            && After(calls).value.tokens <= After(calls[..n]).value.tokens + Saved(rs[n] - rs[n - 1], rate) - 1.0
  {
    hide Served, Saved;
    var n := |calls| - 1;
    AfterBooked(calls);
    AfterBooked(calls[..n]);
    var b, b' := After(calls[..n]).value, After(calls).value;
    ServedStep(b, calls[n], calls[n - 1].now);
    SavedFaster(b'.at - b.at, calls[n].rate, rate);
  }

  lemma CapacityAfter(calls: seq<Call>)
    requires Sane(calls) && calls != []
    ensures After(calls).value.capacity == calls[|calls| - 1].capacity
  {
  }

  /** Between two releases, both counted, there are at most as many as the burst and what the rate allows. */
  lemma {:induction false} SpanBound(calls: seq<Call>, i: nat, j: nat, rate: real, capacity: real)
    requires Sane(calls) && i <= j < |calls| && Within(calls, rate, capacity)
    ensures var rs := Releases(calls); (j - i + 1) as real <= capacity + Saved(rs[j] - rs[i], rate)
    decreases |calls|
  {
    hide Served, Saved;
    var n := |calls| - 1;
    if j < n {
      SpanBound(calls[..n], i, j, rate, capacity);
      assert Releases(calls[..n]) == Releases(calls)[..n];
    } else {
      SavedSince(calls, i, rate, capacity);
      AfterBooked(calls);
    }
  }

  /** All calls at one pace. */
  predicate Uniform(calls: seq<Call>, rate: real, capacity: real) {
    forall i :: 0 <= i < |calls| ==> calls[i].rate == rate && calls[i].capacity == capacity
  }

  /** One call at the pace of the bucket: it is let go when it comes, or when what it lacks has been saved up; and
      what is left over is what was there and what was saved up since, less one, or a full burst less one. */
  lemma ServedExactly(b: Level, c: Call, before: real)
    requires Booked(b, before) && before <= c.now && b.rate == c.rate && b.capacity == c.capacity
    ensures var (b', wait) := Served(Some(b), c);
            && b'.at == c.now + wait && wait >= 0.0 && (wait > 0.0 ==> b'.tokens == 0.0)
            && (b'.tokens == b.tokens + Saved(b'.at - b.at, c.rate) - 1.0
                || (wait == 0.0 && b'.tokens == c.capacity - 1.0))
  {
    hide Saved;
    var saved := Saved(c.now - b.at, c.rate);
    if Min(c.capacity, b.tokens + saved) < 1.0 {
      var missing := 1.0 - b.tokens - saved;
      var wait := missing / c.rate;
      SavedBy(missing, c.rate);
      SavedSign(wait, c.rate);
      SavedSum(c.now - b.at, wait, c.rate);
      assert c.now - b.at + wait == c.now + wait - b.at;
    }
  }

  lemma ServedFirst(c: Call)
    requires c.rate > 0.0 && c.capacity >= 1.0
    ensures var (b, wait) := Served(None, c); wait == 0.0 && b == Level(c.rate, c.capacity, c.capacity - 1.0, c.now)
  {
    SavedSum(0.0, 0.0, c.rate);
  }

  /** Since some call that found the bucket full, what is saved up is just what the pace allows. */
  lemma {:induction false} FullSince(calls: seq<Call>, rate: real, capacity: real) returns (i: nat)
    requires Sane(calls) && calls != [] && Uniform(calls, rate, capacity)
    ensures i < |calls|
    ensures var rs, n, b := Releases(calls), |calls| - 1, After(calls).value;
            && b.rate == rate && b.capacity == capacity
            && b.tokens == capacity - (n - i + 1) as real + Saved(rs[n] - rs[i], rate)
            && (rs[n] > calls[n].now ==> b.tokens == 0.0)
    decreases |calls|
  {
    hide Served, Saved;
    var n := |calls| - 1;
    var rs := Releases(calls);
    SavedSum(0.0, 0.0, rate);
    if n == 0 {
      i := 0;
      ServedFirst(calls[0]);
      assert calls[..0] == [];
    } else {
      i := FullSince(calls[..n], rate, capacity);
      AfterBooked(calls[..n]);
      AfterBooked(calls);
      var b := After(calls[..n]).value;
      ServedExactly(b, calls[n], calls[n - 1].now);
      ServedPace(Some(b), calls[n]);
      var b' := After(calls).value;
      if b'.tokens == b.tokens + Saved(b'.at - b.at, rate) - 1.0 {
        SavedSum(rs[n] - rs[n - 1], rs[n - 1] - rs[i], rate);
        assert rs[n] - rs[n - 1] + (rs[n - 1] - rs[i]) == rs[n] - rs[i];
      } else {
        i := n;
      }
    }
  }

  lemma ServedPace(b: Option<Level>, c: Call)
    requires c.rate > 0.0
    ensures Served(b, c).0.rate == c.rate && Served(b, c).0.capacity == c.capacity
  {
  }

  /** No call waits for nothing: at one pace, a call is let go when it comes, or else so soon that since some
      earlier call exactly as many have been let go as the burst and the pace allow. */
  lemma WaitsOnlyWhenFull(calls: seq<Call>, rate: real, capacity: real)
    requires Sane(calls) && calls != [] && Uniform(calls, rate, capacity)
    ensures var rs, n := Releases(calls), |calls| - 1;
            rs[n] == calls[n].now ||
            exists i :: 0 <= i <= n && (n - i + 1) as real == capacity + Saved(rs[n] - rs[i], rate)
  {
    hide After, Releases, Saved;
    var i := FullSince(calls, rate, capacity);
    ReleasesInOrder(calls);
  }

  /** How many releases fall in a window, its ends included. */
  function InWindow(rs: seq<real>, lo: real, hi: real): nat {
    if rs == [] then 0 else
      InWindow(rs[..|rs| - 1], lo, hi) + if lo <= rs[|rs| - 1] <= hi then 1 else 0
  }

  lemma {:induction false} WindowEnds(rs: seq<real>, lo: real, hi: real) returns (i: nat, j: nat)
    requires InWindow(rs, lo, hi) > 0
    ensures i <= j < |rs| && lo <= rs[i] <= hi && lo <= rs[j] <= hi && InWindow(rs, lo, hi) <= j - i + 1
    decreases |rs|
  {
    var n := |rs| - 1;
    if InWindow(rs[..n], lo, hi) > 0 {
      i, j := WindowEnds(rs[..n], lo, hi);
      if lo <= rs[n] <= hi {
        j := n;
      }
    } else {
      i, j := n, n;
    }
  }

  /** Any window of any run holds at most the burst plus what the rate allows over the window's length,
      even while calls queue behind waits already booked. */
  lemma WindowBound(calls: seq<Call>, lo: real, hi: real, rate: real, capacity: real)
    requires Sane(calls) && Within(calls, rate, capacity) && lo <= hi && rate > 0.0 && capacity >= 0.0
    ensures InWindow(Releases(calls), lo, hi) as real <= capacity + Saved(hi - lo, rate)
  {
    hide Sane, Within, InWindow, Releases, Saved;
    var rs := Releases(calls);
    if InWindow(rs, lo, hi) > 0 {
      var i, j := WindowEnds(rs, lo, hi);
      SpanBound(calls, i, j, rate, capacity);
      SavedSum(hi - lo - (rs[j] - rs[i]), rs[j] - rs[i], rate);
      SavedSign(hi - lo - (rs[j] - rs[i]), rate);
    }
    SavedSign(hi - lo, rate);
  }

  // ---------------------------------------------------------------- the guard as it runs

  class Bucket {
    var rate: real
    var capacity: real
    var tokens: real
    var at: real

    constructor (rate: real, capacity: real, now: real)
      ensures View() == Level(rate, capacity, capacity, now)
    {
      this.rate, this.capacity, tokens, at := rate, capacity, capacity, now;
    }

    function View(): Level
      reads this
    {
      Level(rate, capacity, tokens, at)
    }

    method Rerate(rate: real, capacity: real)
      modifies this
      ensures View() == Rerated(old(View()), rate, capacity)
    {
      this.rate := rate;
      this.capacity := capacity;
      tokens := Min(tokens, capacity);
    }

    method Take(now: real) returns (wait: real)
      requires rate > 0.0
      modifies this
      ensures (View(), wait) == Taken(old(View()), now)
    {
      tokens := Min(capacity, tokens + Saved(now - at, rate));
      at := now;
      if tokens >= 1.0 {
        tokens := tokens - 1.0;
        return 0.0;
      }
      wait := (1.0 - tokens) / rate;
      tokens := 0.0;
      at := now + wait;
    }
  }

  lemma OneMore(past: seq<Call>, c: Call)
    requires Sane(past + [c])
    ensures Sane(past) && c.rate > 0.0 && c.capacity >= 1.0 && past + [c] != [] && (past == [] ==> After(past) == None)
    ensures After(past + [c]) == Some(Served(After(past), c).0)
    ensures Releases(past + [c])[|past|] == c.now + Served(After(past), c).1
  {
    hide Served;
    var calls := past + [c];
    assert calls[..|past|] == past && calls[|past|] == c;
    forall i, j | 0 <= i < j < |past|
      ensures past[i].now <= past[j].now
    {
      assert calls[i].now <= calls[j].now;
    }
    assert forall i :: 0 <= i < |past| ==> past[i] == calls[i];
  }

  lemma RatedAt(b: Level, rate: real, capacity: real)
    ensures Rerated(b, rate, capacity).rate == rate
  {
  }

  lemma ServedIs(b: Option<Level>, c: Call)
    requires c.rate > 0.0
    ensures Served(b, c) ==
            Taken(Rerated(First(b, c), c.rate, c.capacity), c.now)
  {
    hide Taken, Rerated, First;
  }

  /** The buckets of a process, by name. `calls` is what each has served, for the proof. */
  class Pacer {
    var buckets: map<string, Bucket>
    ghost var calls: map<string, seq<Call>>

    constructor ()
      ensures Valid() && calls == map[] && buckets == map[]
    {
      buckets, calls := map[], map[];
    }

    /** The bucket of a name is where its calls have left it. */
    ghost predicate Tracks(k: string)
      requires k in buckets
      reads this, buckets[k]
    {
      k in calls && calls[k] != [] && Sane(calls[k]) && After(calls[k]) == Some(buckets[k].View())
    }

    ghost predicate Valid()
      reads this, buckets.Values
    {
      && buckets.Keys == calls.Keys
      && (forall k :: k in buckets ==> Tracks(k))
      && (forall j, k :: j in buckets && k in buckets && j != k ==> buckets[j] != buckets[k])
    }

    ghost function History(key: string): seq<Call>
      reads this
    {
      if key in calls then calls[key] else []
    }

    /** The bucket of a name, made full on first use. */
    method Named(key: string, rate: real, capacity: real, now: real) returns (b: Bucket)
      requires Valid() && Sane(History(key))
      modifies this`buckets
      ensures buckets == old(buckets)[key := b] && (key !in old(buckets) ==> fresh(b))
      ensures key in old(buckets) ==> b == old(buckets)[key]
      ensures b.View() == First(After(old(History(key))), Call(now, rate, capacity))
      ensures forall k :: k in old(buckets) && k != key ==> buckets[k] == old(buckets)[k] && buckets[k] != b
    {
      hide Sane;
      if key in buckets {
        assert Tracks(key);
        return buckets[key];
      }
      b := new Bucket(rate, capacity, now);
      buckets := buckets[key := b];
    }

    /** Book the call at the clock's reading and say how long to sleep. Other names are not touched. */
    method WaitForPace(key: string, rate: real, capacity: real, now: real) returns (wait: real)
      requires Valid() && Sane(History(key) + [Call(now, rate, capacity)])
      modifies this, buckets.Values
      ensures Valid() && calls == old(calls)[key := old(History(key)) + [Call(now, rate, capacity)]]
      ensures now + wait == Releases(History(key))[|History(key)| - 1]
    {
      hide Sane, After, Releases, Served, Taken, Rerated, First;
      OneMore(History(key), Call(now, rate, capacity));
      var b := Named(key, rate, capacity, now);
      wait := Book(key, b, rate, capacity, now);
    }

    method Book(key: string, b: Bucket, rate: real, capacity: real, now: real) returns (wait: real)
      requires key in buckets && buckets[key] == b && rate > 0.0 && buckets.Keys == calls.Keys + {key}
      requires Sane(History(key) + [Call(now, rate, capacity)]) && Sane(History(key))
      requires b.View() == First(After(History(key)), Call(now, rate, capacity))
      requires forall k :: k in buckets && k != key ==> Tracks(k) && buckets[k] != b
      requires forall j, k :: j in buckets && k in buckets && j != k ==> buckets[j] != buckets[k]
      modifies this`calls, b
      ensures Valid() && calls == old(calls)[key := old(History(key)) + [Call(now, rate, capacity)]]
      ensures now + wait == Releases(History(key))[|History(key)| - 1]
    {
      hide Sane, After, Releases, Served, Taken, Rerated, First;
      ghost var c, past := Call(now, rate, capacity), History(key);
      OneMore(past, c);
      ServedIs(After(past), c);
      RatedAt(b.View(), rate, capacity);
      b.Rerate(rate, capacity);
      wait := b.Take(now);
      calls := calls[key := past + [c]];
    }
  }
}

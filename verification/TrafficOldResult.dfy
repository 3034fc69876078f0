// A run of the traffic controller in which single flight hands out an old result.
//
// One request runs and publishes. Much later others keep the token bucket empty, so
// that the next request for the key is refused at every try until it gives up. It
// publishes nothing, and the request that waited for it gets the old result.
module TrafficOldResult {
  import opened Wrappers
  import opened SingleFlight
  import opened TrafficController
  import opened TrafficSchedule
  import CB = CircuitBreakers
  import TB = TokenBuckets

  // From position m on no executor returns and nobody asks for caching.
  ghost predicate Quiet(acts: seq<Action>, m: nat) {
    forall i :: m <= i < |acts| ==> !acts[i].Finish? && (acts[i].Call? ==> acts[i].req.ttl == 0.0)
  }

  // t is s but for requests for the other key that came and went.
  ghost predicate Drained(s: State, t: State, other: string) {
    && t == s.(bucket := t.bucket, tries := t.tries, flight := t.flight, results := t.results)
    && t.flight.inflight == s.flight.inflight
    && (forall id :: At(s.flight, id) ==>
          At(t.flight, id) && t.flight.pcs[id] == s.flight.pcs[id] && t.flight.reqs[id] == s.flight.reqs[id])
    && (forall k :: k != other && k in s.results ==> k in t.results && t.results[k] == s.results[k])
  }

  // Ids from n to m - 1 are the only new ones.
  ghost predicate NewIds(s: State, t: State, n: nat, m: nat) {
    forall id :: id in t.flight.pcs ==> id in s.flight.pcs || n <= id < m
  }

  ghost predicate UnusedFrom(s: State, n: nat) {
    forall id :: id in s.flight.pcs ==> id < n
  }

  // Requests for the other key can pass: the breaker is closed and the semaphore is free.
  predicate Passable(s: State, other: string) {
    !s.breaker.open && s.free > 0 && other !in s.flight.inflight
  }

  lemma DrainOne(c: Config, acts: seq<Action>, s: State, other: string, n: nat, m: nat)
    returns (acts': seq<Action>, s': State)
    requires Leads(c, Init(c), acts, s) && Settled(acts, s) && Quiet(acts, m) && Passable(s, other)
    requires UnusedFrom(s, n) && TB.Refilled(s.bucket, s.now) >= 1.0
    ensures Leads(c, Init(c), acts', s') && Settled(acts', s') && Quiet(acts', m) && acts <= acts'
    ensures Drained(s, s', other) && NewIds(s, s', n, n + 1) && UnusedFrom(s', n + 1)
    ensures TB.Refilled(s'.bucket, s'.now) == TB.Refilled(s.bucket, s.now) - 1.0
  {
    hide Apply, Enabled, Leads, TB.Refilled, TB.Acquire, GoesOn;
    var r := Request(Execution, other, 0.0, false);
    ClosedGate(c, s);
    var acts1, s1 := Arrives(c, Init(c), acts, s, n, r);
    TakeToken(c, s1, n);
    var acts2, s2 := Take(c, Init(c), acts1, s1, TryBucket(n));
    TakePass(c, s2, n);
    acts', s' := Take(c, Init(c), acts2, s2, EnterSemaphore(n));
    DoneGoesNowhere(s', EnterSemaphore(n));
    TB.LevelAfterTry(s.bucket, s.now);
    assert s.flight.inflight[other := n] - {other} == s.flight.inflight;
  }

  lemma ClosedGate(c: Config, s: State)
    requires !s.breaker.open
    ensures CB.Gate(c.breaker, s.breaker, s.now) == (s.breaker, true)
  {
  }

  lemma DoneGoesNowhere(s: State, a: Action)
    requires !Environment(a) && At(s.flight, a.id) && (s.flight.pcs[a.id].Done? || s.flight.pcs[a.id].Waiting?)
    ensures !GoesOn(a, s)
  {
  }

  // They can take every token there is.
  lemma Drain(c: Config, acts: seq<Action>, s: State, other: string, n: nat, m: nat)
    returns (acts': seq<Action>, s': State, n': nat)
    requires Leads(c, Init(c), acts, s) && Settled(acts, s) && Quiet(acts, m) && Passable(s, other) && UnusedFrom(s, n)
    ensures Leads(c, Init(c), acts', s') && Settled(acts', s') && Quiet(acts', m) && acts <= acts'
    ensures n <= n' && Drained(s, s', other) && NewIds(s, s', n, n') && UnusedFrom(s', n')
    ensures TB.Refilled(s'.bucket, s'.now) < 1.0
    decreases TB.Refilled(s.bucket, s.now).Floor
  {
    hide TB.Refilled, Leads, Settled;
    if TB.Refilled(s.bucket, s.now) < 1.0 {
      acts', s', n' := acts, s, n;
    } else {
      var acts1, s1 := DrainOne(c, acts, s, other, n, m);
      acts', s', n' := Drain(c, acts1, s1, other, n + 1, m);
    }
  }

  // Request 2 leads for the key, request 3 waits for it, and v was published long ago.
  ghost predicate Scene(s: State, key: string, v: Payload) {
    && !s.breaker.open && s.free > 0 && s.flight.inflight == map[key := 2]
    && At(s.flight, 2) && At(s.flight, 3) && s.flight.pcs[3] == Waiting(2)
    && s.flight.reqs[2].key == key && s.flight.reqs[3].key == key
    && key in s.results && s.results[key] == Some(v)
  }

  lemma DrainedScene(s: State, t: State, key: string, v: Payload, other: string)
    requires Scene(s, key, v) && Drained(s, t, other) && other != key
    ensures Scene(t, key, v) && t.flight.pcs[2] == s.flight.pcs[2] && t.now == s.now
  {
  }

  // Refused just now, the leader is refused at each of its k - 1 further tries and gives
  // up at the last one.
  lemma {:induction false} WaitOut(c: Config, acts: seq<Action>, s: State, key: string, v: Payload, other: string,
                                   n: nat, k: nat, m: nat)
    returns (acts': seq<Action>, s': State)
    requires Leads(c, Init(c), acts, s) && Settled(acts, s) && Quiet(acts, m) && UnusedFrom(s, n)
    requires Scene(s, key, v) && other != key && k >= 1
    requires s.flight.pcs[2] == AtBucket(s.now + (k as real) * 0.1, s.now + BUCKET_PAUSE)
    ensures Leads(c, Init(c), acts', s') && Settled(acts', s') && Quiet(acts', m) && acts <= acts' && s'.now >= s.now
    ensures At(s'.flight, 2) && s'.flight.pcs[2] == Done(None) && 2 in s'.flight.fired
    ensures At(s'.flight, 3) && s'.flight.pcs[3] == Waiting(2) && s'.flight.reqs[3].key == key
    ensures key in s'.results && s'.results[key] == Some(v)
    decreases k
  {
    hide Apply, Enabled, Leads, TB.Refilled, TB.Acquire, GoesOn;
    TakeTick(c, s, BUCKET_PAUSE);
    var acts1, s1 := Take(c, Init(c), acts, s, Tick(BUCKET_PAUSE));
    TickGoesNowhere(s1, BUCKET_PAUSE);
    if k == 1 {
      TakeTimeout(c, s1, 2);
      acts', s' := Take(c, Init(c), acts1, s1, TryBucket(2));
      DoneGoesNowhere(s', TryBucket(2));
    } else {
      var acts2, s2, n2 := Drain(c, acts1, s1, other, n, m);
      DrainedScene(s1, s2, key, v, other);
      var acts3, s3 := RefusedAgain(c, acts2, s2, key, v, n2, m);
      assert s3.flight.pcs[2].deadline == s3.now + ((k - 1) as real) * 0.1;
      acts', s' := WaitOut(c, acts3, s3, key, v, other, n2, k - 1, m);
    }
  }

  lemma RefusedAgain(c: Config, acts: seq<Action>, s: State, key: string, v: Payload, n: nat, m: nat)
    returns (acts': seq<Action>, s': State)
    requires Leads(c, Init(c), acts, s) && Settled(acts, s) && Quiet(acts, m) && UnusedFrom(s, n) && Scene(s, key, v)
    requires s.flight.pcs[2].AtBucket? && s.flight.pcs[2].ready <= s.now < s.flight.pcs[2].deadline
    requires TB.Refilled(s.bucket, s.now) < 1.0
    ensures Leads(c, Init(c), acts', s') && Settled(acts', s') && Quiet(acts', m)
    ensures UnusedFrom(s', n) && Scene(s', key, v) && acts <= acts' && s'.now == s.now
    ensures s'.flight.pcs[2] == AtBucket(s.flight.pcs[2].deadline, s.now + BUCKET_PAUSE)
  {
    TakeRefusal(c, s, 2);
    hide Apply, Enabled, Leads, TB.Refilled, TB.Acquire;
    acts', s' := Take(c, Init(c), acts, s, TryBucket(2));
  }

  lemma TickGoesNowhere(s: State, dt: real)
    ensures !GoesOn(Tick(dt), s)
  {
  }

  // Request 1 runs alone and publishes v.
  lemma OneRequestAlone(c: Config, key: string, v: Payload) returns (acts: seq<Action>, s: State)
    requires c.maxConcurrent > 0
    ensures Leads(c, Init(c), acts, s) && Settled(acts, s) && acts != []
    ensures s.results == map[key := Some(v)]
    ensures s.flight == Flight(map[], {1}, map[1 := Request(Execution, key, 0.0, true)], map[1 := Done(Some(v))])
    ensures !s.breaker.open && s.now == 0.0 && s.free > 0
  {
    assert !CB.OnSuccess(CB.CLOSED).open && !CB.CLOSED.open;
    assert TB.Refilled(TB.Fresh(c.rate, BURST, 0.0), 0.0) >= 1.0 by {
      TB.AccruedAdds(0.0, 0.0, 0.0, c.rate);
    }
    var s0 := Init(c);
    LeadsNowhere(c, s0);
    ClosedGate(c, s0);
    hide Apply, Enabled, Leads, TB.Refilled, TB.Acquire, TB.Fresh, GoesOn, CB.OnSuccess;
    var acts1, s1 := Arrives(c, s0, [], s0, 1, Request(Execution, key, 0.0, true));
    var acts2, s2 := GetsIn(c, s0, acts1, s1, 1);
    TakeReturn(c, s2, 1, Some(v));
    acts, s := Take(c, s0, acts2, s2, Finish(1, Returned(Some(v))));
    DoneGoesNowhere(s, Finish(1, Returned(Some(v))));
    assert map[key := 1] - {key} == map[];
  }

  // The leader comes when the bucket is empty, and another request waits for it.
  lemma LeaderAndWaiter(c: Config, acts: seq<Action>, s: State, key: string, v: Payload, m: nat)
    returns (acts': seq<Action>, s': State)
    requires Leads(c, Init(c), acts, s) && Settled(acts, s) && Quiet(acts, m)
    requires !s.breaker.open && s.free > 0 && s.flight.inflight == map[]
    requires key in s.results && s.results[key] == Some(v)
    requires 2 !in s.flight.pcs && 3 !in s.flight.pcs && TB.Refilled(s.bucket, s.now) < 1.0
    ensures Leads(c, Init(c), acts', s') && Settled(acts', s') && Quiet(acts', m) && acts <= acts'
    ensures Scene(s', key, v) && s'.now == s.now && NewIds(s, s', 2, 4)
    ensures s'.flight.pcs[2] == AtBucket(s.now + BUCKET_TIMEOUT, s.now + BUCKET_PAUSE)
  {
    hide Apply, Enabled, Leads, TB.Refilled, TB.Acquire, GoesOn;
    var r := Request(Execution, key, 0.0, true);
    ClosedGate(c, s);
    var acts1, s1 := Arrives(c, Init(c), acts, s, 2, r);
    TakeRefusal(c, s1, 2);
    var acts2, s2 := Take(c, Init(c), acts1, s1, TryBucket(2));
    RefusalSuspends(s2);
    TakeCall(c, s2, 3, r);
    var acts3, s3 := Take(c, Init(c), acts2, s2, Call(3, r));
    CallSuspends(s3, r);
    ClosedGate(c, s3);
    TakeBegin(c, s3, 3);
    acts', s' := Take(c, Init(c), acts3, s3, Begin(3));
    DoneGoesNowhere(s', Begin(3));
  }

  lemma RefusalSuspends(s: State)
    requires At(s.flight, 2) && s.flight.pcs[2].AtBucket?
    ensures !GoesOn(TryBucket(2), s)
  {
  }

  lemma CallSuspends(s: State, r: Request)
    ensures !GoesOn(Call(3, r), s)
  {
  }

  // A waiter can be handed a result as old as one likes, although no call asked for
  // caching and no executor has returned anything since: under every configuration with
  // a place in the semaphore there is such a run that an event loop can produce.
  lemma WaiterCanGetAnOldResult(c: Config, key: string, other: string, v: Payload, age: real)
    returns (first: seq<Action>, acts: seq<Action>)
    requires c.maxConcurrent > 0 && age >= 0.0 && other != key
    ensures Run(c, first).Some? && Run(c, first).value.now == 0.0
    ensures Run(c, first).value.flight.pcs == map[1 := Done(Some(v))]
    ensures first <= acts && Quiet(acts, |first|) && Seamless(c, Init(c), acts)
    ensures Run(c, acts).Some? && Run(c, acts).value.now >= age
    ensures var f := Run(c, acts).value.flight;
      && At(f, 2) && f.pcs[2] == Done(None)
      && At(f, 3) && f.reqs[3].key == key && f.pcs[3] == Done(Some(v))
  {
    hide Apply, Enabled, Leads, Init, TB.Refilled, TB.Acquire, GoesOn, Seamless, RunFrom;
    var s1: State;
    first, s1 := OneRequestAlone(c, key, v);
    var m := |first|;
    TakeTick(c, s1, age);
    var acts2, s2 := Take(c, Init(c), first, s1, Tick(age));
    TickGoesNowhere(s2, age);
    var acts3, s3, n := Drain(c, acts2, s2, other, 4, m);
    var acts4, s4 := LeaderAndWaiter(c, acts3, s3, key, v, m);
    var acts5, s5 := WaitOut(c, acts4, s4, key, v, other, n, 50, m);
    TakeWake(c, s5, 3, v);
    acts, s5 := Take(c, Init(c), acts5, s5, EventFired(3));
    LeadsIsRun(c, first, s1);
    LeadsIsRun(c, acts, s5);
  }
}

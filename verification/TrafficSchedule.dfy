// Which runs of the machine an event loop can produce step by step, and how to build
// such runs.
//
// Not every await suspends: locks that nobody holds, a free place in the semaphore and
// the first try at the bucket are passed at once. A run is seamless when a request that
// goes on in this way is not interrupted. What is proved for every run holds for the
// seamless ones in particular; what is shown to happen is shown by seamless runs.
module TrafficSchedule {
  import opened Wrappers
  import opened SingleFlight
  import opened TrafficController
  import CB = CircuitBreakers
  import TB = TokenBuckets
  import TTL = TTLCaches

  // After action a led to state s, the request it belongs to goes on without suspending.
  predicate GoesOn(a: Action, s: State) {
    !Environment(a) && At(s.flight, a.id)
    && var pc := s.flight.pcs[a.id];
    || pc.AtCache? || pc.Storing?
    || (pc.AtBucket? && (a.Begin? || a.CacheAnswer?))
    || (pc.AtSemaphore? && a.TryBucket? && s.free > 0)
  }

  // Action a may follow acts, which led to state s.
  predicate Follows(acts: seq<Action>, s: State, a: Action) {
    acts != [] && GoesOn(acts[|acts| - 1], s) ==> !Environment(a) && a.id == acts[|acts| - 1].id
  }

  predicate Settled(acts: seq<Action>, s: State) {
    acts != [] ==> !GoesOn(acts[|acts| - 1], s)
  }

  ghost predicate Seamless(c: Config, s: State, acts: seq<Action>) {
    acts == []
    || (var front, t := acts[..|acts| - 1], RunFrom(c, s, acts[..|acts| - 1]);
        t.Some? && Seamless(c, s, front) && Follows(front, t.value, acts[|acts| - 1]))
  }

  // acts is a seamless run from s0 to s.
  ghost predicate Leads(c: Config, s0: State, acts: seq<Action>, s: State) {
    RunFrom(c, s0, acts) == Some(s) && Seamless(c, s0, acts)
  }

  lemma LeadsNowhere(c: Config, s: State)
    ensures Leads(c, s, [], s) && Settled([], s)
  {
  }

  lemma LeadsIsRun(c: Config, acts: seq<Action>, s: State)
    requires Leads(c, Init(c), acts, s)
    ensures Run(c, acts) == Some(s) && Seamless(c, Init(c), acts)
  {
  }

  lemma Take(c: Config, s0: State, acts: seq<Action>, s: State, a: Action) returns (acts': seq<Action>, s': State)
    requires Leads(c, s0, acts, s) && Enabled(s, a) && Follows(acts, s, a)
    ensures acts' == acts + [a] && s' == Apply(c, s, a) && Leads(c, s0, acts', s')
    ensures Settled(acts', s') <==> !GoesOn(a, s')
  {
    hide Enabled, Apply, GoesOn, Follows;
    acts', s' := acts + [a], Apply(c, s, a);
    assert acts'[..|acts|] == acts;
  }

  // --- What single actions do ------------------------------------------------------

  lemma TakeTick(c: Config, s: State, dt: real)
    requires dt >= 0.0
    ensures Enabled(s, Tick(dt)) && Apply(c, s, Tick(dt)) == s.(now := s.now + dt)
  {
  }

  lemma TakeCall(c: Config, s: State, id: nat, r: Request)
    requires id !in s.flight.pcs
    ensures Enabled(s, Call(id, r))
    ensures var f := s.flight;
      Apply(c, s, Call(id, r)) == s.(flight := Flight(f.inflight, f.fired, f.reqs[id := r], f.pcs[id := Start]))
  {
  }

  // A request that skips the cache and that the breaker lets through leads or waits.
  lemma TakeBegin(c: Config, s: State, id: nat)
    requires At(s.flight, id) && s.flight.pcs[id].Start? && s.flight.reqs[id].ttl <= 0.0
    requires !s.paused || s.flight.reqs[id].group.Execution?
    requires !c.breakerEnabled || CB.Gate(c.breaker, s.breaker, s.now).1
    ensures Enabled(s, Begin(id))
    ensures var f, key := s.flight, s.flight.reqs[id].key;
      Apply(c, s, Begin(id)) == s.(
        breaker := if c.breakerEnabled then CB.Gate(c.breaker, s.breaker, s.now).0 else s.breaker,
        flight := if key in f.inflight then Flight(f.inflight, f.fired, f.reqs, f.pcs[id := Waiting(f.inflight[key])])
                  else Flight(f.inflight[key := id], f.fired, f.reqs,
                              f.pcs[id := AtBucket(s.now + BUCKET_TIMEOUT, s.now)]))
  {
    hide CB.Gate;
  }

  lemma TakeToken(c: Config, s: State, id: nat)
    requires At(s.flight, id) && s.flight.pcs[id].AtBucket?
    requires s.flight.pcs[id].ready <= s.now < s.flight.pcs[id].deadline
    requires TB.Refilled(s.bucket, s.now) >= 1.0
    ensures Enabled(s, TryBucket(id))
    ensures var t, f := Apply(c, s, TryBucket(id)), s.flight;
      t == s.(bucket := TB.Acquire(s.bucket, s.now).0, tries := t.tries,
              flight := Flight(f.inflight, f.fired, f.reqs, f.pcs[id := AtSemaphore]))
  {
    hide TB.Refilled;
  }

  lemma TakeRefusal(c: Config, s: State, id: nat)
    requires At(s.flight, id) && s.flight.pcs[id].AtBucket?
    requires s.flight.pcs[id].ready <= s.now < s.flight.pcs[id].deadline
    requires TB.Refilled(s.bucket, s.now) < 1.0
    ensures Enabled(s, TryBucket(id))
    ensures var t, f := Apply(c, s, TryBucket(id)), s.flight;
      t == s.(bucket := TB.Acquire(s.bucket, s.now).0, tries := t.tries,
              flight := Flight(f.inflight, f.fired, f.reqs,
                               f.pcs[id := AtBucket(f.pcs[id].deadline, s.now + BUCKET_PAUSE)]))
  {
    hide TB.Refilled;
  }

  lemma TakeTimeout(c: Config, s: State, id: nat)
    requires At(s.flight, id) && s.flight.pcs[id].AtBucket?
    requires s.flight.pcs[id].deadline <= s.now && s.flight.pcs[id].ready <= s.now
    requires s.flight.reqs[id].key in s.flight.inflight && s.flight.inflight[s.flight.reqs[id].key] == id
    ensures Enabled(s, TryBucket(id))
    ensures var f, key := s.flight, s.flight.reqs[id].key;
      Apply(c, s, TryBucket(id))
      == s.(flight := Flight(f.inflight - {key}, f.fired + {id}, f.reqs, f.pcs[id := Done(None)]))
  {
  }

  lemma TakeEnter(c: Config, s: State, id: nat)
    requires At(s.flight, id) && s.flight.pcs[id].AtSemaphore? && s.free > 0 && s.flight.reqs[id].hasExecutor
    ensures Enabled(s, EnterSemaphore(id))
    ensures var f := s.flight;
      Apply(c, s, EnterSemaphore(id))
      == s.(free := s.free - 1, flight := Flight(f.inflight, f.fired, f.reqs, f.pcs[id := Executing(0)]))
  {
  }

  // A request without an executor passes the semaphore and publishes nothing but None.
  lemma TakePass(c: Config, s: State, id: nat)
    requires At(s.flight, id) && s.flight.pcs[id].AtSemaphore? && s.free > 0 && !s.flight.reqs[id].hasExecutor
    requires s.flight.reqs[id].key in s.flight.inflight && s.flight.inflight[s.flight.reqs[id].key] == id
    ensures Enabled(s, EnterSemaphore(id))
    ensures var f, key := s.flight, s.flight.reqs[id].key;
      Apply(c, s, EnterSemaphore(id))
      == s.(results := s.results[key := None],
            flight := Flight(f.inflight - {key}, f.fired + {id}, f.reqs, f.pcs[id := Done(None)]))
  {
  }

  lemma TakeReturn(c: Config, s: State, id: nat, v: Option<Payload>)
    requires At(s.flight, id) && s.flight.pcs[id].Executing? && s.flight.reqs[id].ttl <= 0.0
    requires s.flight.reqs[id].key in s.flight.inflight && s.flight.inflight[s.flight.reqs[id].key] == id
    ensures Enabled(s, Finish(id, Returned(v)))
    ensures var t, f, key := Apply(c, s, Finish(id, Returned(v))), s.flight, s.flight.reqs[id].key;
      t == s.(breaker := CB.OnSuccess(s.breaker), free := s.free + 1, produced := t.produced,
              results := s.results[key := v],
              flight := Flight(f.inflight - {key}, f.fired + {id}, f.reqs, f.pcs[id := Done(v)]))
  {
  }

  // An executor that raises is tried again after a pause, or given up.
  lemma TakeRaise(c: Config, s: State, id: nat, status: int)
    requires At(s.flight, id) && s.flight.pcs[id].Executing? && s.breaker.open
    requires s.flight.reqs[id].key in s.flight.inflight && s.flight.inflight[s.flight.reqs[id].key] == id
    ensures Enabled(s, Finish(id, Raised(status, 0.0)))
    ensures var t, f, key := Apply(c, s, Finish(id, Raised(status, 0.0))), s.flight, s.flight.reqs[id].key;
      var attempt := f.pcs[id].attempt;
      t == (if attempt >= MaxRetries(f.reqs[id].group) then
              s.(breaker := t.breaker, free := s.free + 1, results := s.results[key := None],
                 flight := Flight(f.inflight - {key}, f.fired + {id}, f.reqs, f.pcs[id := Done(None)]))
            else
              s.(breaker := t.breaker,
                 flight := Flight(f.inflight, f.fired, f.reqs,
                                  f.pcs[id := Sleeping(attempt + 1, s.now + Backoff(attempt))])))
      && t.breaker.open && t.breaker.halfOpen == s.breaker.halfOpen
  {
    hide CB.Recent, Backoff;
  }

  lemma TakeRetry(c: Config, s: State, id: nat)
    requires At(s.flight, id) && s.flight.pcs[id].Sleeping? && s.flight.pcs[id].wake <= s.now
    ensures Enabled(s, Retry(id))
    ensures var f := s.flight;
      Apply(c, s, Retry(id))
      == s.(flight := Flight(f.inflight, f.fired, f.reqs, f.pcs[id := Executing(f.pcs[id].next)]))
  {
  }

  lemma TakeWake(c: Config, s: State, id: nat, v: Payload)
    requires At(s.flight, id) && s.flight.pcs[id].Waiting? && s.flight.pcs[id].leader in s.flight.fired
    requires s.flight.reqs[id].key in s.results && s.results[s.flight.reqs[id].key] == Some(v)
    ensures Enabled(s, EventFired(id))
    ensures var f := s.flight;
      Apply(c, s, EventFired(id)) == s.(flight := Flight(f.inflight, f.fired, f.reqs, f.pcs[id := Done(Some(v))]))
  {
  }

  lemma TakeForceOpen(c: Config, s: State)
    ensures Enabled(s, ForceOpen)
    ensures Apply(c, s, ForceOpen) == s.(breaker := s.breaker.(open := true, halfOpen := false))
  {
  }

  // --- Several actions in a row --------------------------------------------------------

  // A new request for a key nobody asks for calls, passes the breaker and leads.
  lemma Arrives(c: Config, s0: State, acts: seq<Action>, s: State, id: nat, r: Request)
    returns (acts': seq<Action>, s': State)
    requires Leads(c, s0, acts, s) && Settled(acts, s)
    requires id !in s.flight.pcs && r.ttl <= 0.0 && r.group.Execution? && r.key !in s.flight.inflight
    requires c.breakerEnabled ==> CB.Gate(c.breaker, s.breaker, s.now).1
    ensures acts' == acts + [Call(id, r), Begin(id)] && Leads(c, s0, acts', s') && GoesOn(Begin(id), s')
    ensures var f := s.flight;
      s' == s.(breaker := if c.breakerEnabled then CB.Gate(c.breaker, s.breaker, s.now).0 else s.breaker,
               flight := Flight(f.inflight[r.key := id], f.fired, f.reqs[id := r],
                                f.pcs[id := AtBucket(s.now + BUCKET_TIMEOUT, s.now)]))
  {
    hide Apply, Enabled, Leads, CB.Gate;
    TakeCall(c, s, id, r);
    var acts1, s1 := Take(c, s0, acts, s, Call(id, r));
    TakeBegin(c, s1, id);
    acts', s' := Take(c, s0, acts1, s1, Begin(id));
    assert s.flight.pcs[id := Start][id := AtBucket(s.now + BUCKET_TIMEOUT, s.now)]
        == s.flight.pcs[id := AtBucket(s.now + BUCKET_TIMEOUT, s.now)];
  }

  // It gets a token and enters the semaphore without suspending.
  lemma GetsIn(c: Config, s0: State, acts: seq<Action>, s: State, id: nat) returns (acts': seq<Action>, s': State)
    requires Leads(c, s0, acts, s) && acts != [] && acts[|acts| - 1] == Begin(id)
    requires At(s.flight, id) && s.flight.pcs[id].AtBucket?
    requires s.flight.pcs[id].ready <= s.now < s.flight.pcs[id].deadline
    requires TB.Refilled(s.bucket, s.now) >= 1.0 && s.free > 0 && s.flight.reqs[id].hasExecutor
    ensures acts' == acts + [TryBucket(id), EnterSemaphore(id)] && Leads(c, s0, acts', s') && Settled(acts', s')
    ensures var f := s.flight;
      s' == s.(free := s.free - 1, bucket := TB.Acquire(s.bucket, s.now).0, tries := s'.tries,
               flight := Flight(f.inflight, f.fired, f.reqs, f.pcs[id := Executing(0)]))
  {
    hide Apply, Enabled, Leads, TB.Refilled, TB.Acquire;
    TakeToken(c, s, id);
    var acts1, s1 := Take(c, s0, acts, s, TryBucket(id));
    TakeEnter(c, s1, id);
    acts', s' := Take(c, s0, acts1, s1, EnterSemaphore(id));
    assert s.flight.pcs[id := AtSemaphore][id := Executing(0)] == s.flight.pcs[id := Executing(0)];
  }

  // --- Names that are not taken ----------------------------------------------------------

  lemma FreshId(ids: set<nat>) returns (n: nat)
    ensures forall id :: id in ids ==> id < n
  {
    if ids == {} {
      n := 0;
    } else {
      var x :| x in ids;
      var m := FreshId(ids - {x});
      n := if x < m then m else x + 1;
      assert ids == (ids - {x}) + {x};
    }
  }

  lemma LongerThanAll(keys: set<string>) returns (n: nat)
    ensures forall k :: k in keys ==> |k| < n
  {
    if keys == {} {
      n := 0;
    } else {
      var x :| x in keys;
      var m := LongerThanAll(keys - {x});
      n := if |x| < m then m else |x| + 1;
      assert keys == (keys - {x}) + {x};
    }
  }

  lemma FreshKey(keys: set<string>) returns (k: string)
    ensures k !in keys
  {
    var n := LongerThanAll(keys);
    k := seq(n, _ => 'k');
  }
}

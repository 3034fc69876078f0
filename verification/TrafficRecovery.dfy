// When an open breaker of the traffic controller can still close by itself, and when not.
//
// record_error leaves the probe flag set, so an open breaker waits for its one probe
// for good. Whether it will close depends on the requests that are already under way.
module TrafficRecovery {
  import opened Wrappers
  import opened SingleFlight
  import opened TrafficController
  import opened TrafficProperties
  import opened TrafficSchedule
  import CB = CircuitBreakers
  import TB = TokenBuckets
  import TTL = TTLCaches

  // A leader at the bucket has a try before its deadline at which there is a token, if
  // nobody else takes it.
  predicate CanGetToken(s: State, pc: Pc)
    requires pc.AtBucket?
  {
    var first := if pc.ready <= s.now then s.now else pc.ready;
    first < pc.deadline && (TB.Refilled(s.bucket, first) >= 1.0 || TB.Refilled(s.bucket, pc.deadline) > 1.0)
  }

  // A request under way that may yet bring a success: it is inside the semaphore, or it
  // has an executor to run there and is past the bucket or can get past it.
  predicate Hopeful(c: Config, s: State, id: nat)
    requires At(s.flight, id)
  {
    var r, pc := s.flight.reqs[id], s.flight.pcs[id];
    Holding(pc)
    || (r.hasExecutor && c.maxConcurrent > 0 && (pc.AtSemaphore? || (pc.AtBucket? && CanGetToken(s, pc))))
  }

  ghost predicate Hopeless(c: Config, s: State) {
    forall id :: At(s.flight, id) ==> !Hopeful(c, s, id)
  }

  // No new request can get to an executor: the breaker waits for its probe, or there is
  // no place inside the semaphore, or neither a token nor a rate at which one comes.
  predicate NoNewProbe(c: Config, s: State) {
    || (c.breakerEnabled && s.breaker.halfOpen)
    || c.maxConcurrent == 0
    || (c.rate == 0.0 && s.bucket.tokens < 1.0)
  }

  // The breaker is open, and nobody under way or still to come can bring a success.
  ghost predicate Doomed(c: Config, s: State) {
    s.breaker.open && NoNewProbe(c, s) && Hopeless(c, s)
  }

  // --- Doomed for good ------------------------------------------------------------------

  ghost predicate BucketSane(c: Config, s: State) {
    TB.Valid(s.bucket) && s.bucket.rate == c.rate && s.bucket.burst == BURST && s.bucket.last <= s.now
  }

  lemma InvHasSaneBucket(c: Config, s: State)
    requires Inv(c, s) && c.rate >= 0.0
    ensures BucketSane(c, s)
  {
    hide TB.Acquire;
    var b := TB.Fresh(c.rate, BURST, 0.0);
    TB.AfterIsValid(b, s.tries, |s.tries|);
  }

  // Time and the tries of others give a leader at the bucket no chance it did not have.
  lemma ChanceShrinks(c: Config, s: State, t: State, pc: Pc)
    requires BucketSane(c, s) && c.rate >= 0.0 && BucketStep(s, t) && s.now <= t.now
    requires pc.AtBucket? && CanGetToken(t, pc)
    ensures CanGetToken(s, pc)
  {
    hide TB.Refilled, TB.Acquire;
    var first := if pc.ready <= s.now then s.now else pc.ready;
    var later := if pc.ready <= t.now then t.now else pc.ready;
    if t.tries != s.tries {
      TB.TryLowersLevel(s.bucket, s.now, later);
      TB.TryLowersLevel(s.bucket, s.now, pc.deadline);
    }
    ChanceWas(s.bucket, first, later, pc.deadline);
  }

  lemma ChanceWas(b: TB.Bucket, first: real, later: real, deadline: real)
    requires b.rate >= 0.0 && b.burst == BURST && first <= later < deadline
    requires TB.Refilled(b, later) >= 1.0 || TB.Refilled(b, deadline) > 1.0
    ensures TB.Refilled(b, first) >= 1.0 || TB.Refilled(b, deadline) > 1.0
  {
    hide TB.Accrued;
    TB.LevelGrows(b, first, later);
    TB.LevelGrows(b, later, deadline);
  }

  // Nobody but the request that acts can become hopeful.
  lemma OthersStayHopeless(c: Config, s: State, t: State, id: nat)
    requires BucketSane(c, s) && c.rate >= 0.0 && BucketStep(s, t) && s.now <= t.now
    requires At(s.flight, id) && At(t.flight, id)
    requires t.flight.pcs[id] == s.flight.pcs[id] && t.flight.reqs[id] == s.flight.reqs[id]
    ensures Hopeful(c, t, id) ==> Hopeful(c, s, id)
  {
    hide CanGetToken, BucketSane, BucketStep;
    var pc := s.flight.pcs[id];
    if pc.AtBucket? && CanGetToken(t, pc) {
      ChanceShrinks(c, s, t, pc);
    }
  }

  // What an action of one request leaves of a doomed state.
  ghost predicate StaysShut(c: Config, s: State, t: State, id: nat) {
    t.breaker.open && NoNewProbe(c, t) && t.produced == s.produced && At(t.flight, id) && !Hopeful(c, t, id)
  }

  // Without a token there is no chance, and none comes at rate zero.
  lemma NoTokenNoChance(c: Config, s: State, pc: Pc)
    requires BucketSane(c, s) && c.rate == 0.0 && s.bucket.tokens < 1.0 && pc.AtBucket?
    ensures !CanGetToken(s, pc)
  {
    hide TB.Accrued;
    var first := if pc.ready <= s.now then s.now else pc.ready;
    TB.LevelStays(s.bucket, first, s.bucket.last);
    TB.LevelStays(s.bucket, pc.deadline, s.bucket.last);
    TB.AccruedAdds(s.bucket.last, s.bucket.last, s.bucket.last, c.rate);
  }

  lemma GateStaysShut(c: Config, s: State, id: nat)
    requires Doomed(c, s) && BucketSane(c, s) && At(s.flight, id) && Early(s.flight.pcs[id])
    ensures StaysShut(c, s, GateAndJoin(c, s, id), id)
  {
    var t := GateAndJoin(c, s, id);
    GateIs(c, s, id);
    if c.breakerEnabled && s.breaker.halfOpen {
      hide CanGetToken, Hopeless, GateAndJoin;
      OpenBreakerGate(c, s, id);
    } else {
      hide CanGetToken, Hopeless, GateAndJoin, BucketSane;
      if t.flight.pcs[id].AtBucket? && c.maxConcurrent > 0 {
        NoTokenNoChance(c, s, t.flight.pcs[id]);
        SameChance(s, t, t.flight.pcs[id]);
      }
    }
  }

  lemma SameChance(s: State, t: State, pc: Pc)
    requires s.bucket == t.bucket && s.now == t.now && pc.AtBucket?
    ensures CanGetToken(s, pc) == CanGetToken(t, pc)
  {
  }

  lemma GateIs(c: Config, s: State, id: nat)
    requires At(s.flight, id) && s.breaker.open
    ensures var t := GateAndJoin(c, s, id);
      && t == s.(breaker := t.breaker, flight := t.flight) && At(t.flight, id) && t.breaker.open
      && (s.breaker.halfOpen ==> t.breaker.halfOpen)
      && (t.flight.pcs[id].Done? || t.flight.pcs[id].Waiting? || t.flight.pcs[id].AtBucket?)
  {
  }

  lemma BeginStaysShut(c: Config, s: State, id: nat)
    requires Doomed(c, s) && BucketSane(c, s) && Enabled(s, Begin(id))
    ensures StaysShut(c, s, Apply(c, s, Begin(id)), id)
  {
    GateStaysShut(c, s, id);
    hide GateAndJoin, CanGetToken, Hopeless, BucketSane;
  }

  lemma AnswerStaysShut(c: Config, s: State, id: nat)
    requires Doomed(c, s) && BucketSane(c, s) && Enabled(s, CacheAnswer(id))
    ensures StaysShut(c, s, Apply(c, s, CacheAnswer(id)), id)
  {
    hide GateAndJoin, CanGetToken, TTL.Lookup;
    var key := s.flight.reqs[id].key;
    var (cache, hit) := TTL.Lookup(s.cache, key, s.now);
    var t := s.(cache := cache, log := s.log + [TTL.Ask(key, s.now)]);
    forall i | At(t.flight, i)
      ensures !Hopeful(c, t, i)
    {
      SameHope(c, s, t, i);
    }
    GateStaysShut(c, t, id);
  }

  lemma SameHope(c: Config, s: State, t: State, id: nat)
    requires s.flight == t.flight && s.bucket == t.bucket && s.now == t.now && At(s.flight, id)
    ensures Hopeful(c, s, id) == Hopeful(c, t, id)
  {
    hide TB.Refilled;
  }

  lemma TryStaysShut(c: Config, s: State, id: nat)
    requires Doomed(c, s) && BucketSane(c, s) && c.rate >= 0.0 && Enabled(s, TryBucket(id))
    ensures StaysShut(c, s, Apply(c, s, TryBucket(id)), id)
  {
    hide Apply, TB.Acquire, TB.Refilled, Leave;
    TryIs(c, s, id);
    var t, pc := Apply(c, s, TryBucket(id)), s.flight.pcs[id];
    assert !Hopeful(c, s, id);
    LeaveIs(s.flight, id, Done(None));
    TB.LevelAfterTry(s.bucket, s.now);
    if c.rate == 0.0 && s.bucket.tokens < 1.0 {
      NoTokenStays(c, s);
    }
    if s.now < pc.deadline && s.flight.reqs[id].hasExecutor && c.maxConcurrent > 0 {
      var next := Refused(pc, s.now);
      assert BucketStep(s, t) by {
        TryIs(c, s, id);
      }
      if CanGetToken(t, next) {
        ChanceShrinks(c, s, t, next);
        TB.LevelGrows(s.bucket, s.now, next.ready);
        ChanceWas(s.bucket, s.now, next.ready, pc.deadline);
      }
    }
  }

  lemma NoTokenStays(c: Config, s: State)
    requires BucketSane(c, s) && c.rate == 0.0 && s.bucket.tokens < 1.0
    ensures TB.Acquire(s.bucket, s.now).0.tokens < 1.0
  {
    hide TB.Accrued;
    TB.LevelStays(s.bucket, s.now, s.bucket.last);
    TB.AccruedAdds(s.bucket.last, s.bucket.last, s.bucket.last, c.rate);
  }

  lemma LeaveIs(f: Flight, id: nat, pc: Pc)
    requires At(f, id)
    ensures At(Leave(f, id, pc), id) && Leave(f, id, pc).pcs == f.pcs[id := pc] && Leave(f, id, pc).reqs == f.reqs
  {
  }

  lemma OtherStaysShut(c: Config, s: State, a: Action)
    requires Doomed(c, s) && Enabled(s, a) && !Environment(a) && !a.Begin? && !a.CacheAnswer? && !a.TryBucket?
    requires s.free <= c.maxConcurrent
    ensures StaysShut(c, s, Apply(c, s, a), a.id)
  {
    hide GateAndJoin, Leave, CB.Gate, CB.RecordError, TTL.Put, TTL.Invalidated, TB.Acquire, CanGetToken;
    assert !Hopeful(c, s, a.id);
    LeaveIs(s.flight, a.id, Done(None));
  }

  lemma OwnStepStaysShut(c: Config, s: State, a: Action)
    requires Doomed(c, s) && BucketSane(c, s) && c.rate >= 0.0 && Enabled(s, a) && !Environment(a)
    requires s.free <= c.maxConcurrent
    ensures StaysShut(c, s, Apply(c, s, a), a.id)
  {
    hide *;
    match a {
      case Begin(id) => BeginStaysShut(c, s, id);
      case CacheAnswer(id) => AnswerStaysShut(c, s, id);
      case TryBucket(id) => TryStaysShut(c, s, id);
      case _ => OtherStaysShut(c, s, a);
    }
  }

  lemma EnvironmentStaysDoomed(c: Config, s: State, a: Action)
    requires Doomed(c, s) && BucketSane(c, s) && c.rate >= 0.0 && Enabled(s, a) && Environment(a) && !a.ForceOpen?
    ensures Doomed(c, Apply(c, s, a)) && Apply(c, s, a).produced == s.produced
  {
    hide CanGetToken, BucketSane, TTL.Invalidated, TB.Acquire;
    var t := Apply(c, s, a);
    assert BucketStep(s, t);
    forall id | At(t.flight, id)
      ensures !Hopeful(c, t, id)
    {
      if !(a.Call? && a.id == id) {
        OthersStayHopeless(c, s, t, id);
      }
    }
  }

  lemma StepStaysDoomed(c: Config, s: State, a: Action)
    requires Doomed(c, s) && BucketSane(c, s) && c.rate >= 0.0 && Enabled(s, a) && !a.ForceOpen?
    requires s.free <= c.maxConcurrent
    ensures Doomed(c, Apply(c, s, a)) && Apply(c, s, a).produced == s.produced
  {
    hide Apply, Enabled, CanGetToken, BucketSane, BucketStep, CacheStep, Sourced, StoresSourced, PcSourced,
      RetriesBounded, RetriesInRange, Progress, Hopeful;
    if Environment(a) {
      EnvironmentStaysDoomed(c, s, a);
    } else {
      var t := Apply(c, s, a);
      ActionMovesOne(c, s, a);
      OwnStepStaysShut(c, s, a);
      forall id | At(t.flight, id)
        ensures !Hopeful(c, t, id)
      {
        if id != a.id {
          OthersStayHopeless(c, s, t, id);
        }
      }
    }
  }

  predicate NeverForced(acts: seq<Action>) {
    forall i :: 0 <= i < |acts| ==> !acts[i].ForceOpen?
  }

  // Once doomed, no executor returns a value and the breaker stays open, however long one
  // waits and whoever asks, until it is forced open anew.
  lemma {:induction false} DoomedForGood(c: Config, s: State, acts: seq<Action>)
    requires Inv(c, s) && c.rate >= 0.0 && Doomed(c, s) && RunFrom(c, s, acts).Some? && NeverForced(acts)
    ensures var t := RunFrom(c, s, acts).value;
      Inv(c, t) && Doomed(c, t) && t.produced == s.produced
  {
    hide Inv, Doomed, Apply, Enabled;
    if acts != [] {
      var front, a := acts[..|acts| - 1], acts[|acts| - 1];
      DoomedForGood(c, s, front);
      var t := RunFrom(c, s, front).value;
      InvHasSaneBucket(c, t);
      EveryoneIsPlaced(c, t);
      StepStaysDoomed(c, t, a);
      StepKeepsInv(c, t, a);
    }
  }

  // --- Not doomed ------------------------------------------------------------------------

  // A run from s that closes the breaker.
  ghost predicate Closes(c: Config, s: State, acts: seq<Action>) {
    NeverForced(acts) && Seamless(c, s, acts) && RunFrom(c, s, acts).Some? && !RunFrom(c, s, acts).value.breaker.open
  }

  // Whoever is inside the executor may return.
  lemma ReturnCloses(c: Config, s0: State, acts: seq<Action>, s: State, id: nat) returns (acts': seq<Action>)
    requires Leads(c, s0, acts, s) && NeverForced(acts) && At(s.flight, id) && s.flight.pcs[id].Executing?
    requires Follows(acts, s, Finish(id, Returned(None)))
    ensures Closes(c, s0, acts')
  {
    var t: State;
    acts', t := Take(c, s0, acts, s, Finish(id, Returned(None)));
  }

  lemma HolderCloses(c: Config, s0: State, acts: seq<Action>, s: State, id: nat) returns (acts': seq<Action>)
    requires Leads(c, s0, acts, s) && NeverForced(acts) && Settled(acts, s)
    requires At(s.flight, id) && Holding(s.flight.pcs[id])
    ensures Closes(c, s0, acts')
  {
    hide Apply, Enabled, Leads, Closes, GoesOn;
    if s.flight.pcs[id].Executing? {
      acts' := ReturnCloses(c, s0, acts, s, id);
    } else {
      var dt := Later(s.now, s.flight.pcs[id].wake);
      var acts1, s1 := TakeTime(c, s0, acts, s, dt);
      TakeRetry(c, s1, id);
      var acts2, s2 := Take(c, s0, acts1, s1, Retry(id));
      NotGoingOn(s2, Retry(id));
      acts' := ReturnCloses(c, s0, acts2, s2, id);
    }
  }

  // Only a request on its way to the executor goes on after one of its own actions.
  lemma NotGoingOn(s: State, a: Action)
    requires !Environment(a) ==>
      At(s.flight, a.id)
      && (s.flight.pcs[a.id].Executing? || s.flight.pcs[a.id].Done? || s.flight.pcs[a.id].Sleeping?
          || s.flight.pcs[a.id].Waiting?)
    ensures !GoesOn(a, s)
  {
  }

  lemma TakeTime(c: Config, s0: State, acts: seq<Action>, s: State, dt: real) returns (acts': seq<Action>, s': State)
    requires Leads(c, s0, acts, s) && NeverForced(acts) && Settled(acts, s) && dt >= 0.0
    ensures Leads(c, s0, acts', s') && NeverForced(acts') && Settled(acts', s') && s' == s.(now := s.now + dt)
  {
    TakeTick(c, s, dt);
    hide Apply, Enabled, Leads;
    acts', s' := Take(c, s0, acts, s, Tick(dt));
  }

  // A leader with an executor at the semaphore gets in, or somebody is inside.
  lemma AtSemaphoreCloses(c: Config, s0: State, acts: seq<Action>, s: State, id: nat) returns (acts': seq<Action>)
    requires Leads(c, s0, acts, s) && NeverForced(acts) && c.maxConcurrent > 0 && Counted(c, s)
    requires At(s.flight, id) && s.flight.pcs[id].AtSemaphore? && s.flight.reqs[id].hasExecutor
    requires Settled(acts, s) || (s.free > 0 && acts[|acts| - 1] == TryBucket(id))
    requires forall i :: i in s.flight.pcs ==> At(s.flight, i)
    ensures Closes(c, s0, acts')
  {
    hide Apply, Enabled, Leads, Closes, GoesOn;
    if s.free > 0 {
      TakeEnter(c, s, id);
      var acts1, s1 := Take(c, s0, acts, s, EnterSemaphore(id));
      NotGoingOn(s1, EnterSemaphore(id));
      acts' := ReturnCloses(c, s0, acts1, s1, id);
    } else {
      var h :| h in Holders(s.flight.pcs);
      acts' := HolderCloses(c, s0, acts, s, h);
    }
  }

  // A leader that gets a token goes on to the semaphore.
  lemma TokenCloses(c: Config, s0: State, acts: seq<Action>, s: State, id: nat) returns (acts': seq<Action>)
    requires Leads(c, s0, acts, s) && NeverForced(acts) && c.maxConcurrent > 0 && Counted(c, s)
    requires Settled(acts, s) || (acts[|acts| - 1] == Begin(id) && GoesOn(Begin(id), s))
    requires At(s.flight, id) && s.flight.pcs[id].AtBucket? && s.flight.reqs[id].hasExecutor
    requires s.flight.pcs[id].ready <= s.now < s.flight.pcs[id].deadline && TB.Refilled(s.bucket, s.now) >= 1.0
    requires forall i :: i in s.flight.pcs ==> At(s.flight, i)
    ensures Closes(c, s0, acts')
  {
    hide Apply, Enabled, Leads, Closes, TB.Acquire, TB.Refilled;
    TakeToken(c, s, id);
    var acts1, s1 := Take(c, s0, acts, s, TryBucket(id));
    SameHolders(c, s, s1, id);
    acts' := AtSemaphoreCloses(c, s0, acts1, s1, id);
  }

  lemma SameHolders(c: Config, s: State, t: State, id: nat)
    requires Counted(c, s) && At(s.flight, id) && At(t.flight, id) && t.free == s.free
    requires t.flight.pcs == s.flight.pcs[id := t.flight.pcs[id]]
    requires !Holding(s.flight.pcs[id]) && !Holding(t.flight.pcs[id])
    ensures Counted(c, t)
  {
    CountFollows(c, s, t, id);
  }

  // A hopeful request can bring the success.
  lemma HopefulCloses(c: Config, s: State, id: nat) returns (acts: seq<Action>)
    requires Inv(c, s) && c.rate >= 0.0 && At(s.flight, id) && Hopeful(c, s, id)
    ensures Closes(c, s, acts)
  {
    LeadsNowhere(c, s);
    EveryoneIsPlaced(c, s);
    hide Inv, Apply, Enabled, Leads, Closes, GoesOn, CanGetToken, SingleFlight.Valid, Counted;
    if Holding(s.flight.pcs[id]) {
      acts := HolderCloses(c, s, [], s, id);
    } else if s.flight.pcs[id].AtSemaphore? {
      acts := AtSemaphoreCloses(c, s, [], s, id);
    } else {
      acts := AtBucketCloses(c, s, id);
    }
  }

  lemma AtBucketCloses(c: Config, s: State, id: nat) returns (acts: seq<Action>)
    requires Inv(c, s) && c.maxConcurrent > 0 && c.rate >= 0.0 && At(s.flight, id)
    requires s.flight.pcs[id].AtBucket? && s.flight.reqs[id].hasExecutor && CanGetToken(s, s.flight.pcs[id])
    ensures Closes(c, s, acts)
  {
    InvHasSaneBucket(c, s);
    LeadsNowhere(c, s);
    EveryoneIsPlaced(c, s);
    var t := WhenToTry(c, s, s.flight.pcs[id]);
    hide *;
    var acts1, s1 := TakeTime(c, s, [], s, t - s.now);
    TimeKeepsCount(c, s, s1);
    acts := TokenCloses(c, s, acts1, s1, id);
  }

  lemma TimeKeepsCount(c: Config, s: State, t: State)
    requires Counted(c, s) && t.flight == s.flight && t.free == s.free
    ensures Counted(c, t)
  {
  }

  lemma WhenToTry(c: Config, s: State, pc: Pc) returns (t: real)
    requires BucketSane(c, s) && c.rate >= 0.0 && pc.AtBucket? && CanGetToken(s, pc)
    ensures s.now <= t && pc.ready <= t < pc.deadline && TB.Refilled(s.bucket, t) >= 1.0
  {
    hide TB.Refilled;
    t := if pc.ready <= s.now then s.now else pc.ready;
    if TB.Refilled(s.bucket, t) < 1.0 {
      t := TB.TimeOfToken(s.bucket, t, pc.deadline);
    }
  }

  lemma EveryoneIsPlaced(c: Config, s: State)
    requires Inv(c, s)
    ensures Counted(c, s) && s.free <= c.maxConcurrent
    ensures SingleFlight.Valid(s.flight) && forall i :: i in s.flight.pcs ==> At(s.flight, i)
  {
  }

  // When the gate will open for a new request.
  lemma GateOpens(c: Config, s: State) returns (dt: real)
    requires c.rate >= 0.0 && BucketSane(c, s) && !NoNewProbe(c, s)
    ensures dt >= 0.0 && TB.Refilled(s.bucket, s.now + dt) >= 1.0
    ensures c.breakerEnabled ==> CB.Gate(c.breaker, s.breaker, s.now + dt).1
  {
    hide TB.Refilled;
    var token := TB.TokenComes(s.bucket, s.now);
    var wait := s.breaker.openedAt + c.breaker.recovery - s.now;
    dt := if wait <= token then token else wait;
    assert s.now + dt >= s.now + token;
  }

  // A request for a key nobody asks for is the probe.
  lemma NewProbeCloses(c: Config, s: State) returns (acts: seq<Action>)
    requires Inv(c, s) && c.maxConcurrent > 0 && c.rate >= 0.0 && s.free > 0 && !NoNewProbe(c, s)
    ensures Closes(c, s, acts)
  {
    hide *;
    InvHasSaneBucket(c, s);
    EveryoneIsPlaced(c, s);
    var dt := GateOpens(c, s);
    var id := FreshId(s.flight.pcs.Keys);
    var key := FreshKey(s.flight.inflight.Keys);
    assert id !in s.flight.pcs && key !in s.flight.inflight;
    var acts1, s1 := ProbeLeads(c, s, dt, id, key);
    acts := TokenCloses(c, s, acts1, s1, id);
  }

  lemma ProbeLeads(c: Config, s: State, dt: real, id: nat, key: string) returns (acts: seq<Action>, t: State)
    requires dt >= 0.0 && id !in s.flight.pcs && key !in s.flight.inflight && Counted(c, s)
    requires c.breakerEnabled ==> CB.Gate(c.breaker, s.breaker, s.now + dt).1
    requires forall i :: i in s.flight.pcs ==> At(s.flight, i)
    ensures Leads(c, s, acts, t) && NeverForced(acts) && acts != [] && acts[|acts| - 1] == Begin(id)
    ensures GoesOn(Begin(id), t) && At(t.flight, id) && t.flight.pcs[id].AtBucket? && t.flight.reqs[id].hasExecutor
    ensures t.flight.pcs[id].ready <= t.now < t.flight.pcs[id].deadline
    ensures t.bucket == s.bucket && t.now == s.now + dt && Counted(c, t)
    ensures forall i :: i in t.flight.pcs ==> At(t.flight, i)
  {
    LeadsNowhere(c, s);
    hide Apply, Enabled, Leads, CB.Gate, GoesOn, Counted, Settled;
    var acts1, s1 := TakeTime(c, s, [], s, dt);
    var r := Request(Execution, key, 0.0, true);
    acts, t := Arrives(c, s, acts1, s1, id, r);
    NewHolders(c, s, t, id);
    ArrivalIsNoForce(acts1, acts, id, r);
  }

  lemma ArrivalIsNoForce(acts: seq<Action>, acts': seq<Action>, id: nat, r: Request)
    requires NeverForced(acts) && acts' == acts + [Call(id, r), Begin(id)]
    ensures NeverForced(acts') && acts' != [] && acts'[|acts'| - 1] == Begin(id)
  {
  }

  lemma NewHolders(c: Config, s: State, t: State, id: nat)
    requires Counted(c, s) && id !in s.flight.pcs && id in t.flight.pcs && t.free == s.free
    requires t.flight.pcs == s.flight.pcs[id := t.flight.pcs[id]] && t.flight.pcs[id].AtBucket?
    ensures Counted(c, t)
  {
    HoldersAfter(s.flight.pcs, id, t.flight.pcs[id]);
    assert id !in Holders(s.flight.pcs);
  }

  // Whatever is not doomed can close, and by a seamless run.
  lemma OthersCanClose(c: Config, s: State) returns (acts: seq<Action>)
    requires Inv(c, s) && c.rate >= 0.0 && !Doomed(c, s)
    ensures Closes(c, s, acts)
  {
    EveryoneIsPlaced(c, s);
    hide Inv, Leads, CanGetToken, SingleFlight.Valid;
    if h :| At(s.flight, h) && Hopeful(c, s, h) {
      acts := HopefulCloses(c, s, h);
    } else if !s.breaker.open {
      LeadsNowhere(c, s);
      acts := [];
    } else {
      assert Holders(s.flight.pcs) == {};
      acts := NewProbeCloses(c, s);
    }
  }

  // The exact condition: in every reachable state, the breaker is open for good, unless
  // it is forced open anew, if and only if the state is doomed.
  lemma OpenForGoodIffDoomed(c: Config, s: State)
    requires Inv(c, s) && c.rate >= 0.0
    ensures Doomed(c, s) <==>
      forall acts :: NeverForced(acts) && RunFrom(c, s, acts).Some? ==> RunFrom(c, s, acts).value.breaker.open
  {
    if Doomed(c, s) {
      forall acts | NeverForced(acts) && RunFrom(c, s, acts).Some?
        ensures RunFrom(c, s, acts).value.breaker.open
      {
        DoomedForGood(c, s, acts);
      }
    } else {
      var acts := OthersCanClose(c, s);
      assert NeverForced(acts) && RunFrom(c, s, acts).Some? && !RunFrom(c, s, acts).value.breaker.open;
    }
  }

  // --- How a probe is lost ----------------------------------------------------------------

  // A probe whose executor raises for the last time dooms the breaker, unless somebody
  // else is still hopeful.
  lemma FailedProbeIsLost(c: Config, s: State, id: nat, status: int, jitter: real)
    requires c.breakerEnabled && s.breaker.open && s.breaker.halfOpen && Enabled(s, Finish(id, Raised(status, jitter)))
    requires s.flight.pcs[id].attempt >= MaxRetries(s.flight.reqs[id].group)
    ensures Doomed(c, Apply(c, s, Finish(id, Raised(status, jitter))))
       <==> forall other :: At(s.flight, other) && other != id ==> !Hopeful(c, s, other)
  {
    hide CB.Recent, TB.Refilled;
    var t := Apply(c, s, Finish(id, Raised(status, jitter)));
    LeaveIs(s.flight, id, Done(None));
    assert t.flight.pcs == s.flight.pcs[id := Done(None)] && t.flight.reqs == s.flight.reqs;
    assert t.breaker.open && t.breaker.halfOpen && t.bucket == s.bucket && t.now == s.now;
    forall other | other != id
      ensures At(s.flight, other) <==> At(t.flight, other)
      ensures At(s.flight, other) ==> Hopeful(c, s, other) == Hopeful(c, t, other)
    {
    }
  }

  // It can happen under every such configuration: the probe's executor raises on its
  // first attempt and on its retry.
  lemma ProbeCanBeLost(c: Config, key: string, status: int) returns (acts: seq<Action>)
    requires c.breakerEnabled && c.rate >= 0.0 && c.maxConcurrent > 0
    ensures Seamless(c, Init(c), acts) && Run(c, acts).Some? && Doomed(c, Run(c, acts).value)
  {
    hide Apply, Enabled, Leads, CB.Gate, TB.Refilled, TB.Acquire, Init, GoesOn, Doomed, Run, Seamless, MaxRetries;
    var r := Request(Execution, key, 0.0, true);
    var acts1, s1 := OpenAndDue(c);
    ProbePasses(c, s1.breaker, s1.now);
    var acts2, s2 := Arrives(c, Init(c), acts1, s1, 1, r);
    var acts3, s3 := GetsIn(c, Init(c), acts2, s2, 1);
    acts := RaisesTwice(c, acts3, s3, r, status);
  }

  // A breaker that was forced open and whose recovery time is over.
  lemma OpenAndDue(c: Config) returns (acts: seq<Action>, s: State)
    requires c.breakerEnabled && c.rate >= 0.0
    ensures Leads(c, Init(c), acts, s) && Settled(acts, s) && s.flight == NOBODY && s.free == c.maxConcurrent
    ensures s.breaker.open && !s.breaker.halfOpen && s.now - s.breaker.openedAt >= c.breaker.recovery
    ensures TB.Refilled(s.bucket, s.now) >= 1.0
  {
    assert CB.CLOSED.openedAt == 0.0;
    var wait := if c.breaker.recovery >= 0.0 then c.breaker.recovery else 0.0;
    LeadsNowhere(c, Init(c));
    FullBucket(c, wait);
    hide Apply, Enabled, Leads, TB.Refilled;
    TakeForceOpen(c, Init(c));
    var acts1, s1 := Take(c, Init(c), [], Init(c), ForceOpen);
    acts, s := TakeTimeAfter(c, acts1, s1, wait);
  }

  lemma TakeTimeAfter(c: Config, acts: seq<Action>, s: State, dt: real) returns (acts': seq<Action>, s': State)
    requires Leads(c, Init(c), acts, s) && Settled(acts, s) && dt >= 0.0
    ensures Leads(c, Init(c), acts', s') && Settled(acts', s') && s' == s.(now := s.now + dt)
  {
    TakeTick(c, s, dt);
    hide Apply, Enabled, Leads;
    acts', s' := Take(c, Init(c), acts, s, Tick(dt));
  }

  lemma RaisesTwice(c: Config, before: seq<Action>, s: State, r: Request, status: int) returns (acts: seq<Action>)
    requires Leads(c, Init(c), before, s) && Settled(before, s) && c.breakerEnabled && r.group.Execution?
    requires s.flight == Flight(map[r.key := 1], {}, map[1 := r], map[1 := Executing(0)])
    requires s.breaker.open && s.breaker.halfOpen
    ensures Seamless(c, Init(c), acts) && Run(c, acts).Some? && Doomed(c, Run(c, acts).value)
  {
    assert MaxRetries(r.group) == 1 && Backoff(0) == 1.0;
    hide Apply, Enabled, Leads, Backoff, MaxRetries;
    TakeRaise(c, s, 1, status);
    var acts1, s1 := Take(c, Init(c), before, s, Finish(1, Raised(status, 0.0)));
    TakeTick(c, s1, 1.0);
    var acts2, s2 := Take(c, Init(c), acts1, s1, Tick(1.0));
    TakeRetry(c, s2, 1);
    var acts3, s3 := Take(c, Init(c), acts2, s2, Retry(1));
    TakeRaise(c, s3, 1, status);
    var acts4, s4 := Take(c, Init(c), acts3, s3, Finish(1, Raised(status, 0.0)));
    acts := acts4;
    assert s4.flight.pcs[1].Done? && forall id :: At(s4.flight, id) ==> id == 1;
    LeadsIsRun(c, acts4, s4);
  }

  lemma FullBucket(c: Config, wait: real)
    requires c.rate >= 0.0 && wait >= 0.0
    ensures TB.Refilled(Init(c).bucket, 0.0 + wait) >= 1.0
  {
    TB.AccruedAdds(0.0, wait, wait, c.rate);
  }

  lemma ProbePasses(c: Config, b: CB.Breaker, now: real)
    requires b.open && !b.halfOpen && now - b.openedAt >= c.breaker.recovery
    ensures CB.Gate(c.breaker, b, now) == (b.(halfOpen := true), true)
  {
  }
}

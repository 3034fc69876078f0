// What the traffic controller guarantees in every interleaving of requests, and one
// thing it does not.
module TrafficProperties {
  import opened Wrappers
  import opened SingleFlight
  import opened TrafficController
  import CB = CircuitBreakers
  import TB = TokenBuckets
  import TTL = TTLCaches

  // --- Single flight and the semaphore ----------------------------------------

  // At most one uncleaned leader per key; _inflight holds exactly their keys, each
  // under its own name; at most max_concurrent requests are inside the semaphore.
  lemma OneLeaderPerKey(c: Config, acts: seq<Action>, a: nat, b: nat)
    requires Run(c, acts).Some?
    ensures var f := Run(c, acts).value.flight;
      && (At(f, a) && Uncleaned(f.pcs[a]) && At(f, b) && Uncleaned(f.pcs[b]) ==>
          f.reqs[a].key == f.reqs[b].key ==> a == b)
      && (At(f, a) && Uncleaned(f.pcs[a]) <==>
          a in f.inflight.Values && At(f, a) && f.reqs[a].key in f.inflight && f.inflight[f.reqs[a].key] == a)
      && |Holders(f.pcs)| <= c.maxConcurrent
  {
    EveryRunKeepsInv(c, acts);
  }

  // Every waiter will wake: the event it holds has fired, or the request it waits
  // for still leads and will fire it on whichever path it leaves.
  lemma NoLostWakeup(c: Config, acts: seq<Action>, id: nat)
    requires Run(c, acts).Some?
    requires At(Run(c, acts).value.flight, id) && Run(c, acts).value.flight.pcs[id].Waiting?
    ensures var f := Run(c, acts).value.flight;
      var l := f.pcs[id].leader;
      At(f, l) && f.reqs[l].key == f.reqs[id].key && (l in f.fired <==> !Uncleaned(f.pcs[l]))
  {
    EveryRunKeepsInv(c, acts);
  }

  lemma LeavingFiresTheEvent(c: Config, s: State, a: Action)
    requires Inv(c, s) && Enabled(s, a) && !Environment(a)
    ensures var t := Apply(c, s, a);
      At(s.flight, a.id) && At(t.flight, a.id) &&
      (Uncleaned(s.flight.pcs[a.id]) && !Uncleaned(t.flight.pcs[a.id]) ==>
        a.id in t.flight.fired && s.flight.reqs[a.id].key !in t.flight.inflight)
  {
    hide Apply, Enabled;
    ActionMovesOne(c, s, a);
    if Uncleaned(s.flight.pcs[a.id]) {
      LeaveIsCleanup(s.flight, a.id, Done(None));
    }
  }

  // --- Progress ----------------------------------------------------------------

  // No request is ever stuck: it, the leader it waits for, or some request inside
  // the semaphore can come closer to its end, now or after some time has passed.
  lemma NoRequestIsStuck(c: Config, s: State, id: nat) returns (dt: real, a: Action)
    requires Inv(c, s) && c.maxConcurrent > 0 && At(s.flight, id) && !s.flight.pcs[id].Done?
    ensures dt >= 0.0 && Enabled(Apply(c, s, Tick(dt)), a) && !Environment(a)
    ensures a.id == id || a.id in Holders(s.flight.pcs)
      || (s.flight.pcs[id].Waiting? && a.id == s.flight.pcs[id].leader)
    ensures ComesCloser(s, Apply(c, Apply(c, s, Tick(dt)), a), a.id)
    decreases if s.flight.pcs[id].Waiting? then 1 else 0
  {
    if s.flight.pcs[id].Waiting? && s.flight.pcs[id].leader !in s.flight.fired {
      dt, a := NoRequestIsStuck(c, s, s.flight.pcs[id].leader);
    } else {
      dt, a := NextStep(c, s, id);
      ActsCloser(c, s, dt, a);
    }
  }

  // The request of an action has fewer steps left.
  ghost predicate ComesCloser(s: State, t: State, id: nat) {
    At(s.flight, id) && At(t.flight, id)
    && 0 <= Rank(s.flight.reqs[id], t.flight.pcs[id]) < Rank(s.flight.reqs[id], s.flight.pcs[id])
  }

  lemma NextStep(c: Config, s: State, id: nat) returns (dt: real, a: Action)
    requires Inv(c, s) && c.maxConcurrent > 0 && At(s.flight, id) && !s.flight.pcs[id].Done?
    requires s.flight.pcs[id].Waiting? ==> s.flight.pcs[id].leader in s.flight.fired
    ensures dt >= 0.0 && Enabled(s.(now := s.now + dt), a) && !Environment(a)
    ensures a.id == id || a.id in Holders(s.flight.pcs)
    ensures s.flight.pcs[a.id].AtBucket? ==> s.flight.pcs[a.id].deadline <= s.now + dt
  {
    var pc := s.flight.pcs[id];
    dt := 0.0;
    match pc {
      case Start => a := Begin(id);
      case AtCache => a := CacheAnswer(id);
      case Waiting(_) => a := EventFired(id);
      case AtBucket(deadline, ready) =>
        dt, a := Later(s.now, if ready < deadline then deadline else ready), TryBucket(id);
      case AtSemaphore =>
        if s.free > 0 {
          a := EnterSemaphore(id);
        } else {
          var h :| h in Holders(s.flight.pcs);
          if s.flight.pcs[h].Executing? {
            a := Finish(h, Returned(None));
          } else {
            dt, a := Later(s.now, s.flight.pcs[h].wake), Retry(h);
          }
        }
      case Executing(_) => a := Finish(id, Returned(None));
      case Sleeping(_, wake) => dt, a := Later(s.now, wake), Retry(id);
      case Storing(_) => a := StoreDone(id);
    }
  }

  lemma ActsCloser(c: Config, s: State, dt: real, a: Action)
    requires Inv(c, s) && dt >= 0.0 && Enabled(s.(now := s.now + dt), a) && !Environment(a)
    requires At(s.flight, a.id) && s.flight.pcs[a.id].AtBucket? ==> s.flight.pcs[a.id].deadline <= s.now + dt
    ensures Apply(c, s, Tick(dt)) == s.(now := s.now + dt)
    ensures ComesCloser(s, Apply(c, Apply(c, s, Tick(dt)), a), a.id)
  {
    var t := s.(now := s.now + dt);
    assert Apply(c, s, Tick(dt)) == t;
    StepKeepsInv(c, s, Tick(dt));
    hide Inv, Apply, Enabled, Rank, Environment;
    EveryStepIsProgress(c, t, a);
  }

  function Later(now: real, wake: real): (dt: real)
    ensures dt >= 0.0 && now + dt >= wake
  {
    if now < wake then wake - now else 0.0
  }

  // Every step of a request brings it closer to its end, except a refused try at
  // the bucket before the deadline.
  lemma EveryStepIsProgress(c: Config, s: State, a: Action)
    requires Inv(c, s) && Enabled(s, a) && !Environment(a)
    ensures At(s.flight, a.id) && At(Apply(c, s, a).flight, a.id) && Progress(s, Apply(c, s, a), a.id)
  {
    hide Apply, Enabled, Progress;
    ActionMovesOne(c, s, a);
  }

  predicate RefusedTry(s: State, a: Action)
    requires Enabled(s, a)
  {
    a.TryBucket? && s.now < s.flight.pcs[a.id].deadline && !TB.Acquire(s.bucket, s.now).1
  }

  // The steps of one request during a run, other than refused tries.
  function StepsOf(c: Config, acts: seq<Action>, id: nat): nat
    requires Run(c, acts).Some?
  {
    if acts == [] then 0
    else
      var s, a := Run(c, acts[..|acts| - 1]).value, acts[|acts| - 1];
      StepsOf(c, acts[..|acts| - 1], id) + if !Environment(a) && a.id == id && !RefusedTry(s, a) then 1 else 0
  }

  // In any run a request takes at most twelve of them.
  lemma {:induction false} AtMostTwelveSteps(c: Config, acts: seq<Action>, id: nat)
    requires Run(c, acts).Some?
    ensures StepsOf(c, acts, id) <= 12
    ensures var f := Run(c, acts).value.flight;
      if At(f, id) then 0 <= Rank(f.reqs[id], f.pcs[id]) <= 12 - StepsOf(c, acts, id) else StepsOf(c, acts, id) == 0
  {
    if acts != [] {
      var front, a := acts[..|acts| - 1], acts[|acts| - 1];
      var s := Run(c, front).value;
      AtMostTwelveSteps(c, front, id);
      EveryRunKeepsInv(c, front);
      StepCounts(c, s, a, id);
    }
  }

  lemma StepCounts(c: Config, s: State, a: Action, id: nat)
    requires Inv(c, s) && Enabled(s, a)
    requires At(s.flight, id) ==> 0 <= Rank(s.flight.reqs[id], s.flight.pcs[id]) <= 12
    ensures var t := Apply(c, s, a);
      if !At(s.flight, id) then (!Environment(a) ==> a.id != id)
        && (At(t.flight, id) ==> Rank(t.flight.reqs[id], t.flight.pcs[id]) == 12)
      else
        At(t.flight, id) && 0 <= Rank(t.flight.reqs[id], t.flight.pcs[id])
        && Rank(t.flight.reqs[id], t.flight.pcs[id])
           <= Rank(s.flight.reqs[id], s.flight.pcs[id])
              - (if !Environment(a) && a.id == id && !RefusedTry(s, a) then 1 else 0)
  {
    if Environment(a) {
      hide Inv, TTL.Invalidated;
    } else {
      EveryStepIsProgress(c, s, a);
      ActionMovesOne(c, s, a);
      OwnPlace(c, s, a);
      hide Inv, Apply, Enabled, Environment, TB.Acquire, CacheStep, BucketStep, Sourced, StoresSourced, PcSourced,
        RetriesBounded, RetriesInRange, Uncleaned, Holding;
    }
  }

  // Only a try at the bucket leaves a request waiting there.
  lemma OwnPlace(c: Config, s: State, a: Action)
    requires Enabled(s, a) && !Environment(a)
    ensures At(s.flight, a.id) && (s.flight.pcs[a.id].AtBucket? ==> a.TryBucket?)
  {
  }

  // The first try at or behind the deadline is the last one.
  lemma LateTryEnds(c: Config, s: State, id: nat)
    requires Enabled(s, TryBucket(id)) && s.flight.pcs[id].deadline <= s.now
    ensures At(Apply(c, s, TryBucket(id)).flight, id) && Apply(c, s, TryBucket(id)).flight.pcs[id] == Done(None)
  {
  }

  // --- Where answers come from --------------------------------------------------

  // Run prefixes of a run are runs.
  lemma Prefix(c: Config, acts: seq<Action>)
    requires Run(c, acts).Some? && acts != []
    ensures Run(c, acts[..|acts| - 1]).Some?
    ensures Enabled(Run(c, acts[..|acts| - 1]).value, acts[|acts| - 1])
    ensures Run(c, acts).value == Apply(c, Run(c, acts[..|acts| - 1]).value, acts[|acts| - 1])
  {
  }

  // What a request asked for is what its call said.
  lemma {:induction false} RequestWasCalled(c: Config, acts: seq<Action>, id: nat) returns (i: nat)
    requires Run(c, acts).Some? && At(Run(c, acts).value.flight, id)
    ensures i < |acts| && acts[i] == Call(id, Run(c, acts).value.flight.reqs[id])
  {
    if acts != [] {
      Prefix(c, acts);
      var s, a := Run(c, acts[..|acts| - 1]).value, acts[|acts| - 1];
      if a.Call? && a.id == id {
        i := |acts| - 1;
      } else {
        if !Environment(a) {
          ActionMovesOne(c, s, a);
        }
        hide CB.Gate, CB.RecordError, TTL.Lookup, TB.Acquire, MovesOne, Join, Leave, GateAndJoin, Conclude;
        KeepsRequests(c, s, a, id);
        i := RequestWasCalled(c, acts[..|acts| - 1], id);
      }
    }
  }

  lemma KeepsRequests(c: Config, s: State, a: Action, id: nat)
    requires Enabled(s, a) && At(Apply(c, s, a).flight, id) && !(a.Call? && a.id == id)
    ensures At(s.flight, id) && s.flight.reqs[id] == Apply(c, s, a).flight.reqs[id]
  {
    if !Environment(a) {
      ActionMovesOne(c, s, a);
      hide Apply;
    }
  }

  // A recorded production is an executor that returned.
  lemma {:induction false} ProducedByExecutor(c: Config, acts: seq<Action>, key: string, v: Payload)
    returns (i: nat, j: nat, id: nat, req: Request)
    requires Run(c, acts).Some? && (key, v) in Run(c, acts).value.produced
    ensures i < j < |acts| && req.key == key
    ensures acts[i] == Call(id, req) && acts[j] == Finish(id, Returned(Some(v)))
  {
    if acts != [] {
      Prefix(c, acts);
      var s, a := Run(c, acts[..|acts| - 1]).value, acts[|acts| - 1];
      if (key, v) in s.produced {
        i, j, id, req := ProducedByExecutor(c, acts[..|acts| - 1], key, v);
      } else {
        ProductionStep(c, s, a, key, v);
        id, j := a.id, |acts| - 1;
        i := RequestWasCalled(c, acts[..|acts| - 1], id);
        req := s.flight.reqs[id];
      }
    }
  }

  lemma ProductionStep(c: Config, s: State, a: Action, key: string, v: Payload)
    requires Enabled(s, a) && (key, v) !in s.produced && (key, v) in Apply(c, s, a).produced
    ensures a.Finish? && a.outcome == Returned(Some(v)) && At(s.flight, a.id) && s.flight.reqs[a.id].key == key
  {
    hide CB.Gate, CB.RecordError, TTL.Lookup, TB.Acquire, Join, Leave;
  }

  // Whatever a request returns, from the cache, from the leader it waited for or
  // from its own executor, was returned earlier by an executor run for its key.
  lemma EveryAnswerWasProduced(c: Config, acts: seq<Action>, id: nat)
    returns (i: nat, j: nat, producer: nat, req: Request)
    requires Run(c, acts).Some?
    requires At(Run(c, acts).value.flight, id)
    requires Run(c, acts).value.flight.pcs[id].Done? && Run(c, acts).value.flight.pcs[id].result.Some?
    ensures i < j < |acts| && req.key == Run(c, acts).value.flight.reqs[id].key
    ensures acts[i] == Call(producer, req)
    ensures acts[j] == Finish(producer, Returned(Run(c, acts).value.flight.pcs[id].result))
  {
    EveryRunKeepsInv(c, acts);
    var s := Run(c, acts).value;
    assert PcSourced(s.produced, s.flight.reqs[id], s.flight.pcs[id]);
    i, j, producer, req := ProducedByExecutor(c, acts, s.flight.reqs[id].key, s.flight.pcs[id].result.value);
  }

  // The cache answers like an ideal timed map of the stores and invalidations made
  // so far, so a hit is never older than the ttl it was stored with.
  lemma CacheHitIsFresh(c: Config, acts: seq<Action>, id: nat) returns (i: nat)
    requires Run(c, acts).Some? && Enabled(Run(c, acts).value, CacheAnswer(id))
    ensures var s := Run(c, acts).value;
      var key := s.flight.reqs[id].key;
      var hit := TTL.Lookup(s.cache, key, s.now).1;
      && hit == TTL.Ideal(s.log, key, s.now)
      && (hit.Some? ==>
          && Apply(c, s, CacheAnswer(id)).flight.pcs[id] == Done(hit)
          && i < |s.log| && s.log[i].Store? && s.log[i].key == key && Some(s.log[i].value) == hit
          && s.log[i].at <= s.now <= s.log[i].at + s.log[i].ttl)
  {
    EveryRunKeepsInv(c, acts);
    var s := Run(c, acts).value;
    var key := s.flight.reqs[id].key;
    TTL.LazyIsIdeal(s.log, key, s.now);
    i := 0;
    if TTL.Ideal(s.log, key, s.now).Some? {
      i := TTL.HitIsFresh(s.log, key, s.now);
    }
  }

  // --- The breaker and the bucket inside the protocol ----------------------------

  predicate PassesGate(c: Config, s: State, a: Action) {
    && Enabled(s, a) && (a.Begin? || a.CacheAnswer?)
    && a.id in Apply(c, s, a).flight.pcs
    && (Apply(c, s, a).flight.pcs[a.id].AtBucket? || Apply(c, s, a).flight.pcs[a.id].Waiting?)
  }

  function GatePasses(c: Config, s: State, acts: seq<Action>): nat {
    if acts == [] then 0
    else
      var t := RunFrom(c, s, acts[..|acts| - 1]);
      GatePasses(c, s, acts[..|acts| - 1]) + if t.Some? && PassesGate(c, t.value, acts[|acts| - 1]) then 1 else 0
  }

  predicate Releases(a: Action) {
    a.ForceOpen? || (a.Finish? && a.outcome.Returned?)
  }

  // While the breaker is open, at most one request gets past it until an executor
  // succeeds or the breaker is forced open again, and none once a probe is out.
  lemma {:induction false} OpenBreakerAdmitsOneProbe(c: Config, s: State, acts: seq<Action>)
    requires c.breakerEnabled && s.breaker.open && RunFrom(c, s, acts).Some?
    requires forall i :: 0 <= i < |acts| ==> !Releases(acts[i])
    ensures var t := RunFrom(c, s, acts).value;
      && t.breaker.open
      && GatePasses(c, s, acts) <= (if s.breaker.halfOpen then 0 else 1)
      && (GatePasses(c, s, acts) == 1 || s.breaker.halfOpen ==> t.breaker.halfOpen)
  {
    if acts != [] {
      var front, a := acts[..|acts| - 1], acts[|acts| - 1];
      OpenBreakerAdmitsOneProbe(c, s, front);
      OpenBreakerStep(c, RunFrom(c, s, front).value, a);
    }
  }

  lemma OpenBreakerStep(c: Config, s: State, a: Action)
    requires c.breakerEnabled && s.breaker.open && Enabled(s, a) && !Releases(a)
    ensures Apply(c, s, a).breaker.open
    ensures s.breaker.halfOpen ==> Apply(c, s, a).breaker.halfOpen && !PassesGate(c, s, a)
    ensures PassesGate(c, s, a) ==> Apply(c, s, a).breaker.halfOpen
  {
    hide *;
    match a {
      case Begin(id) => OpenBreakerBegin(c, s, id);
      case CacheAnswer(id) => OpenBreakerAnswer(c, s, id);
      case _ => OpenBreakerOther(c, s, a);
    }
  }

  lemma OpenBreakerGate(c: Config, s: State, id: nat)
    requires c.breakerEnabled && s.breaker.open && At(s.flight, id)
    ensures var t := GateAndJoin(c, s, id);
      && t.breaker.open && (s.breaker.halfOpen ==> t.breaker.halfOpen && t.flight.pcs[id].Done?)
      && (!t.flight.pcs[id].Done? ==> t.breaker.halfOpen)
  {
  }

  lemma OpenBreakerBegin(c: Config, s: State, id: nat)
    requires c.breakerEnabled && s.breaker.open && Enabled(s, Begin(id))
    ensures Apply(c, s, Begin(id)).breaker.open
    ensures s.breaker.halfOpen ==> Apply(c, s, Begin(id)).breaker.halfOpen && !PassesGate(c, s, Begin(id))
    ensures PassesGate(c, s, Begin(id)) ==> Apply(c, s, Begin(id)).breaker.halfOpen
  {
    hide GateAndJoin;
    OpenBreakerGate(c, s, id);
  }

  lemma OpenBreakerAnswer(c: Config, s: State, id: nat)
    requires c.breakerEnabled && s.breaker.open && Enabled(s, CacheAnswer(id))
    ensures Apply(c, s, CacheAnswer(id)).breaker.open
    ensures s.breaker.halfOpen ==> Apply(c, s, CacheAnswer(id)).breaker.halfOpen && !PassesGate(c, s, CacheAnswer(id))
    ensures PassesGate(c, s, CacheAnswer(id)) ==> Apply(c, s, CacheAnswer(id)).breaker.halfOpen
  {
    hide GateAndJoin, TTL.Lookup;
    var key := s.flight.reqs[id].key;
    var (cache, hit) := TTL.Lookup(s.cache, key, s.now);
    OpenBreakerGate(c, s.(cache := cache, log := s.log + [TTL.Ask(key, s.now)]), id);
  }

  lemma OpenBreakerOther(c: Config, s: State, a: Action)
    requires s.breaker.open && Enabled(s, a) && !Releases(a) && !a.Begin? && !a.CacheAnswer?
    ensures Apply(c, s, a).breaker.open && !PassesGate(c, s, a)
    ensures s.breaker.halfOpen ==> Apply(c, s, a).breaker.halfOpen
  {
    hide CB.Recent, CB.Gate, TTL.Lookup, TTL.Put, TTL.Invalidated, TB.Acquire, GateAndJoin, Join, Leave, Goto,
      Arrive, Backoff;
  }

  // A try at the bucket before the deadline is granted if and only if it keeps every
  // window of tries so far within burst + rate * elapsed.
  lemma BucketAdmitsExactly(c: Config, acts: seq<Action>, id: nat)
    requires Run(c, acts).Some? && c.rate >= 0.0 && Enabled(Run(c, acts).value, TryBucket(id))
    requires Run(c, acts).value.now < Run(c, acts).value.flight.pcs[id].deadline
    ensures var s := Run(c, acts).value;
      var b0, times, n := TB.Fresh(c.rate, 10.0, 0.0), s.tries + [s.now], |s.tries|;
      Apply(c, s, TryBucket(id)).flight.pcs[id].AtSemaphore? <==>
        forall k :: 0 <= k <= n ==>
          TB.Grants(b0, times, k, n) as real + 1.0 <= 10.0 + TB.Accrued(times[n] - times[k], c.rate)
  {
    hide *;
    BurstIsTen();
    var s := Run(c, acts).value;
    EveryRunKeepsInv(c, acts);
    InvRecordsBucket(c, s);
    FreshIsFull(c);
    GrantedNow(c, s);
    GoesOnIffGranted(c, s, id);
    TB.GrantedIffEveryWindowHasRoom(TB.Fresh(c.rate, BURST, 0.0), s.tries + [s.now], |s.tries|);
  }

  lemma BurstIsTen()
    ensures BURST == 10.0
  {
  }

  lemma InvRecordsBucket(c: Config, s: State)
    requires Inv(c, s)
    ensures BucketRecorded(c, s)
  {
  }

  lemma GrantedNow(c: Config, s: State)
    requires BucketRecorded(c, s)
    ensures TB.Monotone(0.0, s.tries + [s.now])
    ensures TB.Granted(TB.Fresh(c.rate, BURST, 0.0), s.tries + [s.now], |s.tries|) == TB.Acquire(s.bucket, s.now).1
  {
    hide TB.Acquire;
    AfterPrefix(TB.Fresh(c.rate, BURST, 0.0), s.tries, s.now, |s.tries|);
  }

  lemma FreshIsFull(c: Config)
    requires c.rate >= 0.0
    ensures var b := TB.Fresh(c.rate, BURST, 0.0);
      TB.Valid(b) && b.tokens == b.burst == BURST && b.last == 0.0 && b.rate == c.rate
  {
  }

  lemma GoesOnIffGranted(c: Config, s: State, id: nat)
    requires Enabled(s, TryBucket(id)) && s.now < s.flight.pcs[id].deadline
    ensures At(Apply(c, s, TryBucket(id)).flight, id)
    ensures Apply(c, s, TryBucket(id)).flight.pcs[id].AtSemaphore? <==> TB.Acquire(s.bucket, s.now).1
  {
    hide TB.Acquire;
  }

  // In any stretch of time, at most burst + rate * span tries of a run succeed.
  lemma AdmissionsAreRateLimited(c: Config, acts: seq<Action>, i: nat, j: nat, span: real)
    requires Run(c, acts).Some? && c.rate >= 0.0
    requires i <= j < |Run(c, acts).value.tries|
    requires Run(c, acts).value.tries[j] - Run(c, acts).value.tries[i] <= span
    ensures TB.Grants(TB.Fresh(c.rate, 10.0, 0.0), Run(c, acts).value.tries, i, j + 1) as real
         <= 10.0 + TB.Accrued(span, c.rate)
  {
    EveryRunKeepsInv(c, acts);
    hide TB.Accrued, TB.Grants, Run;
    TB.RateIsBounded(TB.Fresh(c.rate, BURST, 0.0), Run(c, acts).value.tries, i, j, span);
  }
}

// What a single-flight waiter is handed, and when it is its own leader's result.
//
// request() sets the event before it publishes the result, publishes nothing when the
// token bucket times out, and never forgets a published result. So a waiter gets the
// result of whichever leader of its key published last, however long ago.
module TrafficStaleness {
  import opened Wrappers
  import opened SingleFlight
  import opened TrafficController
  import opened TrafficProperties
  import opened TrafficSchedule
  import CB = CircuitBreakers
  import TB = TokenBuckets
  import TTL = TTLCaches

  // The actions that write _inflight_results.
  predicate Publishes(s: State, a: Action, key: string)
    requires Enabled(s, a)
  {
    && (a.EnterSemaphore? || a.Finish? || a.StoreDone?)
    && var r := s.flight.reqs[a.id];
    r.key == key &&
    match a
    case EnterSemaphore(_) => !r.hasExecutor
    case Finish(_, Returned(v)) => v.None? || r.ttl <= 0.0
    case Finish(id, Raised(_, _)) => s.flight.pcs[id].attempt >= MaxRetries(r.group)
    case StoreDone(_) => true
  }

  function LastPublisher(c: Config, acts: seq<Action>, key: string): Option<nat>
    requires Run(c, acts).Some?
  {
    if acts == [] then None
    else
      var s, a := Run(c, acts[..|acts| - 1]).value, acts[|acts| - 1];
      if Publishes(s, a, key) then Some(a.id) else LastPublisher(c, acts[..|acts| - 1], key)
  }

  // The published result under a key is the outcome of the last publisher.
  ghost predicate ResultsAreLatest(s: State, key: string, p: Option<nat>) {
    match p
    case None => key !in s.results
    case Some(id) =>
      At(s.flight, id) && s.flight.reqs[id].key == key && s.flight.pcs[id].Done?
      && key in s.results && s.results[key] == s.flight.pcs[id].result
  }

  lemma PublishStep(c: Config, s: State, a: Action, key: string)
    requires Enabled(s, a) && Publishes(s, a, key)
    ensures ResultsAreLatest(Apply(c, s, a), key, Some(a.id))
  {
    hide CB.RecordError, TB.Acquire, TTL.Lookup, CB.Gate, TTL.Put, TTL.Invalidated, GateAndJoin, Join, Backoff;
  }

  lemma OtherStep(c: Config, s: State, a: Action, key: string, p: Option<nat>)
    requires Enabled(s, a) && !Publishes(s, a, key) && ResultsAreLatest(s, key, p)
    ensures ResultsAreLatest(Apply(c, s, a), key, p)
  {
    SameResult(c, s, a, key);
    if !Environment(a) {
      ActionMovesOne(c, s, a);
    }
    if p.Some? {
      DoneStays(c, s, a, p.value);
    }
    hide Apply, MovesOne;
  }

  lemma SameResult(c: Config, s: State, a: Action, key: string)
    requires Enabled(s, a) && !Publishes(s, a, key)
    ensures key in Apply(c, s, a).results <==> key in s.results
    ensures key in s.results ==> Apply(c, s, a).results[key] == s.results[key]
  {
    hide CB.RecordError, TB.Acquire, TTL.Lookup, CB.Gate, Leave, Join;
  }

  lemma DoneStays(c: Config, s: State, a: Action, id: nat)
    requires Enabled(s, a) && At(s.flight, id) && s.flight.pcs[id].Done?
    ensures At(Apply(c, s, a).flight, id) && Apply(c, s, a).flight.reqs[id] == s.flight.reqs[id]
    ensures Apply(c, s, a).flight.pcs[id] == s.flight.pcs[id]
  {
    if !Environment(a) {
      ActionMovesOne(c, s, a);
      assert a.id != id;
      hide Apply;
    }
  }

  lemma {:induction false} ResultsStayLatest(c: Config, acts: seq<Action>, key: string)
    requires Run(c, acts).Some?
    ensures ResultsAreLatest(Run(c, acts).value, key, LastPublisher(c, acts, key))
  {
    if acts != [] {
      hide Apply, Enabled, Publishes, ResultsAreLatest, Init;
      var s, a := Run(c, acts[..|acts| - 1]).value, acts[|acts| - 1];
      ResultsStayLatest(c, acts[..|acts| - 1], key);
      if Publishes(s, a, key) {
        PublishStep(c, s, a, key);
      } else {
        OtherStep(c, s, a, key, LastPublisher(c, acts[..|acts| - 1], key));
      }
    }
  }

  // A woken waiter returns the outcome of the last request for its key that
  // published, or None if none ever did.
  lemma WaiterGetsTheLastPublished(c: Config, acts: seq<Action>, id: nat)
    requires Run(c, acts).Some? && Enabled(Run(c, acts).value, EventFired(id))
    ensures var s := Run(c, acts).value;
      var p := LastPublisher(c, acts, s.flight.reqs[id].key);
      && (p.Some? ==> At(s.flight, p.value) && s.flight.reqs[p.value].key == s.flight.reqs[id].key)
      && (p.Some? ==> s.flight.pcs[p.value].Done?)
      && Apply(c, s, EventFired(id)).flight.pcs[id]
         == Done(if p.Some? then s.flight.pcs[p.value].result else None)
  {
    ResultsStayLatest(c, acts, Run(c, acts).value.flight.reqs[id].key);
  }

  // --- Waiter and leader -----------------------------------------------------------

  // The request gave up at the bucket.
  function TimedOut(c: Config, acts: seq<Action>, id: nat): bool
    requires Run(c, acts).Some?
  {
    acts != []
    && var s, a := Run(c, acts[..|acts| - 1]).value, acts[|acts| - 1];
    TimedOut(c, acts[..|acts| - 1], id) || (a == TryBucket(id) && s.flight.pcs[id].deadline <= s.now)
  }

  // The request has written its outcome to _inflight_results.
  function HasPublished(c: Config, acts: seq<Action>, id: nat): bool
    requires Run(c, acts).Some?
  {
    acts != []
    && var s, a := Run(c, acts[..|acts| - 1]).value, acts[|acts| - 1];
    HasPublished(c, acts[..|acts| - 1], id) || PublishesOwn(s, a, id)
  }

  predicate PublishesOwn(s: State, a: Action, id: nat)
    requires Enabled(s, a)
  {
    !Environment(a) && a.id == id && Publishes(s, a, s.flight.reqs[id].key)
  }

  // How a request that led has left, as far as it has.
  ghost predicate LeftBy(f: Flight, id: nat, timedOut: bool, published: bool) {
    && (timedOut || published ==> At(f, id) && f.pcs[id].Done?)
    && (timedOut ==> f.pcs[id] == Done(None) && !published)
    && (At(f, id) && id in f.fired && f.pcs[id].Done? ==> timedOut || published)
  }

  lemma StepLeavesBy(c: Config, s: State, a: Action, id: nat, timedOut: bool, published: bool)
    requires Inv(c, s) && Enabled(s, a) && LeftBy(s.flight, id, timedOut, published)
    ensures LeftBy(Apply(c, s, a).flight, id, timedOut || (a == TryBucket(id) && s.flight.pcs[id].deadline <= s.now),
                   published || PublishesOwn(s, a, id))
  {
    var f, g := s.flight, Apply(c, s, a).flight;
    if !Environment(a) && a.id == id {
      OwnStepLeaves(c, s, a);
    } else {
      OtherStepKeeps(c, s, a, id);
    }
  }

  // Another request fires no event but its own.
  lemma OtherStepKeeps(c: Config, s: State, a: Action, id: nat)
    requires Inv(c, s) && Enabled(s, a) && (Environment(a) || a.id != id)
    ensures var f, g := s.flight, Apply(c, s, a).flight;
      && (id in g.fired ==> id in f.fired)
      && (At(f, id) ==> At(g, id) && g.pcs[id] == f.pcs[id])
      && (At(g, id) && !At(f, id) ==> g.pcs[id].Start?)
  {
    if Environment(a) {
      hide Inv, TTL.Invalidated;
    } else {
      FiresOwn(c, s, a);
      ActionMovesOne(c, s, a);
      hide Apply, Enabled, Inv;
    }
  }

  lemma FiresOwn(c: Config, s: State, a: Action)
    requires Inv(c, s) && Enabled(s, a) && !Environment(a)
    ensures Apply(c, s, a).flight.fired <= s.flight.fired + {a.id}
  {
    if a.TryBucket? || a.EnterSemaphore? || a.Finish? {
      FiresRegistered(c, s, a);
      FlightIsValid(c, s);
      hide Apply, Inv;
    } else {
      hide Inv, Leave, Conclude, Environment;
      FiresNothing(c, s, a);
    }
  }

  lemma FiresRegistered(c: Config, s: State, a: Action)
    requires Enabled(s, a) && (a.TryBucket? || a.EnterSemaphore? || a.Finish?)
    ensures At(s.flight, a.id) && Uncleaned(s.flight.pcs[a.id])
    ensures FiresAtMost(s, Apply(c, s, a), a.id)
  {
    hide *;
    match a {
      case TryBucket(id) => FiresAtBucket(c, s, id);
      case EnterSemaphore(id) => FiresAtSemaphore(c, s, id);
      case Finish(id, outcome) => FiresAtExecutor(c, s, id, outcome);
    }
  }

  ghost predicate FiresAtMost(s: State, t: State, id: nat)
    requires At(s.flight, id)
  {
    forall i :: i in t.flight.fired ==>
      i in s.flight.fired
      || (s.flight.reqs[id].key in s.flight.inflight && i == s.flight.inflight[s.flight.reqs[id].key])
  }

  lemma FiresAtBucket(c: Config, s: State, id: nat)
    requires Enabled(s, TryBucket(id))
    ensures At(s.flight, id) && Uncleaned(s.flight.pcs[id]) && FiresAtMost(s, Apply(c, s, TryBucket(id)), id)
  {
    hide Apply, TB.Acquire;
    TryIs(c, s, id);
  }

  lemma FiresAtSemaphore(c: Config, s: State, id: nat)
    requires Enabled(s, EnterSemaphore(id))
    ensures At(s.flight, id) && Uncleaned(s.flight.pcs[id]) && FiresAtMost(s, Apply(c, s, EnterSemaphore(id)), id)
  {
    hide CB.Gate, CB.RecordError, TB.Acquire, TTL.Lookup, TTL.Put, TTL.Invalidated, Backoff, GateAndJoin, Join;
  }

  lemma FiresAtExecutor(c: Config, s: State, id: nat, outcome: Outcome)
    requires Enabled(s, Finish(id, outcome))
    ensures At(s.flight, id) && Uncleaned(s.flight.pcs[id]) && FiresAtMost(s, Apply(c, s, Finish(id, outcome)), id)
  {
    hide CB.Gate, CB.RecordError, TB.Acquire, TTL.Lookup, TTL.Put, TTL.Invalidated, Backoff, GateAndJoin, Join;
  }

  lemma FlightIsValid(c: Config, s: State)
    requires Inv(c, s)
    ensures SingleFlight.Valid(s.flight)
  {
  }

  // A leader that leaves times out at the bucket, publishes, or is about to.
  lemma OwnStepLeaves(c: Config, s: State, a: Action)
    requires Inv(c, s) && Enabled(s, a) && !Environment(a)
    ensures At(s.flight, a.id) && !s.flight.pcs[a.id].Done?
    ensures At(Apply(c, s, a).flight, a.id)
    ensures var pc := Apply(c, s, a).flight.pcs[a.id];
      var late := a.TryBucket? && s.flight.pcs[a.id].deadline <= s.now;
      && (late ==> pc == Done(None) && !Publishes(s, a, s.flight.reqs[a.id].key))
      && (Publishes(s, a, s.flight.reqs[a.id].key) ==> pc.Done?)
      && (pc.Done? && a.id in Apply(c, s, a).flight.fired ==> late || Publishes(s, a, s.flight.reqs[a.id].key))
  {
    StillUnderWay(s, a);
    ActionMovesOne(c, s, a);
    hide Inv, Apply, MovesOne, Enabled;
    var key := s.flight.reqs[a.id].key;
    if Publishes(s, a, key) {
      PublishStep(c, s, a, key);
    } else if a.Begin? || a.CacheAnswer? || a.EventFired? {
      EndsUnfired(c, s, a);
    } else if a.TryBucket? && s.flight.pcs[a.id].deadline <= s.now {
      LateTryEnds(c, s, a.id);
    } else {
      GoesOnUnlessPublished(c, s, a);
    }
    MovesOneIsPlaced(c, s, a);
  }

  lemma StillUnderWay(s: State, a: Action)
    requires Enabled(s, a) && !Environment(a)
    ensures At(s.flight, a.id) && !s.flight.pcs[a.id].Done?
  {
  }

  lemma MovesOneIsPlaced(c: Config, s: State, a: Action)
    requires Enabled(s, a) && !Environment(a)
    ensures At(Apply(c, s, a).flight, a.id)
  {
    ActionMovesOne(c, s, a);
    hide Apply, Enabled;
  }

  // Who has not led, or waits for another, fires nothing.
  lemma EndsUnfired(c: Config, s: State, a: Action)
    requires Inv(c, s) && Enabled(s, a) && (a.Begin? || a.CacheAnswer? || a.EventFired?)
    ensures a.id !in Apply(c, s, a).flight.fired
  {
    FiresNothing(c, s, a);
    hide Apply;
    assert a.id !in s.flight.fired;
  }

  lemma FiresNothing(c: Config, s: State, a: Action)
    requires Enabled(s, a) && !a.TryBucket? && !a.EnterSemaphore? && !a.Finish?
    ensures Apply(c, s, a).flight.fired == s.flight.fired
  {
    hide GateAndJoin, CB.RecordError, TTL.Lookup, TTL.Put, TTL.Invalidated, TB.Acquire, Leave, Conclude, Backoff;
    if a.Begin? || a.CacheAnswer? {
      GateFiresNothing(c, s, a);
    }
  }

  lemma GateFiresNothing(c: Config, s: State, a: Action)
    requires Enabled(s, a) && (a.Begin? || a.CacheAnswer?)
    ensures GateAndJoin(c, s, a.id).flight.fired == s.flight.fired
    ensures a.CacheAnswer? ==>
      var key := s.flight.reqs[a.id].key;
      var t := s.(cache := TTL.Lookup(s.cache, key, s.now).0, log := s.log + [TTL.Ask(key, s.now)]);
      GateAndJoin(c, t, a.id).flight.fired == s.flight.fired
  {
    hide CB.Gate, TTL.Lookup;
  }

  // Behind the single-flight check a request ends by publishing, except at the bucket.
  lemma GoesOnUnlessPublished(c: Config, s: State, a: Action)
    requires Enabled(s, a) && !Environment(a) && !a.Begin? && !a.CacheAnswer? && !a.EventFired?
    requires !Publishes(s, a, s.flight.reqs[a.id].key) && (a.TryBucket? ==> s.now < s.flight.pcs[a.id].deadline)
    ensures At(Apply(c, s, a).flight, a.id) && !Apply(c, s, a).flight.pcs[a.id].Done?
  {
    hide CB.RecordError, TB.Acquire, TTL.Put, Backoff, CB.Gate, TTL.Lookup, GateAndJoin;
  }

  lemma {:induction false} RunLeavesBy(c: Config, acts: seq<Action>, id: nat)
    requires Run(c, acts).Some?
    ensures LeftBy(Run(c, acts).value.flight, id, TimedOut(c, acts, id), HasPublished(c, acts, id))
  {
    if acts != [] {
      var front := acts[..|acts| - 1];
      RunLeavesBy(c, front, id);
      EveryRunKeepsInv(c, front);
      StepLeavesBy(c, Run(c, front).value, acts[|acts| - 1], id, TimedOut(c, front, id), HasPublished(c, front, id));
    }
  }

  // Which leaders publish: a leader whose event has fired has published if and only if it
  // did not time out at the bucket and is not still writing to the cache.
  lemma LeaderPublishedIff(c: Config, acts: seq<Action>, l: nat)
    requires Run(c, acts).Some? && l in Run(c, acts).value.flight.fired
    ensures At(Run(c, acts).value.flight, l)
    ensures HasPublished(c, acts, l) <==> !TimedOut(c, acts, l) && !Run(c, acts).value.flight.pcs[l].Storing?
  {
    RunLeavesBy(c, acts, l);
    EveryRunKeepsInv(c, acts);
    FlightIsValid(c, Run(c, acts).value);
    hide Inv;
  }

  // What a request that has led returns or is about to return.
  function ResultOf(pc: Pc): Option<Payload> {
    match pc
    case Storing(v) => Some(v)
    case Done(result) => result
    case _ => None
  }

  // A published request has ended, so that the last publisher of a key is one.
  lemma {:induction false} LastPublisherHasPublished(c: Config, acts: seq<Action>, key: string)
    requires Run(c, acts).Some?
    ensures var p := LastPublisher(c, acts, key);
      p.Some? ==> HasPublished(c, acts, p.value)
  {
    if acts != [] {
      var front, a := acts[..|acts| - 1], acts[|acts| - 1];
      LastPublisherHasPublished(c, front, key);
      hide Apply;
    }
  }

  // Exactly when single flight does what it is for. A leader that timed out at the bucket
  // has the outcome None, and its waiter gets None if and only if nobody ever published
  // for the key or what was published last is None. Any other leader's waiter gets its
  // leader's outcome if and only if that leader published last or whoever did got the same.
  lemma WaiterAgreesWithLeaderIff(c: Config, acts: seq<Action>, id: nat)
    requires Run(c, acts).Some? && Enabled(Run(c, acts).value, EventFired(id))
    ensures var s := Run(c, acts).value;
      var l, p := s.flight.pcs[id].leader, LastPublisher(c, acts, s.flight.reqs[id].key);
      && At(s.flight, l) && s.flight.reqs[l].key == s.flight.reqs[id].key
      && (p.Some? ==> At(s.flight, p.value) && HasPublished(c, acts, p.value))
      && (Apply(c, s, EventFired(id)).flight.pcs[id] == Done(ResultOf(s.flight.pcs[l])) <==>
            if TimedOut(c, acts, l) then p.None? || ResultOf(s.flight.pcs[p.value]) == None
            else p == Some(l) || (p.Some? && ResultOf(s.flight.pcs[p.value]) == ResultOf(s.flight.pcs[l])))
      && (HasPublished(c, acts, l) ==> p.Some?)
  {
    var s := Run(c, acts).value;
    var key, l := s.flight.reqs[id].key, s.flight.pcs[id].leader;
    WaiterGetsTheLastPublished(c, acts, id);
    LastPublisherHasPublished(c, acts, key);
    RunLeavesBy(c, acts, l);
    EveryRunKeepsInv(c, acts);
    FlightIsValid(c, s);
    PublishedHasSuccessor(c, acts, l);
    LeaderPublishedIff(c, acts, l);
    hide Inv, Apply, TimedOut, HasPublished, LastPublisher, Run;
  }

  // Once somebody has published for a key there is a last one to have done so.
  lemma {:induction false} PublishedHasSuccessor(c: Config, acts: seq<Action>, id: nat)
    requires Run(c, acts).Some? && At(Run(c, acts).value.flight, id)
    ensures HasPublished(c, acts, id) ==> LastPublisher(c, acts, Run(c, acts).value.flight.reqs[id].key).Some?
  {
    if acts != [] {
      var front, a := acts[..|acts| - 1], acts[|acts| - 1];
      var s := Run(c, front).value;
      RunLeavesBy(c, front, id);
      if At(s.flight, id) {
        PublishedHasSuccessor(c, front, id);
        KeepsRequest(c, s, a, id);
      } else {
        hide Apply;
      }
    }
  }

  lemma KeepsRequest(c: Config, s: State, a: Action, id: nat)
    requires Enabled(s, a) && At(s.flight, id)
    ensures At(Apply(c, s, a).flight, id) && Apply(c, s, a).flight.reqs[id] == s.flight.reqs[id]
  {
    if !Environment(a) {
      ActionMovesOne(c, s, a);
      hide Apply;
    }
  }
}

// core/bybit_traffic_controller.py: BybitTrafficController.request, as a machine that
// many requests step through at once.
//
// asyncio runs a coroutine without interruption between two awaits, so one action
// below is at most what a request does from one await to the next: the answer of the
// cache, the event of another request, a try at the token bucket, the semaphore, the
// executor, the pause before a retry, and the write to the cache. An await that does not
// suspend is a place where others may act here and not there, so the runs below include
// all of the event loop's and some more; TrafficSchedule tells them apart.
module TrafficController {
  import opened Wrappers
  import opened SingleFlight
  import CB = CircuitBreakers
  import TB = TokenBuckets
  import TTL = TTLCaches

  datatype Config = Config(maxConcurrent: nat, breakerEnabled: bool, breaker: CB.Config, rate: real)

  const BURST := 10.0
  const BUCKET_TIMEOUT := 5.0
  const BUCKET_PAUSE := 0.1

  datatype Outcome = Returned(value: Option<Payload>) | Raised(status: int, jitter: real)

  // The last three fields only record history: what executors returned, what the
  // cache was asked to do, and when the bucket was tried.
  datatype State = State(
    now: real, paused: bool, breaker: CB.Breaker, free: nat, flight: Flight,
    cache: TTL.Store<Payload>, bucket: TB.Bucket, results: map<string, Option<Payload>>,
    produced: set<(string, Payload)>, log: seq<TTL.Op<Payload>>, tries: seq<real>)

  datatype Action =
    | Tick(dt: real)
    | Call(id: nat, req: Request)
    | SetPaused(paused: bool)
    | InvalidateCache(prefix: string)
    | ForceOpen
    | Begin(id: nat)
    | CacheAnswer(id: nat)
    | EventFired(id: nat)
    | TryBucket(id: nat)
    | EnterSemaphore(id: nat)
    | Finish(id: nat, outcome: Outcome)
    | Retry(id: nat)
    | StoreDone(id: nat)

  function Init(c: Config): State {
    State(0.0, false, CB.CLOSED, c.maxConcurrent, NOBODY,
          map[], TB.Fresh(c.rate, BURST, 0.0), map[], {}, [], [])
  }

  function MaxRetries(g: Group): nat {
    if g.CriticalPositionProtection? then 3 else 1
  }

  // base_delay * 2 ** attempt
  function Backoff(attempt: nat): real {
    if attempt == 0 then 1.0 else 2.0 * Backoff(attempt - 1)
  }

  predicate Enabled(s: State, a: Action) {
    match a
    case Tick(dt) => dt >= 0.0
    case Call(id, req) => id !in s.flight.pcs
    case SetPaused(_) => true
    case InvalidateCache(_) => true
    case ForceOpen => true
    case Begin(id) => At(s.flight, id) && s.flight.pcs[id].Start?
    case CacheAnswer(id) => At(s.flight, id) && s.flight.pcs[id].AtCache?
    case EventFired(id) => At(s.flight, id) && s.flight.pcs[id].Waiting? && s.flight.pcs[id].leader in s.flight.fired
    case TryBucket(id) => At(s.flight, id) && s.flight.pcs[id].AtBucket? && s.flight.pcs[id].ready <= s.now
    case EnterSemaphore(id) => At(s.flight, id) && s.flight.pcs[id].AtSemaphore? && s.free > 0
    case Finish(id, outcome) =>
      At(s.flight, id) && s.flight.pcs[id].Executing? && (outcome.Raised? ==> 0.0 <= outcome.jitter <= 0.5)
    case Retry(id) => At(s.flight, id) && s.flight.pcs[id].Sleeping? && s.flight.pcs[id].wake <= s.now
    case StoreDone(id) => At(s.flight, id) && s.flight.pcs[id].Storing?
  }

  // A refused try is followed by a pause.
  function Refused(pc: Pc, now: real): Pc
    requires pc.AtBucket?
  {
    AtBucket(pc.deadline, now + BUCKET_PAUSE)
  }

  // Steps 2 and 3 of request(), which no await separates: the circuit breaker, then
  // the single-flight check.
  function GateAndJoin(c: Config, s: State, id: nat): State
    requires At(s.flight, id)
  {
    var (b, pass) := if c.breakerEnabled then CB.Gate(c.breaker, s.breaker, s.now) else (s.breaker, true);
    if pass then s.(breaker := b, flight := Join(s.flight, id, s.now, s.now + BUCKET_TIMEOUT))
    else s.(breaker := b, flight := Goto(s.flight, id, Done(None)))
  }

  // After the executor: clean up, leave the semaphore, then cache or publish.
  function Conclude(s: State, id: nat, result: Option<Payload>): State
    requires At(s.flight, id)
  {
    var r := s.flight.reqs[id];
    if result.Some? && r.ttl > 0.0 then s.(flight := Leave(s.flight, id, Storing(result.value)))
    else s.(flight := Leave(s.flight, id, Done(result)), results := s.results[r.key := result])
  }

  function Apply(c: Config, s: State, a: Action): State
    requires Enabled(s, a)
  {
    match a
    case Tick(dt) => s.(now := s.now + dt)
    case Call(id, req) => s.(flight := Arrive(s.flight, id, req))
    case SetPaused(p) => s.(paused := p)
    case InvalidateCache(prefix) =>
      s.(cache := TTL.Invalidated(s.cache, prefix), log := s.log + [TTL.Drop(prefix, s.now)])
    case ForceOpen => s.(breaker := CB.ForceOpen(s.breaker))
    case Begin(id) =>
      var r := s.flight.reqs[id];
      if s.paused && (r.group.MarketData? || r.group.UiDiagnostics?) then s.(flight := Goto(s.flight, id, Done(None)))
      else if r.ttl > 0.0 then s.(flight := Goto(s.flight, id, AtCache))
      else GateAndJoin(c, s, id)
    case CacheAnswer(id) =>
      var key := s.flight.reqs[id].key;
      var (cache, hit) := TTL.Lookup(s.cache, key, s.now);
      var t := s.(cache := cache, log := s.log + [TTL.Ask(key, s.now)]);
      if hit.Some? then t.(flight := Goto(t.flight, id, Done(hit))) else GateAndJoin(c, t, id)
    case EventFired(id) =>
      var key := s.flight.reqs[id].key;
      s.(flight := Goto(s.flight, id, Done(if key in s.results then s.results[key] else None)))
    case TryBucket(id) =>
      if s.now < s.flight.pcs[id].deadline then
        var (bucket, ok) := TB.Acquire(s.bucket, s.now);
        s.(bucket := bucket, tries := s.tries + [s.now],
           flight := Goto(s.flight, id, if ok then AtSemaphore else Refused(s.flight.pcs[id], s.now)))
      else s.(flight := Leave(s.flight, id, Done(None)))
    case EnterSemaphore(id) =>
      if s.flight.reqs[id].hasExecutor then s.(flight := Goto(s.flight, id, Executing(0)), free := s.free - 1)
      else Conclude(s, id, None)
    case Finish(id, outcome) =>
      var attempt, r := s.flight.pcs[id].attempt, s.flight.reqs[id];
      if outcome.Returned? then
        var v := outcome.value;
        Conclude(s.(breaker := CB.OnSuccess(s.breaker), free := s.free + 1,
                    produced := if v.Some? then s.produced + {(r.key, v.value)} else s.produced), id, v)
      else
        var t := s.(breaker := CB.RecordError(c.breaker, s.breaker, s.now, outcome.status));
        if attempt >= MaxRetries(r.group) then Conclude(t.(free := t.free + 1), id, None)
        else t.(flight := Goto(t.flight, id, Sleeping(attempt + 1, s.now + Backoff(attempt) + outcome.jitter)))
    case Retry(id) => s.(flight := Goto(s.flight, id, Executing(s.flight.pcs[id].next)))
    case StoreDone(id) =>
      var r, v := s.flight.reqs[id], s.flight.pcs[id].value;
      s.(flight := Goto(s.flight, id, Done(Some(v))),
         cache := TTL.Put(s.cache, r.key, v, r.ttl, s.now),
         log := s.log + [TTL.Store(r.key, v, r.ttl, s.now)],
         results := s.results[r.key := Some(v)])
  }

  // The state after a run from s, if every action was possible when it came.
  function RunFrom(c: Config, s: State, acts: seq<Action>): Option<State> {
    if acts == [] then Some(s)
    else
      var t := RunFrom(c, s, acts[..|acts| - 1]);
      if t.Some? && Enabled(t.value, acts[|acts| - 1]) then Some(Apply(c, t.value, acts[|acts| - 1])) else None
  }

  function Run(c: Config, acts: seq<Action>): Option<State> {
    RunFrom(c, Init(c), acts)
  }

  // --- What holds in every interleaving ---------------------------------------

  ghost function Holders(pcs: map<nat, Pc>): set<nat> {
    set id | id in pcs && Holding(pcs[id])
  }

  // The semaphore counts exactly the requests inside it.
  ghost predicate Counted(c: Config, s: State) {
    s.free + |Holders(s.flight.pcs)| == c.maxConcurrent
  }

  ghost predicate PcSourced(produced: set<(string, Payload)>, r: Request, pc: Pc) {
    && (pc.Storing? ==> (r.key, pc.value) in produced)
    && (pc.Done? && pc.result.Some? ==> (r.key, pc.result.value) in produced)
  }

  ghost predicate RequestsSourced(produced: set<(string, Payload)>, f: Flight) {
    forall id :: At(f, id) ==> PcSourced(produced, f.reqs[id], f.pcs[id])
  }

  ghost predicate StoresSourced(s: State) {
    && (forall k :: k in s.cache ==> (k, s.cache[k].value) in s.produced)
    && (forall k :: k in s.results && s.results[k].Some? ==> (k, s.results[k].value) in s.produced)
  }

  // Every payload in the system was returned by an executor run for the same key.
  ghost predicate Sourced(s: State) {
    RequestsSourced(s.produced, s.flight) && StoresSourced(s)
  }

  // The cache is what its own history makes of it.
  ghost predicate CacheRecorded(s: State) {
    s.cache == TTL.Run(s.log) && TTL.Monotone(s.log) && (s.log != [] ==> s.log[|s.log| - 1].at <= s.now)
  }

  // So is the bucket.
  ghost predicate BucketRecorded(c: Config, s: State) {
    && s.now >= 0.0 && TB.Monotone(0.0, s.tries) && (s.tries != [] ==> s.tries[|s.tries| - 1] <= s.now)
    && s.bucket == TB.After(TB.Fresh(c.rate, BURST, 0.0), s.tries, |s.tries|)
  }

  predicate RetriesInRange(r: Request, pc: Pc) {
    && (pc.Executing? ==> pc.attempt <= MaxRetries(r.group))
    && (pc.Sleeping? ==> 1 <= pc.next <= MaxRetries(r.group))
  }

  ghost predicate RetriesBounded(f: Flight) {
    forall id :: At(f, id) ==> RetriesInRange(f.reqs[id], f.pcs[id])
  }

  ghost predicate Inv(c: Config, s: State) {
    && SingleFlight.Valid(s.flight) && Counted(c, s) && Sourced(s) && CacheRecorded(s) && BucketRecorded(c, s)
    && RetriesBounded(s.flight) && (s.breaker.halfOpen ==> s.breaker.open)
  }

  // At most one cache operation, made now.
  ghost predicate CacheStep(s: State, t: State) {
    || (t.log == s.log && t.cache == s.cache)
    || (t.log != [] && t.log[..|t.log| - 1] == s.log && t.log[|t.log| - 1].at == s.now
        && t.cache == TTL.Step(s.cache, t.log[|t.log| - 1]))
  }

  // At most one try at the bucket, made now.
  ghost predicate BucketStep(s: State, t: State) {
    || (t.tries == s.tries && t.bucket == s.bucket)
    || (t.tries == s.tries + [s.now] && t.bucket == TB.Acquire(s.bucket, s.now).0)
  }

  function Count(b: bool): int {
    if b then 1 else 0
  }

  // How far a request is from its end.
  function Rank(r: Request, pc: Pc): int {
    match pc
    case Start => 12
    case AtCache => 11
    case AtBucket(_, _) => 10
    case AtSemaphore => 9
    case Sleeping(n, _) => 2 * (MaxRetries(r.group) - n) + 3
    case Executing(n) => 2 * (MaxRetries(r.group) - n) + 2
    case Waiting(_) => 1
    case Storing(_) => 1
    case Done(_) => 0
  }

  // A request came closer to its end, or was refused by the bucket in time.
  ghost predicate Progress(s: State, t: State, id: nat)
    requires At(s.flight, id) && At(t.flight, id)
  {
    || 0 <= Rank(s.flight.reqs[id], t.flight.pcs[id]) < Rank(s.flight.reqs[id], s.flight.pcs[id]) <= 12
    || (s.flight.pcs[id].AtBucket? && s.now < s.flight.pcs[id].deadline && !TB.Acquire(s.bucket, s.now).1
        && t.flight.pcs[id] == Refused(s.flight.pcs[id], s.now))
  }

  // What an action of one request does to everybody: it moves that request alone,
  // the semaphore follows whether it is inside, and whatever it publishes or ends
  // with was produced for its own key.
  ghost predicate MovesOne(s: State, t: State, id: nat) {
    && At(s.flight, id) && At(t.flight, id) && t.flight.reqs == s.flight.reqs
    && t.flight.pcs == s.flight.pcs[id := t.flight.pcs[id]]
    && t.now == s.now
    && t.free == s.free + Count(Holding(s.flight.pcs[id])) - Count(Holding(t.flight.pcs[id]))
    && CacheStep(s, t) && BucketStep(s, t)
    && s.produced <= t.produced
    && (Sourced(s) ==> PcSourced(t.produced, s.flight.reqs[id], t.flight.pcs[id]) && StoresSourced(t))
    && (RetriesBounded(s.flight) ==> RetriesInRange(s.flight.reqs[id], t.flight.pcs[id]) && Progress(s, t, id))
    && (Uncleaned(s.flight.pcs[id]) && !Uncleaned(t.flight.pcs[id]) && s.flight.reqs[id].key in s.flight.inflight ==>
        s.flight.inflight[s.flight.reqs[id].key] in t.flight.fired && s.flight.reqs[id].key !in t.flight.inflight)
  }

  lemma GateMoves(c: Config, s: State, id: nat)
    requires At(s.flight, id) && Early(s.flight.pcs[id])
    ensures var t := GateAndJoin(c, s, id);
      && MovesOne(s, t, id)
      && t == s.(breaker := t.breaker, flight := t.flight)
      && !Holding(t.flight.pcs[id])
  {
    hide CB.Gate;
  }

  lemma ConcludeMoves(s: State, id: nat, result: Option<Payload>)
    requires At(s.flight, id)
    requires result.Some? ==> (s.flight.reqs[id].key, result.value) in s.produced
    ensures var t := Conclude(s, id, result);
      && t == s.(flight := t.flight, results := t.results)
      && At(t.flight, id) && t.flight.reqs == s.flight.reqs && t.flight.pcs == s.flight.pcs[id := t.flight.pcs[id]]
      && (t.flight.pcs[id].Storing? || t.flight.pcs[id].Done?)
      && PcSourced(s.produced, s.flight.reqs[id], t.flight.pcs[id])
      && (StoresSourced(s) ==> StoresSourced(t))
      && (s.flight.reqs[id].key in s.flight.inflight ==>
          s.flight.inflight[s.flight.reqs[id].key] in t.flight.fired && s.flight.reqs[id].key !in t.flight.inflight)
  {
  }

  lemma BeginMoves(c: Config, s: State, id: nat)
    requires Enabled(s, Begin(id))
    ensures MovesOne(s, Apply(c, s, Begin(id)), id)
  {
    hide GateAndJoin;
    GateMoves(c, s, id);
  }

  lemma LookupIsSourced(s: State, id: nat)
    requires At(s.flight, id)
    ensures var key := s.flight.reqs[id].key;
      var (cache, hit) := TTL.Lookup(s.cache, key, s.now);
      var t := s.(cache := cache, log := s.log + [TTL.Ask(key, s.now)]);
      && CacheStep(s, t)
      && (Sourced(s) ==> Sourced(t) && (hit.Some? ==> (key, hit.value) in s.produced))
  {
    var key := s.flight.reqs[id].key;
    assert (s.log + [TTL.Ask(key, s.now)])[..|s.log|] == s.log;
  }

  lemma CacheAnswerMoves(c: Config, s: State, id: nat)
    requires Enabled(s, CacheAnswer(id))
    ensures MovesOne(s, Apply(c, s, CacheAnswer(id)), id)
  {
    hide TTL.Lookup, GateAndJoin, Sourced, RetriesBounded, CacheStep;
    var key := s.flight.reqs[id].key;
    LookupIsSourced(s, id);
    var (cache, hit) := TTL.Lookup(s.cache, key, s.now);
    var t := s.(cache := cache, log := s.log + [TTL.Ask(key, s.now)]);
    GateMoves(c, t, id);
    CacheStepDepends(s, t, Apply(c, s, CacheAnswer(id)));
    SourcedHasStores(t);
    SameRetries(s, t);
  }

  lemma CacheStepDepends(s: State, t: State, u: State)
    requires t.cache == u.cache && t.log == u.log
    ensures CacheStep(s, t) <==> CacheStep(s, u)
  {
  }

  lemma SourcedHasStores(s: State)
    ensures Sourced(s) ==> StoresSourced(s)
  {
  }

  lemma SameRetries(s: State, t: State)
    requires s.flight == t.flight
    ensures RetriesBounded(s.flight) <==> RetriesBounded(t.flight)
  {
  }

  lemma WaitMoves(c: Config, s: State, id: nat)
    requires Enabled(s, EventFired(id))
    ensures MovesOne(s, Apply(c, s, EventFired(id)), id)
  {
  }

  lemma TryIs(c: Config, s: State, id: nat)
    requires Enabled(s, TryBucket(id))
    ensures var t, a := Apply(c, s, TryBucket(id)), TB.Acquire(s.bucket, s.now);
      t == if s.now >= s.flight.pcs[id].deadline then s.(flight := Leave(s.flight, id, Done(None)))
           else if a.1 then s.(bucket := a.0, tries := s.tries + [s.now], flight := Goto(s.flight, id, AtSemaphore))
           else s.(bucket := a.0, tries := s.tries + [s.now],
                   flight := Goto(s.flight, id, Refused(s.flight.pcs[id], s.now)))
  {
    hide TB.Acquire, Leave, Goto;
  }

  lemma LateMoves(s: State, id: nat)
    requires Enabled(s, TryBucket(id))
    ensures MovesOne(s, s.(flight := Leave(s.flight, id, Done(None))), id)
  {
  }

  lemma GrantMoves(s: State, id: nat, t: State)
    requires Enabled(s, TryBucket(id)) && BucketStep(s, t)
    requires t == s.(bucket := t.bucket, tries := t.tries, flight := Goto(s.flight, id, AtSemaphore))
    ensures MovesOne(s, t, id)
  {
    hide BucketStep, TB.Acquire;
  }

  lemma RefusalMoves(s: State, id: nat, t: State)
    requires Enabled(s, TryBucket(id)) && s.now < s.flight.pcs[id].deadline
    requires BucketStep(s, t) && !TB.Acquire(s.bucket, s.now).1
    requires t == s.(bucket := t.bucket, tries := t.tries,
                     flight := Goto(s.flight, id, Refused(s.flight.pcs[id], s.now)))
    ensures MovesOne(s, t, id)
  {
    hide BucketStep, TB.Acquire;
  }

  lemma TryMoves(c: Config, s: State, id: nat)
    requires Enabled(s, TryBucket(id))
    ensures MovesOne(s, Apply(c, s, TryBucket(id)), id)
  {
    hide Apply, MovesOne, TB.Acquire, Leave, Goto;
    TryIs(c, s, id);
    var t := Apply(c, s, TryBucket(id));
    if s.now >= s.flight.pcs[id].deadline {
      LateMoves(s, id);
    } else if TB.Acquire(s.bucket, s.now).1 {
      GrantMoves(s, id, t);
    } else {
      RefusalMoves(s, id, t);
    }
  }

  lemma EnterMoves(c: Config, s: State, id: nat)
    requires Enabled(s, EnterSemaphore(id))
    ensures MovesOne(s, Apply(c, s, EnterSemaphore(id)), id)
  {
    hide Conclude, CB.Gate, CB.RecordError, TTL.Lookup, TTL.Put, TTL.Invalidated, TB.Acquire, GateAndJoin, Join,
      Backoff;
    ConcludeMoves(s, id, None);
  }

  lemma ReturnMoves(c: Config, s: State, id: nat, v: Option<Payload>)
    requires Enabled(s, Finish(id, Returned(v)))
    ensures MovesOne(s, Apply(c, s, Finish(id, Returned(v))), id)
  {
    hide Conclude, CB.Gate, CB.RecordError, Backoff, TTL.Lookup, TTL.Put, TTL.Invalidated, TB.Acquire, GateAndJoin,
      Join;
    var r := s.flight.reqs[id];
    ConcludeMoves(s.(breaker := CB.OnSuccess(s.breaker), free := s.free + 1,
      produced := if v.Some? then s.produced + {(r.key, v.value)} else s.produced), id, v);
    assert RetriesBounded(s.flight) ==> RetriesInRange(r, s.flight.pcs[id]);
  }

  lemma RaiseMoves(c: Config, s: State, id: nat, status: int, jitter: real)
    requires Enabled(s, Finish(id, Raised(status, jitter)))
    ensures MovesOne(s, Apply(c, s, Finish(id, Raised(status, jitter))), id)
  {
    hide Conclude, CB.RecordError, Backoff, CB.Gate, TTL.Lookup, TTL.Put, TTL.Invalidated, TB.Acquire, GateAndJoin,
      Join;
    var r := s.flight.reqs[id];
    var t := s.(breaker := CB.RecordError(c.breaker, s.breaker, s.now, status));
    ConcludeMoves(t.(free := t.free + 1), id, None);
    assert RetriesBounded(s.flight) ==> RetriesInRange(r, s.flight.pcs[id]);
  }

  lemma FinishMoves(c: Config, s: State, id: nat, outcome: Outcome)
    requires Enabled(s, Finish(id, outcome))
    ensures MovesOne(s, Apply(c, s, Finish(id, outcome)), id)
  {
    hide *;
    match outcome {
      case Returned(v) => ReturnMoves(c, s, id, v);
      case Raised(status, jitter) => RaiseMoves(c, s, id, status, jitter);
    }
  }

  lemma RetryMoves(c: Config, s: State, id: nat)
    requires Enabled(s, Retry(id))
    ensures MovesOne(s, Apply(c, s, Retry(id)), id)
  {
    assert RetriesBounded(s.flight) ==> RetriesInRange(s.flight.reqs[id], s.flight.pcs[id]);
  }

  lemma StoreMoves(c: Config, s: State, id: nat)
    requires Enabled(s, StoreDone(id))
    ensures MovesOne(s, Apply(c, s, StoreDone(id)), id)
  {
    var t := Apply(c, s, StoreDone(id));
    assert t.log[..|t.log| - 1] == s.log;
    assert Sourced(s) ==> PcSourced(s.produced, s.flight.reqs[id], s.flight.pcs[id]);
  }

  lemma ActionMovesOne(c: Config, s: State, a: Action)
    requires Enabled(s, a) && !Environment(a)
    ensures MovesOne(s, Apply(c, s, a), a.id)
  {
    hide *;
    match a {
      case Begin(id) => BeginMoves(c, s, id);
      case CacheAnswer(id) => CacheAnswerMoves(c, s, id);
      case EventFired(id) => WaitMoves(c, s, id);
      case TryBucket(id) => TryMoves(c, s, id);
      case EnterSemaphore(id) => EnterMoves(c, s, id);
      case Finish(id, outcome) => FinishMoves(c, s, id, outcome);
      case Retry(id) => RetryMoves(c, s, id);
      case StoreDone(id) => StoreMoves(c, s, id);
      case _ => NotEnvironment(a);
    }
  }

  lemma NotEnvironment(a: Action)
    ensures Environment(a) <==> a.Tick? || a.Call? || a.SetPaused? || a.InvalidateCache? || a.ForceOpen?
  {
  }

  predicate Environment(a: Action) {
    a.Tick? || a.Call? || a.SetPaused? || a.InvalidateCache? || a.ForceOpen?
  }

  lemma GateKeepsFlight(c: Config, s: State, id: nat)
    requires SingleFlight.Valid(s.flight) && At(s.flight, id) && Early(s.flight.pcs[id])
    ensures SingleFlight.Valid(GateAndJoin(c, s, id).flight)
  {
    hide SingleFlight.Valid, Join, CB.Gate;
    JoinKeepsValid(s.flight, id, s.now, s.now + BUCKET_TIMEOUT);
    FinishEarly(s.flight, id, Done(None));
  }

  // A request may end before it reaches the single-flight check, or move to it.
  lemma FinishEarly(f: Flight, id: nat, pc: Pc)
    requires SingleFlight.Valid(f) && At(f, id) && !Uncleaned(f.pcs[id])
    requires pc.Done? || (pc.AtCache? && Early(f.pcs[id]))
    ensures SingleFlight.Valid(Goto(f, id, pc))
  {
    hide SingleFlight.Valid;
    GotoKeepsValid(f, id, pc);
  }

  lemma ConcludeKeepsFlight(s: State, id: nat, result: Option<Payload>)
    requires SingleFlight.Valid(s.flight) && At(s.flight, id) && Uncleaned(s.flight.pcs[id])
    ensures SingleFlight.Valid(Conclude(s, id, result).flight)
    ensures id in Conclude(s, id, result).flight.fired
  {
    hide SingleFlight.Valid, Leave;
    if result.Some? {
      LeaveKeepsValid(s.flight, id, Storing(result.value));
    }
    LeaveKeepsValid(s.flight, id, Done(result));
  }

  lemma StepKeepsFlight(c: Config, s: State, a: Action)
    requires SingleFlight.Valid(s.flight) && Enabled(s, a)
    ensures SingleFlight.Valid(Apply(c, s, a).flight)
  {
    hide SingleFlight.Valid, Leave, Join, Goto, Arrive, CB.Gate, CB.RecordError, TTL.Lookup, TTL.Put, TB.Acquire,
      GateAndJoin, Conclude;
    match a {
      case Call(id, req) =>
        ArriveKeepsValid(s.flight, id, req);
      case Begin(id) =>
        GateKeepsFlight(c, s, id);
        FinishEarly(s.flight, id, Done(None));
        FinishEarly(s.flight, id, AtCache);
      case CacheAnswer(id) =>
        var key := s.flight.reqs[id].key;
        var (cache, hit) := TTL.Lookup(s.cache, key, s.now);
        GateKeepsFlight(c, s.(cache := cache, log := s.log + [TTL.Ask(key, s.now)]), id);
        FinishEarly(s.flight, id, Done(hit));
      case EventFired(id) =>
        var key := s.flight.reqs[id].key;
        FinishEarly(s.flight, id, Done(if key in s.results then s.results[key] else None));
      case TryBucket(id) =>
        LeaveKeepsValid(s.flight, id, Done(None));
        GotoKeepsValid(s.flight, id, AtSemaphore);
        GotoKeepsValid(s.flight, id, Refused(s.flight.pcs[id], s.now));
      case EnterSemaphore(id) =>
        ConcludeKeepsFlight(s, id, None);
        GotoKeepsValid(s.flight, id, Executing(0));
      case Finish(id, outcome) =>
        var attempt, r := s.flight.pcs[id].attempt, s.flight.reqs[id];
        if outcome.Returned? {
          var v := outcome.value;
          ConcludeKeepsFlight(s.(breaker := CB.OnSuccess(s.breaker), free := s.free + 1,
            produced := if v.Some? then s.produced + {(r.key, v.value)} else s.produced), id, v);
        } else {
          var t := s.(breaker := CB.RecordError(c.breaker, s.breaker, s.now, outcome.status));
          ConcludeKeepsFlight(t.(free := t.free + 1), id, None);
          GotoKeepsValid(s.flight, id, Sleeping(attempt + 1, s.now + Backoff(attempt) + outcome.jitter));
        }
      case Retry(id) =>
        GotoKeepsValid(s.flight, id, Executing(s.flight.pcs[id].next));
      case StoreDone(id) =>
        FinishEarly(s.flight, id, Done(Some(s.flight.pcs[id].value)));
      case _ =>
    }
  }

  lemma HoldersAfter(pcs: map<nat, Pc>, id: nat, pc: Pc)
    ensures Holders(pcs[id := pc]) == if Holding(pc) then Holders(pcs) + {id} else Holders(pcs) - {id}
  {
  }

  lemma CountFollows(c: Config, s: State, t: State, id: nat)
    requires Counted(c, s) && id in s.flight.pcs && id in t.flight.pcs
    requires t.flight.pcs == s.flight.pcs[id := t.flight.pcs[id]]
    requires t.free == s.free + Count(Holding(s.flight.pcs[id])) - Count(Holding(t.flight.pcs[id]))
    ensures Counted(c, t)
  {
    HoldersAfter(s.flight.pcs, id, t.flight.pcs[id]);
    assert id in Holders(s.flight.pcs) <==> Holding(s.flight.pcs[id]);
  }

  lemma StepKeepsCount(c: Config, s: State, a: Action)
    requires Counted(c, s) && Enabled(s, a)
    ensures Counted(c, Apply(c, s, a))
  {
    if a.Call? {
      HoldersAfter(s.flight.pcs, a.id, Start);
      assert a.id !in Holders(s.flight.pcs);
    } else if !Environment(a) {
      ActionMovesOne(c, s, a);
      hide Apply, Enabled, CacheStep, BucketStep, Sourced, StoresSourced, PcSourced, RetriesBounded, RetriesInRange,
        Progress, Uncleaned, Counted, Holding;
      CountFollows(c, s, Apply(c, s, a), a.id);
    }
  }

  lemma StepKeepsSourced(c: Config, s: State, a: Action)
    requires Sourced(s) && Enabled(s, a)
    ensures Sourced(Apply(c, s, a)) && s.produced <= Apply(c, s, a).produced
  {
    if !Environment(a) {
      ActionMovesOne(c, s, a);
      hide Apply, Enabled, CacheStep, BucketStep, RetriesBounded, PcSourced;
      var t := Apply(c, s, a);
      forall id | At(t.flight, id)
        ensures PcSourced(t.produced, t.flight.reqs[id], t.flight.pcs[id])
      {
        if id != a.id {
          assert At(s.flight, id);
          MoreIsProduced(s.produced, t.produced, s.flight.reqs[id], s.flight.pcs[id]);
        }
      }
    }
  }

  lemma MoreIsProduced(before: set<(string, Payload)>, after: set<(string, Payload)>, r: Request, pc: Pc)
    requires PcSourced(before, r, pc) && before <= after
    ensures PcSourced(after, r, pc)
  {
  }

  lemma StepKeepsCacheRecord(c: Config, s: State, a: Action)
    requires CacheRecorded(s) && Enabled(s, a)
    ensures CacheRecorded(Apply(c, s, a))
  {
    var t := Apply(c, s, a);
    if Environment(a) {
      assert CacheStep(s, t) && t.now >= s.now by {
        if a.InvalidateCache? {
          assert t.log[..|t.log| - 1] == s.log;
        }
      }
    } else {
      ActionMovesOne(c, s, a);
    }
    CacheStepKeepsRecord(s, t);
  }

  lemma CacheStepKeepsRecord(s: State, t: State)
    requires CacheRecorded(s) && CacheStep(s, t) && t.now >= s.now
    ensures CacheRecorded(t)
  {
    if t.log != s.log {
      assert forall i :: 0 <= i < |s.log| ==> t.log[i] == t.log[..|t.log| - 1][i];
    }
  }

  lemma StepKeepsBucketRecord(c: Config, s: State, a: Action)
    requires BucketRecorded(c, s) && Enabled(s, a)
    ensures BucketRecorded(c, Apply(c, s, a))
  {
    var t := Apply(c, s, a);
    if Environment(a) {
      EnvironmentLeavesBucket(c, s, a);
    } else {
      ActionMovesOne(c, s, a);
      MovesBucket(s, t, a.id);
    }
    hide *;
    BucketStepKeepsRecord(c, s, t);
  }

  lemma EnvironmentLeavesBucket(c: Config, s: State, a: Action)
    requires Enabled(s, a) && Environment(a)
    ensures BucketStep(s, Apply(c, s, a)) && s.now <= Apply(c, s, a).now
  {
    hide TB.Acquire, TTL.Invalidated;
  }

  lemma MovesBucket(s: State, t: State, id: nat)
    requires MovesOne(s, t, id)
    ensures BucketStep(s, t) && t.now == s.now
  {
    hide BucketStep;
  }

  lemma BucketStepKeepsRecord(c: Config, s: State, t: State)
    requires BucketRecorded(c, s) && BucketStep(s, t) && s.now <= t.now
    ensures BucketRecorded(c, t)
  {
    hide TB.Acquire;
    if t.tries != s.tries {
      AfterPrefix(TB.Fresh(c.rate, BURST, 0.0), s.tries, s.now, |s.tries|);
    }
  }

  // What the bucket was before an attempt does not depend on later attempts.
  lemma {:induction false} AfterPrefix(b: TB.Bucket, tries: seq<real>, now: real, n: nat)
    requires n <= |tries|
    ensures TB.After(b, tries + [now], n) == TB.After(b, tries, n)
  {
    if n > 0 {
      AfterPrefix(b, tries, now, n - 1);
    }
  }

  lemma StepKeepsRetries(c: Config, s: State, a: Action)
    requires RetriesBounded(s.flight) && Enabled(s, a)
    ensures RetriesBounded(Apply(c, s, a).flight)
  {
    if !Environment(a) {
      ActionMovesOne(c, s, a);
      hide Apply, Enabled, CacheStep, BucketStep, Sourced, RetriesInRange;
    }
  }

  lemma StepKeepsInv(c: Config, s: State, a: Action)
    requires Inv(c, s) && Enabled(s, a)
    ensures Inv(c, Apply(c, s, a))
  {
    StepKeepsFlight(c, s, a);
    StepKeepsCount(c, s, a);
    StepKeepsSourced(c, s, a);
    StepKeepsCacheRecord(c, s, a);
    StepKeepsBucketRecord(c, s, a);
    StepKeepsRetries(c, s, a);
    StepKeepsBreaker(c, s, a);
  }

  lemma StepKeepsBreaker(c: Config, s: State, a: Action)
    requires Enabled(s, a) && (s.breaker.halfOpen ==> s.breaker.open)
    ensures Apply(c, s, a).breaker.halfOpen ==> Apply(c, s, a).breaker.open
  {
    hide CB.Recent, TTL.Lookup, TTL.Put, TTL.Invalidated, TB.Acquire, Join, Leave, Goto, Arrive, Backoff;
  }

  // The invariant holds in every state of every interleaving.
  lemma {:induction false} EveryRunKeepsInv(c: Config, acts: seq<Action>)
    requires Run(c, acts).Some?
    ensures Inv(c, Run(c, acts).value)
  {
    if acts == [] {
      InitHasInv(c);
    } else {
      hide Inv, Apply, Enabled, Init;
      EveryRunKeepsInv(c, acts[..|acts| - 1]);
      StepKeepsInv(c, Run(c, acts[..|acts| - 1]).value, acts[|acts| - 1]);
    }
  }

  lemma InitHasInv(c: Config)
    ensures Inv(c, Init(c))
  {
    assert Holders(NOBODY.pcs) == {};
  }
}

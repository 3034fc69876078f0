// What the traffic controller does, told from the schedule of actions alone.
//
// Nothing below the trace functions looks at a state: the clock, the requests, the
// cache's log, the breaker's events, what executors returned and what each request
// answers are read off the actions. The theorems say that the machine, with its
// mutable cache, breaker, bucket, maps and program counters, agrees with the trace.
module TrafficTrace {
  import opened Wrappers
  import opened SingleFlight
  import opened TrafficController
  import CB = CircuitBreakers
  import TB = TokenBuckets
  import TTL = TTLCaches

  function Clock(acts: seq<Action>): real {
    if acts == [] then 0.0
    else
      var a := acts[|acts| - 1];
      Clock(acts[..|acts| - 1]) + if a.Tick? then a.dt else 0.0
  }

  predicate PausedIn(acts: seq<Action>) {
    acts != []
    && var a := acts[|acts| - 1];
    if a.SetPaused? then a.paused else PausedIn(acts[..|acts| - 1])
  }

  function RequestOf(acts: seq<Action>, id: nat): Option<Request> {
    if acts == [] then None
    else
      var a := acts[|acts| - 1];
      if a.Call? && a.id == id then Some(a.req) else RequestOf(acts[..|acts| - 1], id)
  }

  // How often the executor of a request has raised, and what it returned.
  function Raises(acts: seq<Action>, id: nat): nat {
    if acts == [] then 0
    else
      var a := acts[|acts| - 1];
      Raises(acts[..|acts| - 1], id) + if a.Finish? && a.id == id && a.outcome.Raised? then 1 else 0
  }

  function ReturnedBy(acts: seq<Action>, id: nat): Option<Option<Payload>> {
    if acts == [] then None
    else
      var a := acts[|acts| - 1];
      if a.Finish? && a.id == id && a.outcome.Returned? then Some(a.outcome.value)
      else ReturnedBy(acts[..|acts| - 1], id)
  }

  // How often an executor may raise before the request gives up.
  function MaxRaises(g: Group): nat {
    if g.CriticalPositionProtection? then 4 else 2
  }

  // When a request came to the single-flight check, may try the bucket again, and may
  // run its executor again.
  function ArrivedAt(acts: seq<Action>, id: nat): real {
    if acts == [] then 0.0
    else
      var front, a := acts[..|acts| - 1], acts[|acts| - 1];
      if (a.Begin? || a.CacheAnswer?) && a.id == id then Clock(front) else ArrivedAt(front, id)
  }

  function ReadyAt(acts: seq<Action>, id: nat): real {
    if acts == [] then 0.0
    else
      var front, a := acts[..|acts| - 1], acts[|acts| - 1];
      if (a.Begin? || a.CacheAnswer?) && a.id == id then Clock(front)
      else if a.TryBucket? && a.id == id then Clock(front) + 0.1
      else ReadyAt(front, id)
  }

  function WakeAt(acts: seq<Action>, id: nat): real {
    if acts == [] then 0.0
    else
      var front, a := acts[..|acts| - 1], acts[|acts| - 1];
      if a.Finish? && a.id == id && a.outcome.Raised? then
        var n := Raises(front, id);
        Clock(front) + (if n == 0 then 1.0 else if n == 1 then 2.0 else 4.0) + a.outcome.jitter
      else WakeAt(front, id)
  }

  // What the cache was asked and told, and when.
  function LogOf(acts: seq<Action>): seq<TTL.Op<Payload>> {
    if acts == [] then []
    else
      var front, a := acts[..|acts| - 1], acts[|acts| - 1];
      LogOf(front) + LogStep(front, a)
  }

  function LogStep(front: seq<Action>, a: Action): seq<TTL.Op<Payload>> {
    match a
    case InvalidateCache(prefix) => [TTL.Drop(prefix, Clock(front))]
    case CacheAnswer(id) =>
      (match RequestOf(front, id)
       case Some(r) => [TTL.Ask(r.key, Clock(front))]
       case None => [])
    case StoreDone(id) =>
      (match (RequestOf(front, id), ReturnedBy(front, id))
       case (Some(r), Some(Some(v))) => [TTL.Store(r.key, v, r.ttl, Clock(front))]
       case _ => [])
    case _ => []
  }

  // The times at which the bucket was tried: within five seconds of joining.
  function TriesOf(acts: seq<Action>): seq<real> {
    if acts == [] then []
    else
      var front, a := acts[..|acts| - 1], acts[|acts| - 1];
      if a.TryBucket? && Clock(front) < ArrivedAt(front, a.id) + 5.0 then TriesOf(front) + [Clock(front)]
      else TriesOf(front)
  }

  // Market data and diagnostics give way while non-critical traffic is paused.
  predicate GivesWay(acts: seq<Action>, r: Request) {
    PausedIn(acts) && (r.group == MarketData || r.group == UiDiagnostics)
  }

  // What the breaker heard.
  function EventsOf(c: Config, acts: seq<Action>): seq<CB.Event> {
    if acts == [] then []
    else
      var front, a := acts[..|acts| - 1], acts[|acts| - 1];
      EventsOf(c, front) + EventStep(c, front, a)
  }

  function EventStep(c: Config, front: seq<Action>, a: Action): seq<CB.Event> {
    match a
    case ForceOpen => [CB.Forced]
    case Finish(_, Returned(_)) => [CB.Success]
    case Finish(_, Raised(status, _)) => [CB.Error(Clock(front), status)]
    case Begin(id) => if AtGate(c, front, a) then [CB.Arrive(Clock(front))] else []
    case CacheAnswer(id) => if AtGate(c, front, a) then [CB.Arrive(Clock(front))] else []
    case _ => []
  }

  // The request asks the breaker: without a ttl when it begins, else after a miss.
  predicate AtGate(c: Config, front: seq<Action>, a: Action)
    requires a.Begin? || a.CacheAnswer?
  {
    c.breakerEnabled && RequestOf(front, a.id).Some?
    && var r := RequestOf(front, a.id).value;
    if a.Begin? then !GivesWay(front, r) && r.ttl <= 0.0
    else TTL.Ideal(LogOf(front), r.key, Clock(front)) == None
  }

  function BreakerOf(c: Config, acts: seq<Action>): CB.Breaker {
    CB.Run(c.breaker, CB.CLOSED, EventsOf(c, acts))
  }

  predicate Shut(c: Config, acts: seq<Action>) {
    c.breakerEnabled
    && var b := BreakerOf(c, acts);
    b.open && (b.halfOpen || Clock(acts) - b.openedAt < c.breaker.recovery)
  }

  // What a request answers, once it does.
  function Answer(c: Config, acts: seq<Action>, id: nat): Option<Option<Payload>>
    decreases |acts|, 0
  {
    if acts == [] then None
    else
      var front, a := acts[..|acts| - 1], acts[|acts| - 1];
      if Environment(a) || a.id != id || RequestOf(front, id).None? then Answer(c, front, id)
      else
        var r, now := RequestOf(front, id).value, Clock(front);
        match a
        case Begin(_) =>
          if GivesWay(front, r) || (r.ttl <= 0.0 && Shut(c, front)) then Some(None) else None
        case CacheAnswer(_) =>
          var hit := TTL.Ideal(LogOf(front), r.key, now);
          if hit.Some? then Some(hit) else if Shut(c, front) then Some(None) else None
        case EventFired(_) => Some(Published(c, front, r.key))
        case TryBucket(_) => if now >= ArrivedAt(front, id) + 5.0 then Some(None) else None
        case EnterSemaphore(_) => if r.hasExecutor then None else Some(None)
        case Finish(_, Returned(v)) => if v.Some? && r.ttl > 0.0 then None else Some(v)
        case Finish(_, Raised(_, _)) => if Raises(acts, id) >= MaxRaises(r.group) then Some(None) else None
        case StoreDone(_) => ReturnedBy(front, id)
        case _ => None
  }

  // The answer of the last request for the key that ended behind the bucket.
  function Published(c: Config, acts: seq<Action>, key: string): Option<Payload>
    decreases |acts|, 1
  {
    if acts == [] then None
    else
      var front, a := acts[..|acts| - 1], acts[|acts| - 1];
      if (a.EnterSemaphore? || a.Finish? || a.StoreDone?)
         && RequestOf(front, a.id).Some? && RequestOf(front, a.id).value.key == key && Answer(c, acts, a.id).Some?
      then Answer(c, acts, a.id).value
      else Published(c, front, key)
  }

  // --- The machine agrees with the trace ----------------------------------------

  predicate Clocked(acts: seq<Action>, s: State) {
    s.now == Clock(acts) && s.paused == PausedIn(acts) && s.log == LogOf(acts) && s.tries == TriesOf(acts)
  }

  predicate SameRequest(acts: seq<Action>, f: Flight, id: nat) {
    if At(f, id) then RequestOf(acts, id) == Some(f.reqs[id])
    else RequestOf(acts, id) == None && Raises(acts, id) == 0 && ReturnedBy(acts, id) == None
  }

  ghost predicate SameRequests(acts: seq<Action>, f: Flight) {
    forall id :: SameRequest(acts, f, id)
  }

  // The program counter of a request, as far as later steps depend on it.
  predicate SamePlace(acts: seq<Action>, id: nat, r: Request, pc: Pc) {
    && Raises(acts, id) <= MaxRaises(r.group)
    && (Raises(acts, id) == MaxRaises(r.group) ==> pc == Done(None))
    && match pc
       case AtBucket(deadline, ready) =>
         deadline == ArrivedAt(acts, id) + 5.0 && ready == ReadyAt(acts, id)
         && Raises(acts, id) == 0 && ReturnedBy(acts, id) == None
       case Executing(n) => n == Raises(acts, id) && ReturnedBy(acts, id) == None
       case Sleeping(n, wake) => n == Raises(acts, id) && wake == WakeAt(acts, id) && ReturnedBy(acts, id) == None
       case Storing(v) => ReturnedBy(acts, id) == Some(Some(v)) && r.ttl > 0.0
       case Done(result) => ReturnedBy(acts, id).Some? ==> ReturnedBy(acts, id) == Some(result)
       case _ => Raises(acts, id) == 0 && ReturnedBy(acts, id) == None
  }

  ghost predicate SamePlaces(acts: seq<Action>, f: Flight) {
    forall id :: At(f, id) ==> SamePlace(acts, id, f.reqs[id], f.pcs[id])
  }

  predicate SameAnswer(c: Config, acts: seq<Action>, f: Flight, id: nat) {
    Answer(c, acts, id) == if At(f, id) && f.pcs[id].Done? then Some(f.pcs[id].result) else None
  }

  ghost predicate SameAnswers(c: Config, acts: seq<Action>, f: Flight) {
    forall id :: SameAnswer(c, acts, f, id)
  }

  ghost predicate SameResults(c: Config, acts: seq<Action>, results: map<string, Option<Payload>>) {
    forall key :: Published(c, acts, key) == if key in results then results[key] else None
  }

  lemma StepClock(c: Config, acts: seq<Action>, s: State)
    requires acts != [] && Clocked(acts[..|acts| - 1], s) && Enabled(s, acts[|acts| - 1])
    requires SameRequests(acts[..|acts| - 1], s.flight) && SamePlaces(acts[..|acts| - 1], s.flight)
    ensures Clocked(acts, Apply(c, s, acts[|acts| - 1]))
  {
    var front, a := acts[..|acts| - 1], acts[|acts| - 1];
    StepTime(c, s, a);
    StepLog(c, front, s, a);
    StepTries(c, front, s, a);
    hide Apply, Enabled, SameRequests, SamePlaces, LogStep;
  }

  lemma StepTime(c: Config, s: State, a: Action)
    requires Enabled(s, a)
    ensures var t := Apply(c, s, a);
      && t.now == s.now + (if a.Tick? then a.dt else 0.0)
      && t.paused == if a.SetPaused? then a.paused else s.paused
  {
    hide CB.RecordError, TB.Acquire, TTL.Lookup, CB.Gate, TTL.Put, TTL.Invalidated, Join, Leave, Goto, Arrive, Backoff;
  }

  lemma StepLog(c: Config, front: seq<Action>, s: State, a: Action)
    requires Clocked(front, s) && Enabled(s, a)
    requires SameRequests(front, s.flight) && SamePlaces(front, s.flight)
    ensures Apply(c, s, a).log == s.log + LogStep(front, a)
  {
    if a.CacheAnswer? || a.StoreDone? {
      assert SameRequest(front, s.flight, a.id);
      assert SamePlace(front, a.id, s.flight.reqs[a.id], s.flight.pcs[a.id]);
    }
    LoggedBy(c, s, a);
    hide Apply, SameRequests, SamePlaces;
  }

  lemma LoggedBy(c: Config, s: State, a: Action)
    requires Enabled(s, a)
    ensures Apply(c, s, a).log == s.log +
      match a
      case InvalidateCache(prefix) => [TTL.Drop(prefix, s.now)]
      case CacheAnswer(id) => [TTL.Ask(s.flight.reqs[id].key, s.now)]
      case StoreDone(id) =>
        [TTL.Store(s.flight.reqs[id].key, s.flight.pcs[id].value, s.flight.reqs[id].ttl, s.now)]
      case _ => []
  {
    hide CB.RecordError, TB.Acquire, TTL.Lookup, CB.Gate, TTL.Put, TTL.Invalidated, Join, Leave, Goto, Arrive, Backoff;
  }

  lemma StepTries(c: Config, front: seq<Action>, s: State, a: Action)
    requires Clocked(front, s) && Enabled(s, a) && SamePlaces(front, s.flight)
    ensures Apply(c, s, a).tries
         == s.tries + if a.TryBucket? && s.now < ArrivedAt(front, a.id) + 5.0 then [s.now] else []
  {
    hide CB.RecordError, TB.Acquire, TTL.Lookup, CB.Gate, TTL.Put, TTL.Invalidated, Join, Leave, Goto, Arrive, Backoff;
    if a.TryBucket? {
      assert SamePlace(front, a.id, s.flight.reqs[a.id], s.flight.pcs[a.id]);
    }
  }

  lemma HitIsIdeal(c: Config, s: State, key: string)
    requires Inv(c, s)
    ensures TTL.Lookup(s.cache, key, s.now).1 == TTL.Ideal(s.log, key, s.now)
  {
    TTL.LazyIsIdeal(s.log, key, s.now);
  }

  // What the gate does to the breaker and whether it lets the request through.
  lemma GateIsShut(c: Config, s: State, id: nat)
    requires At(s.flight, id)
    ensures var t := GateAndJoin(c, s, id);
      && t.breaker == (if c.breakerEnabled then CB.Gate(c.breaker, s.breaker, s.now).0 else s.breaker)
      && t.results == s.results
      && At(t.flight, id)
      && (if c.breakerEnabled && s.breaker.open
             && (s.breaker.halfOpen || s.now - s.breaker.openedAt < c.breaker.recovery)
          then t.flight.pcs[id] == Done(None)
          else t.flight.pcs[id] == AtBucket(s.now + 5.0, s.now) || t.flight.pcs[id].Waiting?)
  {
  }

  lemma StepBreaker(c: Config, acts: seq<Action>, s: State)
    requires acts != [] && Clocked(acts[..|acts| - 1], s) && Enabled(s, acts[|acts| - 1]) && Inv(c, s)
    requires SameRequests(acts[..|acts| - 1], s.flight) && s.breaker == BreakerOf(c, acts[..|acts| - 1])
    ensures Apply(c, s, acts[|acts| - 1]).breaker == BreakerOf(c, acts)
  {
    var front, a := acts[..|acts| - 1], acts[|acts| - 1];
    BreakerHears(c, front, s, a);
    hide Apply, Enabled, Inv, SameRequests, EventStep, CB.Step, Clocked;
    var es, more := EventsOf(c, front), EventStep(c, front, a);
    assert EventsOf(c, acts) == es + more;
    RunOneMore(c, es, more);
  }

  lemma RunOneMore(c: Config, es: seq<CB.Event>, more: seq<CB.Event>)
    requires |more| <= 1
    ensures CB.Run(c.breaker, CB.CLOSED, es + more)
         == var b := CB.Run(c.breaker, CB.CLOSED, es);
            if more == [] then b else CB.Step(c.breaker, b, more[0])
  {
    hide CB.Step;
    if more == [] {
      assert es + more == es;
    } else {
      assert (es + more)[..|es + more| - 1] == es;
    }
  }

  lemma BreakerHears(c: Config, front: seq<Action>, s: State, a: Action)
    requires Clocked(front, s) && Enabled(s, a) && Inv(c, s) && SameRequests(front, s.flight)
    ensures var es := EventStep(c, front, a);
      && |es| <= 1
      && Apply(c, s, a).breaker == if es == [] then s.breaker else CB.Step(c.breaker, s.breaker, es[0])
  {
    hide Inv, CB.RecordError, TB.Acquire, TTL.Lookup, CB.Gate, TTL.Put, TTL.Invalidated, Join, Leave, Goto, Arrive,
      Backoff, GateAndJoin;
    if a.Begin? || a.CacheAnswer? {
      assert SameRequest(front, s.flight, a.id);
      var key := s.flight.reqs[a.id].key;
      GateIsShut(c, s, a.id);
      GateIsShut(c, s.(cache := TTL.Lookup(s.cache, key, s.now).0, log := s.log + [TTL.Ask(key, s.now)]), a.id);
      HitIsIdeal(c, s, key);
    }
  }

  // --- Requests and places --------------------------------------------------------

  // An action of somebody else leaves no trace.
  lemma OthersStand(c: Config, acts: seq<Action>, id: nat)
    requires acts != []
    requires var a := acts[|acts| - 1]; a.Tick? || a.SetPaused? || a.InvalidateCache? || a.ForceOpen? || a.id != id
    ensures var front := acts[..|acts| - 1];
      && RequestOf(acts, id) == RequestOf(front, id)
      && Raises(acts, id) == Raises(front, id) && ReturnedBy(acts, id) == ReturnedBy(front, id)
      && ArrivedAt(acts, id) == ArrivedAt(front, id) && ReadyAt(acts, id) == ReadyAt(front, id)
      && WakeAt(acts, id) == WakeAt(front, id) && Answer(c, acts, id) == Answer(c, front, id)
  {
  }

  predicate NotMine(a: Action, id: nat) {
    a.Tick? || a.SetPaused? || a.InvalidateCache? || a.ForceOpen? || a.id != id
  }

  lemma OthersMove(c: Config, s: State, a: Action, id: nat)
    requires Enabled(s, a) && NotMine(a, id)
    ensures var f, g := s.flight, Apply(c, s, a).flight;
      && (At(f, id) <==> At(g, id))
      && (At(f, id) ==> f.reqs[id] == g.reqs[id] && f.pcs[id] == g.pcs[id])
  {
    if !Environment(a) {
      ActionMovesOne(c, s, a);
      hide Apply, Enabled;
    }
  }

  lemma NewRequest(c: Config, acts: seq<Action>, s: State)
    requires acts != [] && acts[|acts| - 1].Call? && Enabled(s, acts[|acts| - 1])
    requires SingleFlight.Valid(s.flight) && SameRequests(acts[..|acts| - 1], s.flight)
    requires SameAnswers(c, acts[..|acts| - 1], s.flight)
    ensures var f, id := Apply(c, s, acts[|acts| - 1]).flight, acts[|acts| - 1].id;
      && At(f, id) && SameRequest(acts, f, id) && SamePlace(acts, id, f.reqs[id], f.pcs[id])
      && SameAnswer(c, acts, f, id)
  {
    var id := acts[|acts| - 1].id;
    assert SameRequest(acts[..|acts| - 1], s.flight, id);
    assert SameAnswer(c, acts[..|acts| - 1], s.flight, id);
  }

  predicate ShutNow(c: Config, s: State) {
    c.breakerEnabled && s.breaker.open && (s.breaker.halfOpen || s.now - s.breaker.openedAt < c.breaker.recovery)
  }

  predicate ThroughGate(c: Config, s: State, pc: Pc) {
    if ShutNow(c, s) then pc == Done(None) else pc == AtBucket(s.now + 5.0, s.now) || pc.Waiting?
  }

  // What the own action of a request does to its place: up to the gate,
  lemma OwnGate(c: Config, s: State, a: Action)
    requires Enabled(s, a) && (a.Begin? || a.CacheAnswer?)
    ensures At(s.flight, a.id) && At(Apply(c, s, a).flight, a.id)
    ensures Apply(c, s, a).flight.reqs[a.id] == s.flight.reqs[a.id] && Apply(c, s, a).results == s.results
    ensures var r, pc := s.flight.reqs[a.id], Apply(c, s, a).flight.pcs[a.id];
      var hit := TTL.Lookup(s.cache, r.key, s.now).1;
      if a.Begin? then
        if s.paused && (r.group == MarketData || r.group == UiDiagnostics) then pc == Done(None)
        else if r.ttl > 0.0 then pc == AtCache
        else ThroughGate(c, s, pc)
      else if hit.Some? then pc == Done(hit)
      else ThroughGate(c, s, pc)
  {
    ActionMovesOne(c, s, a);
    KeepsOwnRequest(s, Apply(c, s, a), a.id);
    var key := s.flight.reqs[a.id].key;
    if a.Begin? {
      GateIsShut(c, s, a.id);
    } else {
      GateIsShut(c, s.(cache := TTL.Lookup(s.cache, key, s.now).0, log := s.log + [TTL.Ask(key, s.now)]), a.id);
    }
    hide MovesOne, GateAndJoin, TTL.Lookup, CB.Gate;
  }

  lemma KeepsOwnRequest(s: State, t: State, id: nat)
    requires MovesOne(s, t, id)
    ensures At(s.flight, id) && At(t.flight, id) && t.flight.reqs[id] == s.flight.reqs[id]
  {
  }

  // and behind it.
  lemma OwnPc(c: Config, s: State, a: Action)
    requires Enabled(s, a) && !Environment(a) && !a.Begin? && !a.CacheAnswer?
    ensures At(s.flight, a.id) && At(Apply(c, s, a).flight, a.id)
    ensures Apply(c, s, a).flight.reqs[a.id] == s.flight.reqs[a.id]
    ensures var r, pc := s.flight.reqs[a.id], Apply(c, s, a).flight.pcs[a.id];
      match a
      case EventFired(id) => pc == Done(if r.key in s.results then s.results[r.key] else None)
      case TryBucket(id) =>
        if s.now >= s.flight.pcs[id].deadline then pc == Done(None)
        else pc == AtSemaphore || pc == AtBucket(s.flight.pcs[id].deadline, s.now + 0.1)
      case EnterSemaphore(id) => pc == if r.hasExecutor then Executing(0) else Done(None)
      case Finish(id, Returned(v)) => pc == if v.Some? && r.ttl > 0.0 then Storing(v.value) else Done(v)
      case Finish(id, Raised(_, jitter)) =>
        var n := s.flight.pcs[id].attempt;
        pc == if n >= MaxRetries(r.group) then Done(None) else Sleeping(n + 1, s.now + Backoff(n) + jitter)
      case Retry(id) => pc == Executing(s.flight.pcs[id].next)
      case StoreDone(id) => pc == Done(Some(s.flight.pcs[id].value))
      case _ => true
    ensures var r, t := s.flight.reqs[a.id], Apply(c, s, a);
      t.results == if (a.EnterSemaphore? || a.Finish? || a.StoreDone?) && t.flight.pcs[a.id].Done?
                   then s.results[r.key := t.flight.pcs[a.id].result] else s.results
  {
    hide CB.RecordError, TB.Acquire, CB.Gate, TTL.Put, Backoff;
  }

  predicate Started(acts: seq<Action>, s: State) {
    acts != [] && !Environment(acts[|acts| - 1]) && Enabled(s, acts[|acts| - 1])
    && var front, a := acts[..|acts| - 1], acts[|acts| - 1];
    && At(s.flight, a.id) && SameRequest(front, s.flight, a.id)
    && SamePlace(front, a.id, s.flight.reqs[a.id], s.flight.pcs[a.id])
    && RetriesInRange(s.flight.reqs[a.id], s.flight.pcs[a.id]) && s.now == Clock(front)
  }

  lemma OwnPlace(c: Config, acts: seq<Action>, s: State)
    requires Started(acts, s)
    ensures var f, id := Apply(c, s, acts[|acts| - 1]).flight, acts[|acts| - 1].id;
      At(f, id) && SameRequest(acts, f, id) && SamePlace(acts, id, f.reqs[id], f.pcs[id])
  {
    if acts[|acts| - 1].Begin? || acts[|acts| - 1].CacheAnswer? {
      hide *;
      EarlyPlace(c, acts, s);
    } else {
      hide *;
      LaterPlace(c, acts, s);
    }
  }

  lemma EarlyPlace(c: Config, acts: seq<Action>, s: State)
    requires Started(acts, s) && (acts[|acts| - 1].Begin? || acts[|acts| - 1].CacheAnswer?)
    ensures var f, id := Apply(c, s, acts[|acts| - 1]).flight, acts[|acts| - 1].id;
      At(f, id) && SameRequest(acts, f, id) && SamePlace(acts, id, f.reqs[id], f.pcs[id])
  {
    OwnGate(c, s, acts[|acts| - 1]);
    hide Apply, Backoff, TTL.Lookup, ShutNow;
  }

  lemma LaterPlace(c: Config, acts: seq<Action>, s: State)
    requires Started(acts, s) && !acts[|acts| - 1].Begin? && !acts[|acts| - 1].CacheAnswer?
    ensures var f, id := Apply(c, s, acts[|acts| - 1]).flight, acts[|acts| - 1].id;
      At(f, id) && SameRequest(acts, f, id) && SamePlace(acts, id, f.reqs[id], f.pcs[id])
  {
    assert Backoff(0) == 1.0 && Backoff(1) == 2.0 && Backoff(2) == 4.0;
    OwnPc(c, s, acts[|acts| - 1]);
    hide Apply, Backoff;
  }

  // --- Answers ----------------------------------------------------------------------

  ghost predicate Agrees(c: Config, acts: seq<Action>, s: State) {
    && Clocked(acts, s) && s.breaker == BreakerOf(c, acts)
    && SameRequests(acts, s.flight) && SamePlaces(acts, s.flight)
    && SameAnswers(c, acts, s.flight) && SameResults(c, acts, s.results)
  }

  lemma ShutAgrees(c: Config, acts: seq<Action>, s: State)
    requires Clocked(acts, s) && s.breaker == BreakerOf(c, acts)
    ensures Shut(c, acts) <==> ShutNow(c, s)
  {
    hide BreakerOf;
  }

  lemma OwnAnswer(c: Config, acts: seq<Action>, s: State)
    requires Started(acts, s) && Inv(c, s)
    requires Clocked(acts[..|acts| - 1], s) && s.breaker == BreakerOf(c, acts[..|acts| - 1])
    requires SameResults(c, acts[..|acts| - 1], s.results)
    ensures SameAnswer(c, acts, Apply(c, s, acts[|acts| - 1]).flight, acts[|acts| - 1].id)
  {
    if acts[|acts| - 1].Begin? || acts[|acts| - 1].CacheAnswer? {
      hide *;
      EarlyAnswer(c, acts, s);
    } else {
      hide *;
      LaterAnswer(c, acts, s);
    }
  }

  lemma EarlyAnswer(c: Config, acts: seq<Action>, s: State)
    requires Started(acts, s) && Inv(c, s) && (acts[|acts| - 1].Begin? || acts[|acts| - 1].CacheAnswer?)
    requires Clocked(acts[..|acts| - 1], s) && s.breaker == BreakerOf(c, acts[..|acts| - 1])
    ensures SameAnswer(c, acts, Apply(c, s, acts[|acts| - 1]).flight, acts[|acts| - 1].id)
  {
    var a := acts[|acts| - 1];
    OwnGate(c, s, a);
    ShutAgrees(c, acts[..|acts| - 1], s);
    HitIsIdeal(c, s, s.flight.reqs[a.id].key);
    hide Apply, Inv, TTL.Lookup, TTL.Ideal, Shut, ShutNow, BreakerOf, SamePlace, RetriesInRange;
  }

  lemma LaterAnswer(c: Config, acts: seq<Action>, s: State)
    requires Started(acts, s) && !acts[|acts| - 1].Begin? && !acts[|acts| - 1].CacheAnswer?
    requires Clocked(acts[..|acts| - 1], s) && SameResults(c, acts[..|acts| - 1], s.results)
    ensures SameAnswer(c, acts, Apply(c, s, acts[|acts| - 1]).flight, acts[|acts| - 1].id)
  {
    OwnPc(c, s, acts[|acts| - 1]);
    hide Apply, Backoff, Published, ArrivedAt, ReadyAt, WakeAt;
  }

  lemma StepResults(c: Config, acts: seq<Action>, s: State)
    requires acts != [] && Enabled(s, acts[|acts| - 1])
    requires !Environment(acts[|acts| - 1]) ==> Started(acts, s)
    requires !Environment(acts[|acts| - 1]) ==>
      SameAnswer(c, acts, Apply(c, s, acts[|acts| - 1]).flight, acts[|acts| - 1].id)
    requires SameResults(c, acts[..|acts| - 1], s.results)
    ensures SameResults(c, acts, Apply(c, s, acts[|acts| - 1]).results)
  {
    var a := acts[|acts| - 1];
    if Environment(a) {
      EnvironmentPublishesNothing(c, s, a);
    } else if a.Begin? || a.CacheAnswer? {
      OwnGate(c, s, a);
    } else {
      OwnPc(c, s, a);
    }
    hide Apply, Backoff, Answer, TTL.Lookup, ThroughGate;
  }

  lemma EnvironmentPublishesNothing(c: Config, s: State, a: Action)
    requires Enabled(s, a) && Environment(a)
    ensures Apply(c, s, a).results == s.results
  {
    hide TTL.Invalidated;
  }

  lemma StartedIs(c: Config, acts: seq<Action>, s: State)
    requires acts != [] && !Environment(acts[|acts| - 1]) && Enabled(s, acts[|acts| - 1])
    requires Inv(c, s) && Agrees(c, acts[..|acts| - 1], s)
    ensures Started(acts, s)
  {
    var front, id := acts[..|acts| - 1], acts[|acts| - 1].id;
    assert At(s.flight, id);
    assert SameRequest(front, s.flight, id);
    assert SamePlace(front, id, s.flight.reqs[id], s.flight.pcs[id]);
    assert RetriesInRange(s.flight.reqs[id], s.flight.pcs[id]);
  }

  ghost predicate Matches(c: Config, acts: seq<Action>, f: Flight, id: nat) {
    && SameRequest(acts, f, id) && SameAnswer(c, acts, f, id)
    && (At(f, id) ==> SamePlace(acts, id, f.reqs[id], f.pcs[id]))
  }

  lemma AgreesMatches(c: Config, acts: seq<Action>, s: State, id: nat)
    requires Agrees(c, acts, s)
    ensures Matches(c, acts, s.flight, id)
  {
    hide SameRequest, SamePlace, SameAnswer, Clocked;
  }

  lemma MineIsAction(a: Action, id: nat)
    requires !NotMine(a, id) && !a.Call?
    ensures !Environment(a) && a.id == id
  {
  }

  lemma AgreesParts(c: Config, acts: seq<Action>, s: State)
    requires Agrees(c, acts, s)
    ensures Clocked(acts, s) && s.breaker == BreakerOf(c, acts)
    ensures SameRequests(acts, s.flight) && SamePlaces(acts, s.flight)
    ensures SameAnswers(c, acts, s.flight) && SameResults(c, acts, s.results)
  {
  }

  lemma MatchesParts(c: Config, acts: seq<Action>, f: Flight, id: nat)
    requires At(f, id) && SameRequest(acts, f, id) && SameAnswer(c, acts, f, id)
    requires SamePlace(acts, id, f.reqs[id], f.pcs[id])
    ensures Matches(c, acts, f, id)
  {
  }

  lemma OthersMatch(c: Config, acts: seq<Action>, s: State, id: nat)
    requires acts != [] && Enabled(s, acts[|acts| - 1]) && NotMine(acts[|acts| - 1], id)
    requires Matches(c, acts[..|acts| - 1], s.flight, id)
    ensures Matches(c, acts, Apply(c, s, acts[|acts| - 1]).flight, id)
  {
    OthersMove(c, s, acts[|acts| - 1], id);
    OthersStand(c, acts, id);
    hide Apply, Enabled, Answer, Raises, ReturnedBy, RequestOf, ArrivedAt, ReadyAt, WakeAt, MaxRaises;
  }

  lemma StepMatches(c: Config, acts: seq<Action>, s: State, id: nat)
    requires acts != [] && Enabled(s, acts[|acts| - 1]) && Inv(c, s) && Agrees(c, acts[..|acts| - 1], s)
    ensures Matches(c, acts, Apply(c, s, acts[|acts| - 1]).flight, id)
  {
    var a := acts[|acts| - 1];
    if NotMine(a, id) {
      hide *;
      AgreesMatches(c, acts[..|acts| - 1], s, id);
      OthersMatch(c, acts, s, id);
    } else if a.Call? {
      AgreesParts(c, acts[..|acts| - 1], s);
      NewRequest(c, acts, s);
      hide *;
      MatchesParts(c, acts, Apply(c, s, a).flight, id);
    } else {
      MineIsAction(a, id);
      AgreesParts(c, acts[..|acts| - 1], s);
      StartedIs(c, acts, s);
      hide *;
      OwnPlace(c, acts, s);
      OwnAnswer(c, acts, s);
      MatchesParts(c, acts, Apply(c, s, a).flight, id);
    }
  }

  lemma StepAgrees(c: Config, acts: seq<Action>, s: State)
    requires acts != [] && Enabled(s, acts[|acts| - 1]) && Inv(c, s) && Agrees(c, acts[..|acts| - 1], s)
    ensures Agrees(c, acts, Apply(c, s, acts[|acts| - 1]))
  {
    var a := acts[|acts| - 1];
    var t := Apply(c, s, a);
    forall id
      ensures Matches(c, acts, t.flight, id)
    {
      StepMatches(c, acts, s, id);
    }
    StepClock(c, acts, s);
    StepBreaker(c, acts, s);
    if !Environment(a) {
      StartedIs(c, acts, s);
    }
    AllMatch(c, acts, t.flight);
    hide Apply, Enabled, Inv, SameRequest, SamePlace, Matches, Clocked, Started, BreakerOf;
    StepResults(c, acts, s);
  }

  lemma AllMatch(c: Config, acts: seq<Action>, f: Flight)
    requires forall id :: Matches(c, acts, f, id)
    ensures SameRequests(acts, f) && SamePlaces(acts, f) && SameAnswers(c, acts, f)
    ensures forall id :: SameAnswer(c, acts, f, id)
  {
    hide SameRequest, SamePlace, SameAnswer;
    assert forall id :: Matches(c, acts, f, id) ==> SameRequest(acts, f, id) && SameAnswer(c, acts, f, id);
    forall id | At(f, id)
      ensures SamePlace(acts, id, f.reqs[id], f.pcs[id])
    {
      assert Matches(c, acts, f, id);
    }
  }

  lemma {:induction false} RunAgrees(c: Config, acts: seq<Action>)
    requires Run(c, acts).Some?
    ensures Agrees(c, acts, Run(c, acts).value)
  {
    if acts != [] {
      hide Agrees, Apply, Enabled, Init, Inv;
      RunAgrees(c, acts[..|acts| - 1]);
      EveryRunKeepsInv(c, acts[..|acts| - 1]);
      StepAgrees(c, acts, Run(c, acts[..|acts| - 1]).value);
    }
  }
}

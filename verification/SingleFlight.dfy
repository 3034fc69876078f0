// core/bybit_traffic_controller.py: the single-flight part of request(): the map from
// cache keys to events, who created them and who waits for them.
module SingleFlight {
  import opened Wrappers

  // What an executor returns; only its identity matters here.
  type Payload = int

  datatype Group = CriticalPositionProtection | AccountSync | Execution | MarketData | UiDiagnostics

  datatype Request = Request(group: Group, key: string, ttl: real, hasExecutor: bool)

  // Where a request is between two actions. At the bucket it may try again from ready on.
  datatype Pc =
    | Start
    | AtCache
    | Waiting(leader: nat)
    | AtBucket(deadline: real, ready: real)
    | AtSemaphore
    | Executing(attempt: nat)
    | Sleeping(next: nat, wake: real)
    | Storing(value: Payload)
    | Done(result: Option<Payload>)

  // A leader that has created its event and not yet cleaned it up.
  predicate Uncleaned(pc: Pc) {
    pc.AtBucket? || pc.AtSemaphore? || pc.Executing? || pc.Sleeping?
  }

  // A request that has not reached the single-flight check.
  predicate Early(pc: Pc) {
    pc.Start? || pc.AtCache?
  }

  // Inside the semaphore.
  predicate Holding(pc: Pc) {
    pc.Executing? || pc.Sleeping?
  }

  // Requests are named by numbers, and the event a leader creates is named after it.
  datatype Flight = Flight(inflight: map<string, nat>, fired: set<nat>, reqs: map<nat, Request>, pcs: map<nat, Pc>)

  const NOBODY := Flight(map[], {}, map[], map[])

  predicate At(f: Flight, id: nat) {
    id in f.pcs && id in f.reqs
  }

  function Arrive(f: Flight, id: nat, req: Request): Flight {
    f.(reqs := f.reqs[id := req], pcs := f.pcs[id := Start])
  }

  function Goto(f: Flight, id: nat, pc: Pc): Flight {
    f.(pcs := f.pcs[id := pc])
  }

  // Wait for the event under the key if there is one, else create it and lead.
  function Join(f: Flight, id: nat, now: real, deadline: real): Flight
    requires At(f, id)
  {
    var key := f.reqs[id].key;
    if key in f.inflight then Goto(f, id, Waiting(f.inflight[key]))
    else Goto(f, id, AtBucket(deadline, now)).(inflight := f.inflight[key := id])
  }

  // _cleanup_inflight: set the event registered under the key, and forget it.
  function Cleanup(f: Flight, key: string): Flight {
    if key in f.inflight then f.(fired := f.fired + {f.inflight[key]}, inflight := f.inflight - {key}) else f
  }

  // A leader cleans up and goes on to pc.
  function Leave(f: Flight, id: nat, pc: Pc): Flight
    requires At(f, id)
  {
    Goto(Cleanup(f, f.reqs[id].key), id, pc)
  }

  // --- The invariant -----------------------------------------------------------

  // Every registered event belongs to an uncleaned leader for that key.
  ghost predicate EventsHaveLeaders(f: Flight) {
    forall k :: k in f.inflight ==>
      At(f, f.inflight[k]) && Uncleaned(f.pcs[f.inflight[k]]) && f.reqs[f.inflight[k]].key == k
  }

  // Every uncleaned leader is registered, so no key has two.
  ghost predicate LeadersAreRegistered(f: Flight) {
    forall id {:trigger Uncleaned(f.pcs[id])} :: At(f, id) && Uncleaned(f.pcs[id]) ==>
      f.reqs[id].key in f.inflight && f.inflight[f.reqs[id].key] == id
  }

  // An event fires once, when its leader is past every uncleaned stage.
  ghost predicate FiredIsOver(f: Flight) {
    forall id :: id in f.fired ==> At(f, id) && (f.pcs[id].Storing? || f.pcs[id].Done?)
  }

  // Whoever waits holds the event of a request for its own key that either has
  // fired or still has a leader to fire it.
  ghost predicate WaitersWillWake(f: Flight) {
    forall id {:trigger f.pcs[id].leader} :: At(f, id) && f.pcs[id].Waiting? ==>
      var l := f.pcs[id].leader;
      At(f, l) && f.reqs[l].key == f.reqs[id].key && (l in f.fired || Uncleaned(f.pcs[l]))
  }

  ghost predicate Valid(f: Flight) {
    f.pcs.Keys == f.reqs.Keys && EventsHaveLeaders(f) && LeadersAreRegistered(f) && FiredIsOver(f) && WaitersWillWake(f)
  }

  lemma ArriveKeepsValid(f: Flight, id: nat, req: Request)
    requires Valid(f) && id !in f.pcs
    ensures Valid(Arrive(f, id, req))
  {
    var g := Arrive(f, id, req);
    assert forall i :: i in f.pcs ==> g.pcs[i] == f.pcs[i] && g.reqs[i] == f.reqs[i];
  }

  // Moves that neither create nor clean up an event.
  lemma GotoKeepsValid(f: Flight, id: nat, pc: Pc)
    requires Valid(f) && At(f, id) && !pc.Waiting?
    requires Uncleaned(f.pcs[id]) == Uncleaned(pc)
    requires Early(pc) ==> Early(f.pcs[id])
    ensures Valid(Goto(f, id, pc))
  {
  }

  lemma JoinKeepsValid(f: Flight, id: nat, now: real, deadline: real)
    requires Valid(f) && At(f, id) && Early(f.pcs[id])
    ensures Valid(Join(f, id, now, deadline))
  {
    assert id !in f.fired;
  }

  lemma LeaveIsCleanup(f: Flight, id: nat, pc: Pc)
    requires Valid(f) && At(f, id) && Uncleaned(f.pcs[id])
    ensures f.reqs[id].key in f.inflight && f.inflight[f.reqs[id].key] == id
    ensures Leave(f, id, pc)
         == Flight(f.inflight - {f.reqs[id].key}, f.fired + {id}, f.reqs, f.pcs[id := pc])
  {
  }

  // Every way out of leading fires the event and frees the key.
  lemma LeaveKeepsValid(f: Flight, id: nat, pc: Pc)
    requires Valid(f) && At(f, id) && Uncleaned(f.pcs[id])
    requires pc.Storing? || pc.Done?
    ensures Valid(Leave(f, id, pc))
    ensures id in Leave(f, id, pc).fired && f.reqs[id].key !in Leave(f, id, pc).inflight
  {
    LeaveIsCleanup(f, id, pc);
    hide Cleanup, Leave;
  }
}

// What every caller of request() gets, over all runs.
module TrafficAnswers {
  import opened Wrappers
  import opened SingleFlight
  import opened TrafficController
  import opened TrafficTrace
  import CB = CircuitBreakers
  import TTL = TTLCaches

  // The machine is the trace: its clock, its cache's history, its breaker, the times it
  // tried the bucket, the requests it knows, and who has ended with what.
  lemma RunFollowsTrace(c: Config, acts: seq<Action>, id: nat)
    requires Run(c, acts).Some?
    ensures var s := Run(c, acts).value;
      && s.now == Clock(acts) && s.log == LogOf(acts) && s.tries == TriesOf(acts)
      && s.breaker == CB.Run(c.breaker, CB.CLOSED, EventsOf(c, acts))
      && (At(s.flight, id) <==> RequestOf(acts, id).Some?)
      && (At(s.flight, id) ==> s.flight.reqs[id] == RequestOf(acts, id).value)
      && (At(s.flight, id) && s.flight.pcs[id].Done? <==> Answer(c, acts, id).Some?)
      && (At(s.flight, id) && s.flight.pcs[id].Done? ==> s.flight.pcs[id].result == Answer(c, acts, id).value)
  {
    RunAgrees(c, acts);
    AgreesMatches(c, acts, Run(c, acts).value, id);
    hide Run, Answer, RequestOf, SamePlace;
  }

  // --- The executor's result is the answer ------------------------------------------

  predicate LogHolds(log: seq<TTL.Op<Payload>>, r: Request, v: Payload) {
    exists i :: 0 <= i < |log| && log[i].Store? && log[i].key == r.key && log[i].value == v && log[i].ttl == r.ttl
  }

  // The request ends with v; on the way there it only ever stores v, if it is to be cached.
  predicate EndsWith(s: State, id: nat, v: Option<Payload>) {
    At(s.flight, id)
    && var r, pc := s.flight.reqs[id], s.flight.pcs[id];
    && (v.None? || r.ttl <= 0.0 ==> pc == Done(v))
    && (v.Some? && r.ttl > 0.0 ==> pc == Storing(v.value) || (pc == Done(v) && LogHolds(s.log, r, v.value)))
  }

  lemma LogGrows(log: seq<TTL.Op<Payload>>, more: seq<TTL.Op<Payload>>, r: Request, v: Payload)
    requires LogHolds(log, r, v)
    ensures LogHolds(log + more, r, v)
  {
    var i :| 0 <= i < |log| && log[i].Store? && log[i].key == r.key && log[i].value == v && log[i].ttl == r.ttl;
    assert (log + more)[i] == log[i];
  }

  lemma StaysEnded(c: Config, acts: seq<Action>, s: State, id: nat, v: Option<Payload>)
    requires acts != [] && Enabled(s, acts[|acts| - 1]) && Inv(c, s) && Agrees(c, acts[..|acts| - 1], s)
    requires EndsWith(s, id, v)
    ensures EndsWith(Apply(c, s, acts[|acts| - 1]), id, v)
  {
    var front, a := acts[..|acts| - 1], acts[|acts| - 1];
    var t := Apply(c, s, a);
    StepLog(c, front, s, a);
    if v.Some? && LogHolds(s.log, s.flight.reqs[id], v.value) {
      LogGrows(s.log, LogStep(front, a), s.flight.reqs[id], v.value);
    }
    if NotMine(a, id) {
      OthersMove(c, s, a, id);
      hide Apply, Enabled, Inv, Agrees, LogHolds;
    } else {
      assert a == StoreDone(id);
      OwnPc(c, s, a);
      AgreesMatches(c, front, s, id);
      assert t.log[|s.log|] == TTL.Store(s.flight.reqs[id].key, v.value, s.flight.reqs[id].ttl, Clock(front));
      hide Apply, Inv, Agrees;
    }
  }

  lemma EndsNow(c: Config, s: State, id: nat, v: Option<Payload>)
    requires Enabled(s, Finish(id, Returned(v)))
    ensures EndsWith(Apply(c, s, Finish(id, Returned(v))), id, v)
  {
    OwnPc(c, s, Finish(id, Returned(v)));
    hide Apply, Enabled;
  }

  lemma {:induction false} ReturnedAnswered(c: Config, acts: seq<Action>, j: nat, id: nat, v: Option<Payload>)
    requires Run(c, acts).Some? && j < |acts| && acts[j] == Finish(id, Returned(v))
    ensures EndsWith(Run(c, acts).value, id, v)
  {
    hide EndsWith, Apply, Enabled, Inv, Init, Agrees;
    var front := acts[..|acts| - 1];
    if j == |acts| - 1 {
      EndsNow(c, Run(c, front).value, id, v);
    } else {
      assert front[j] == acts[j];
      ReturnedAnswered(c, front, j, id, v);
      EveryRunKeepsInv(c, front);
      RunAgrees(c, front);
      StaysEnded(c, acts, Run(c, front).value, id, v);
    }
  }

  // Whatever an executor returns, its request answers, at once or after writing it to
  // the cache under its own key and with its own ttl, and nothing that happens meanwhile
  // changes that.
  lemma ReturnedIsAnswered(c: Config, acts: seq<Action>, j: nat, id: nat, v: Option<Payload>)
    requires Run(c, acts).Some? && j < |acts| && acts[j] == Finish(id, Returned(v))
    ensures var s := Run(c, acts).value;
      && At(s.flight, id)
      && var r, pc := s.flight.reqs[id], s.flight.pcs[id];
      && (v.None? || r.ttl <= 0.0 ==> pc == Done(v))
      && (v.Some? && r.ttl > 0.0 ==> pc == Storing(v.value) || (pc == Done(v) && LogHolds(s.log, r, v.value)))
  {
    ReturnedAnswered(c, acts, j, id, v);
    hide LogHolds;
  }

  // --- Retries and pauses -------------------------------------------------------------

  predicate JustRaised(acts: seq<Action>, id: nat) {
    acts != [] && var a := acts[|acts| - 1]; a.Finish? && a.id == id && a.outcome.Raised?
  }

  // An executor raises at most four times for critical position protection and twice for
  // anything else; the last time the request answers None, before that it tries again.
  lemma ExecutorRuns(c: Config, acts: seq<Action>, id: nat)
    requires Run(c, acts).Some? && At(Run(c, acts).value.flight, id)
    ensures var r, pc := Run(c, acts).value.flight.reqs[id], Run(c, acts).value.flight.pcs[id];
      var most := if r.group == CriticalPositionProtection then 4 else 2;
      && Raises(acts, id) <= most
      && (Raises(acts, id) == most ==> pc == Done(None))
      && (ReturnedBy(acts, id).Some? && pc.Done? ==> pc.result == ReturnedBy(acts, id).value)
      && (pc.Executing? || pc.Sleeping? ==> Raises(acts, id) < most && ReturnedBy(acts, id) == None)
      && (JustRaised(acts, id) && Raises(acts, id) < most ==> pc.Sleeping?)
  {
    var s := Run(c, acts).value;
    RunAgrees(c, acts);
    AgreesMatches(c, acts, s, id);
    PlaceCounts(c, acts, s, id);
    if JustRaised(acts, id) {
      RunAgrees(c, acts[..|acts| - 1]);
      RaisedGoesOn(c, acts, Run(c, acts[..|acts| - 1]).value, id);
      hide Agrees, Matches, Apply, Enabled;
    } else {
      hide *;
    }
  }

  lemma PlaceCounts(c: Config, acts: seq<Action>, s: State, id: nat)
    requires At(s.flight, id) && Matches(c, acts, s.flight, id)
    ensures var r, pc := s.flight.reqs[id], s.flight.pcs[id];
      var most := if r.group == CriticalPositionProtection then 4 else 2;
      && Raises(acts, id) <= most
      && (Raises(acts, id) == most ==> pc == Done(None))
      && (ReturnedBy(acts, id).Some? && pc.Done? ==> pc.result == ReturnedBy(acts, id).value)
      && (pc.Executing? || pc.Sleeping? ==> Raises(acts, id) < most && ReturnedBy(acts, id) == None)
  {
    hide SameAnswer, SameRequest, Raises, ReturnedBy, ArrivedAt, ReadyAt, WakeAt;
  }

  lemma RaisedGoesOn(c: Config, acts: seq<Action>, s: State, id: nat)
    requires JustRaised(acts, id) && Enabled(s, acts[|acts| - 1]) && Agrees(c, acts[..|acts| - 1], s)
    ensures At(s.flight, id) && At(Apply(c, s, acts[|acts| - 1]).flight, id)
    ensures Apply(c, s, acts[|acts| - 1]).flight.reqs[id] == s.flight.reqs[id]
    ensures Raises(acts, id) < (if s.flight.reqs[id].group == CriticalPositionProtection then 4 else 2) ==>
      Apply(c, s, acts[|acts| - 1]).flight.pcs[id].Sleeping?
  {
    AgreesMatches(c, acts[..|acts| - 1], s, id);
    OwnPc(c, s, acts[|acts| - 1]);
    hide Apply, Agrees, Backoff, SameAnswer, SameRequest, ReturnedBy, ArrivedAt, ReadyAt, WakeAt;
  }

  ghost function Inside(pcs: map<nat, Pc>): set<nat> {
    set id | id in pcs && (pcs[id].Executing? || pcs[id].Sleeping?)
  }

  // Nobody tries the bucket within a tenth of a second of its last try, runs an executor
  // again before its backoff of one, two or four seconds and the jitter are over, or
  // enters while max_concurrent requests are running or backing off.
  lemma PausesAreKept(c: Config, acts: seq<Action>)
    requires acts != [] && Run(c, acts).Some?
    ensures var front, a := acts[..|acts| - 1], acts[|acts| - 1];
      && Run(c, front).Some?
      && (a.TryBucket? ==> ReadyAt(front, a.id) <= Clock(front))
      && (a.Retry? ==> WakeAt(front, a.id) <= Clock(front))
      && (a.EnterSemaphore? ==> |Inside(Run(c, front).value.flight.pcs)| < c.maxConcurrent)
  {
    var front, a := acts[..|acts| - 1], acts[|acts| - 1];
    RunAgrees(c, front);
    EveryRunKeepsInv(c, front);
    InTime(c, front, Run(c, front).value, a);
    hide Apply, Agrees, Inv, ReadyAt, WakeAt, Clock;
  }

  lemma InTime(c: Config, front: seq<Action>, s: State, a: Action)
    requires Enabled(s, a) && Agrees(c, front, s) && Inv(c, s)
    ensures a.TryBucket? ==> ReadyAt(front, a.id) <= Clock(front)
    ensures a.Retry? ==> WakeAt(front, a.id) <= Clock(front)
    ensures a.EnterSemaphore? ==> |Inside(s.flight.pcs)| < c.maxConcurrent
  {
    if a.TryBucket? || a.Retry? {
      AgreesMatches(c, front, s, a.id);
      NotBefore(c, front, s, a);
    } else if a.EnterSemaphore? {
      RoomInside(c, s, a.id);
    }
    hide Agrees, Inv, Enabled, ReadyAt, WakeAt, Clock;
  }

  lemma NotBefore(c: Config, front: seq<Action>, s: State, a: Action)
    requires Enabled(s, a) && (a.TryBucket? || a.Retry?) && Agrees(c, front, s) && Matches(c, front, s.flight, a.id)
    ensures a.TryBucket? ==> ReadyAt(front, a.id) <= Clock(front)
    ensures a.Retry? ==> WakeAt(front, a.id) <= Clock(front)
  {
    assert s.now == Clock(front);
    hide Agrees, SameAnswer, SameRequest, Raises, ReturnedBy, ArrivedAt, ReadyAt, WakeAt, Clock;
  }

  lemma RoomInside(c: Config, s: State, id: nat)
    requires Inv(c, s) && Enabled(s, EnterSemaphore(id))
    ensures |Inside(s.flight.pcs)| < c.maxConcurrent
  {
    assert Counted(c, s);
    hide Inv;
    assert Inside(s.flight.pcs) == Holders(s.flight.pcs);
  }
}

// core/bybit_traffic_controller.py: CircuitBreaker. Time is passed in: each call
// reads the monotone clock once.
module CircuitBreakers {
  datatype Config = Config(threshold429: int, errorThreshold: int, window: real, recovery: real)

  datatype Breaker = Breaker(open: bool, halfOpen: bool, errorTimes: seq<real>, openedAt: real)

  const CLOSED := Breaker(false, false, [], 0.0)

  // Keep the times strictly after cutoff, in order.
  function Recent(times: seq<real>, cutoff: real): seq<real> {
    if times == [] then []
    else if times[0] > cutoff then [times[0]] + Recent(times[1..], cutoff)
    else Recent(times[1..], cutoff)
  }

  function RecordError(c: Config, b: Breaker, now: real, status: int): Breaker {
    var times := Recent(b.errorTimes + [now], now - c.window);
    var errors := |times|;
    if !b.open && !b.halfOpen
       && ((status == 429 && errors >= c.threshold429) || errors >= c.errorThreshold)
    then b.(errorTimes := times, open := true, openedAt := now)
    else b.(errorTimes := times)
  }

  // The gate of request(): a closed breaker lets everything through, an open one
  // what try_half_open() lets through.
  function Gate(c: Config, b: Breaker, now: real): (Breaker, bool) {
    if !b.open then (b, true)
    else if b.halfOpen then (b, false)
    else if now - b.openedAt >= c.recovery then (b.(halfOpen := true), true)
    else (b, false)
  }

  function OnSuccess(b: Breaker): Breaker {
    b.(open := false, halfOpen := false, errorTimes := [])
  }

  function ForceOpen(b: Breaker): Breaker {
    b.(open := true, halfOpen := false)
  }

  class CircuitBreaker {
    const cfg: Config
    var open: bool
    var halfOpen: bool
    var errorTimes: seq<real>
    var openedAt: real

    function State(): Breaker
      reads this
    {
      Breaker(open, halfOpen, errorTimes, openedAt)
    }

    constructor (cfg: Config)
      ensures State() == CLOSED && this.cfg == cfg
    {
      this.cfg := cfg;
      open, halfOpen, errorTimes, openedAt := false, false, [], 0.0;
    }

    method Record(now: real, status: int)
      modifies this
      ensures State() == RecordError(cfg, old(State()), now, status)
    {
      errorTimes := errorTimes + [now];
      var cutoff := now - cfg.window;
      errorTimes := Prune(errorTimes, cutoff);
      var errors := |errorTimes|;
      if !open && !halfOpen {
        if status == 429 && errors >= cfg.threshold429 {
          open := true;
          openedAt := now;
        } else if errors >= cfg.errorThreshold {
          open := true;
          openedAt := now;
        }
      }
    }

    method TryHalfOpen(now: real) returns (pass: bool)
      modifies this
      ensures (State(), pass) == Gate(cfg, old(State()), now)
    {
      if !open {
        return true;
      }
      if halfOpen {
        return false;
      }
      if now - openedAt >= cfg.recovery {
        halfOpen := true;
        return true;
      }
      return false;
    }

    method Succeed()
      modifies this
      ensures State() == OnSuccess(old(State()))
    {
      open := false;
      halfOpen := false;
      errorTimes := [];
    }

    method Force()
      modifies this
      ensures State() == ForceOpen(old(State()))
    {
      open := true;
      halfOpen := false;
    }
  }

  // The pruning comprehension, as the loop it is.
  method Prune(times: seq<real>, cutoff: real) returns (kept: seq<real>)
    ensures kept == Recent(times, cutoff)
  {
    kept := [];
    for i := 0 to |times|
      invariant kept + Recent(times[i..], cutoff) == Recent(times, cutoff)
    {
      assert times[i..][1..] == times[i + 1..];
      if times[i] > cutoff {
        kept := kept + [times[i]];
      }
    }
  }

  // --- Runs ------------------------------------------------------------------

  datatype Event =
    | Error(at: real, status: int)
    | Arrive(at: real)
    | Success
    | Forced

  predicate Timed(e: Event) {
    e.Error? || e.Arrive?
  }

  // The clock never runs backwards.
  predicate Monotone(es: seq<Event>) {
    forall i, j :: 0 <= i <= j < |es| && Timed(es[i]) && Timed(es[j]) ==> es[i].at <= es[j].at
  }

  function Step(c: Config, b: Breaker, e: Event): Breaker {
    match e
    case Error(at, status) => RecordError(c, b, at, status)
    case Arrive(at) => Gate(c, b, at).0
    case Success => OnSuccess(b)
    case Forced => ForceOpen(b)
  }

  function Run(c: Config, b: Breaker, es: seq<Event>): Breaker {
    if es == [] then b else Step(c, Run(c, b, es[..|es| - 1]), es[|es| - 1])
  }

  // Every error since the last success, pruned or not.
  function ErrorsSinceSuccess(es: seq<Event>): seq<real> {
    if es == [] then []
    else
      var e := es[|es| - 1];
      var before := ErrorsSinceSuccess(es[..|es| - 1]);
      if e.Success? then [] else if e.Error? then before + [e.at] else before
  }

  lemma {:induction false} RecentAppend(s: seq<real>, x: real, cutoff: real)
    ensures Recent(s + [x], cutoff) == Recent(s, cutoff) + if x > cutoff then [x] else []
  {
    if s == [] {
      assert s + [x] == [x];
    } else {
      assert (s + [x])[0] == s[0] && (s + [x])[1..] == s[1..] + [x];
      RecentAppend(s[1..], x, cutoff);
    }
  }

  // Pruning twice with a later cutoff is pruning once with the later cutoff.
  lemma {:induction false} RecentRecent(s: seq<real>, early: real, late: real)
    requires early <= late
    ensures Recent(Recent(s, early), late) == Recent(s, late)
  {
    if s != [] {
      RecentRecent(s[1..], early, late);
      if s[0] > early {
        assert ([s[0]] + Recent(s[1..], early))[1..] == Recent(s[1..], early);
      }
    }
  }

  lemma {:induction false} RecentAll(s: seq<real>, cutoff: real)
    requires forall i :: 0 <= i < |s| ==> s[i] > cutoff
    ensures Recent(s, cutoff) == s
  {
    if s != [] {
      RecentAll(s[1..], cutoff);
    }
  }

  // The last time an error was recorded, if any since the last success.
  predicate Within(es: seq<Event>, now: real) {
    forall i :: 0 <= i < |es| && Timed(es[i]) ==> es[i].at <= now
  }

  // What the pruned list answers at any later moment is what the unpruned one would:
  // pruning never loses an error that still counts, and keeps none that does not.
  lemma {:induction false} PruningIsExact(c: Config, es: seq<Event>, now: real)
    requires Monotone(es) && Within(es, now)
    ensures Recent(Run(c, CLOSED, es).errorTimes, now - c.window)
         == Recent(ErrorsSinceSuccess(es), now - c.window)
  {
    if es != [] {
      hide Recent, Gate;
      var front, e := es[..|es| - 1], es[|es| - 1];
      MonotoneFront(es, now);
      PruningIsExact(c, front, now);
      if e.Error? {
        PruneOnce(Run(c, CLOSED, front).errorTimes, ErrorsSinceSuccess(front), e.at, now, c.window);
      } else {
        GateKeepsErrors(c, Run(c, CLOSED, front), now);
        if e.Arrive? {
          GateKeepsErrors(c, Run(c, CLOSED, front), e.at);
        }
      }
    }
  }

  lemma MonotoneFront(es: seq<Event>, now: real)
    requires Monotone(es) && Within(es, now) && es != []
    ensures Monotone(es[..|es| - 1]) && Within(es[..|es| - 1], now)
    ensures Timed(es[|es| - 1]) ==> es[|es| - 1].at <= now
  {
    assert forall i :: 0 <= i < |es| - 1 ==> es[..|es| - 1][i] == es[i];
  }

  lemma GateKeepsErrors(c: Config, b: Breaker, now: real)
    ensures Gate(c, b, now).0.errorTimes == b.errorTimes
  {
  }

  // Recording one error prunes at its own cutoff, which no later question can tell.
  lemma PruneOnce(pruned: seq<real>, full: seq<real>, at: real, now: real, window: real)
    requires at <= now && Recent(pruned, now - window) == Recent(full, now - window)
    ensures Recent(Recent(pruned + [at], at - window), now - window) == Recent(full + [at], now - window)
  {
    RecentRecent(pruned + [at], at - window, now - window);
    RecentAppend(pruned, at, now - window);
    RecentAppend(full, at, now - window);
  }

  // A half-open breaker is open: the probe flag is only ever set on an open one.
  lemma {:induction false} HalfOpenIsOpen(c: Config, es: seq<Event>)
    ensures Run(c, CLOSED, es).halfOpen ==> Run(c, CLOSED, es).open
  {
    if es != [] {
      HalfOpenIsOpen(c, es[..|es| - 1]);
    }
  }

  // A closed breaker opens on an error if and only if the errors since the last
  // success that lie inside the window reach the threshold (the 429 threshold when
  // this error is a 429); only errors and force_open ever open it.
  lemma OpensExactlyAtThreshold(c: Config, es: seq<Event>, at: real, status: int)
    requires Monotone(es) && Within(es, at) && !Run(c, CLOSED, es).open
    ensures var n := |Recent(ErrorsSinceSuccess(es + [Error(at, status)]), at - c.window)|;
      var after := Run(c, CLOSED, es + [Error(at, status)]);
      && (after.open <==> (status == 429 && n >= c.threshold429) || n >= c.errorThreshold)
      && (after.open ==> after.openedAt == at)
  {
    hide Monotone, Within, Recent, Gate;
    var es' := es + [Error(at, status)];
    assert es'[..|es'| - 1] == es;
    HalfOpenIsOpen(c, es);
    PruningIsExact(c, es, at);
    RecentAppend(Run(c, CLOSED, es).errorTimes, at, at - c.window);
    RecentAppend(ErrorsSinceSuccess(es), at, at - c.window);
  }

  // How many arrivals pass the gate during a run from b.
  function Passes(c: Config, b: Breaker, es: seq<Event>): nat {
    if es == [] then 0
    else
      var g := Run(c, b, es[..|es| - 1]);
      var e := es[|es| - 1];
      Passes(c, b, es[..|es| - 1]) + if e.Arrive? && Gate(c, g, e.at).1 then 1 else 0
  }

  predicate NoRelease(es: seq<Event>) {
    forall i :: 0 <= i < |es| ==> !es[i].Success? && !es[i].Forced?
  }

  // While open, at most one arrival passes until on_success or force_open, and none
  // does when a probe is already out, however long ago it was sent: a probe that
  // fails is never followed by another.
  lemma {:induction false} AtMostOneProbe(c: Config, b: Breaker, es: seq<Event>)
    requires b.open && NoRelease(es)
    ensures Run(c, b, es).open && Run(c, b, es).openedAt == b.openedAt
    ensures Passes(c, b, es) <= if b.halfOpen then 0 else 1
    ensures Run(c, b, es).halfOpen <==> b.halfOpen || Passes(c, b, es) == 1
  {
    if es != [] {
      AtMostOneProbe(c, b, es[..|es| - 1]);
    }
  }

  // Exactly which arrival becomes the probe: the first one at least recovery seconds
  // after the breaker last opened by itself.
  lemma {:induction false} ProbeIsFirstAfterRecovery(c: Config, b: Breaker, es: seq<Event>)
    requires b.open && !b.halfOpen && NoRelease(es)
    ensures Passes(c, b, es) == 1 <==>
      exists i :: 0 <= i < |es| && es[i].Arrive? && es[i].at - b.openedAt >= c.recovery
  {
    if es != [] {
      var front, e := es[..|es| - 1], es[|es| - 1];
      assert forall i :: 0 <= i < |front| ==> front[i] == es[i];
      AtMostOneProbe(c, b, front);
      AtMostOneProbe(c, b, es);
      ProbeIsFirstAfterRecovery(c, b, front);
      if e.Arrive? && e.at - b.openedAt >= c.recovery {
        assert es[|es| - 1] == e;
      }
      if exists i :: 0 <= i < |front| && front[i].Arrive? && front[i].at - b.openedAt >= c.recovery {
        var i :| 0 <= i < |front| && front[i].Arrive? && front[i].at - b.openedAt >= c.recovery;
        assert es[i] == front[i];
      }
    }
  }

  // When the breaker last opened by itself, zero if it never did.
  function LastOpening(c: Config, es: seq<Event>): real {
    if es == [] then 0.0
    else
      var front, e := es[..|es| - 1], es[|es| - 1];
      if e.Error? && !Run(c, CLOSED, front).open && Run(c, CLOSED, es).open then e.at else LastOpening(c, front)
  }

  lemma {:induction false} OpenedAtIsLastOpening(c: Config, es: seq<Event>)
    ensures Run(c, CLOSED, es).openedAt == LastOpening(c, es)
  {
    if es != [] {
      OpenedAtIsLastOpening(c, es[..|es| - 1]);
    }
  }

  // force_open does not restart the recovery clock: whatever came before, it holds
  // arrivals back only while the last automatic opening is younger than the recovery
  // time, and not at all behind the first recovery time when there was none.
  lemma ForcedOpenHoldsBackOnlyIfRecent(c: Config, es: seq<Event>, later: seq<Event>)
    requires NoRelease(later)
    ensures Passes(c, Run(c, CLOSED, es + [Forced]), later) == 1 <==>
      exists i :: 0 <= i < |later| && later[i].Arrive? && later[i].at - LastOpening(c, es) >= c.recovery
  {
    OpenedAtIsLastOpening(c, es);
    assert (es + [Forced])[..|es|] == es;
    ProbeIsFirstAfterRecovery(c, Run(c, CLOSED, es + [Forced]), later);
  }
}

// core/bybit_traffic_controller.py: TokenBucket.
module TokenBuckets {
  import opened Numbers

  datatype Bucket = Bucket(rate: real, burst: real, tokens: real, last: real)

  function Fresh(rate: real, burst: real, now: real): Bucket {
    Bucket(rate, burst, burst, now)
  }

  // Tokens accrued over a stretch of time.
  function Accrued(elapsed: real, rate: real): real {
    elapsed * rate
  }

  lemma AccruedAdds(a: real, b: real, c: real, rate: real)
    ensures Accrued(c - a, rate) == Accrued(b - a, rate) + Accrued(c - b, rate)
    ensures Accrued(0.0, rate) == 0.0
    ensures a <= b && rate >= 0.0 ==> Accrued(b - a, rate) >= 0.0
  {
  }

  lemma AccruedGrows(elapsed: real, longer: real, rate: real)
    requires elapsed <= longer && rate >= 0.0
    ensures Accrued(elapsed, rate) <= Accrued(longer, rate)
  {
    AccruedAdds(0.0, elapsed, longer, rate);
  }

  // The tokens at hand when an attempt is made at time now.
  function Refilled(b: Bucket, now: real): real {
    Min(b.burst, b.tokens + Accrued(now - b.last, b.rate))
  }

  // acquire(): refill for the elapsed time, then take one token if there is one.
  function Acquire(b: Bucket, now: real): (Bucket, bool) {
    var t := Refilled(b, now);
    if t >= 1.0 then (b.(tokens := t - 1.0, last := now), true)
    else (b.(tokens := t, last := now), false)
  }

  predicate Valid(b: Bucket) {
    b.rate >= 0.0 && 0.0 <= b.tokens <= b.burst
  }

  class TokenBucket {
    const rate: real
    const burst: real
    var tokens: real
    var last: real

    function State(): Bucket
      reads this
    {
      Bucket(rate, burst, tokens, last)
    }

    constructor (rate: real, burst: real, now: real)
      ensures State() == Fresh(rate, burst, now)
    {
      this.rate, this.burst := rate, burst;
      tokens, last := burst, now;
    }

    method TryAcquire(now: real) returns (ok: bool)
      requires Valid(State()) && last <= now
      modifies this
      ensures Valid(State())
      ensures (State(), ok) == Acquire(old(State()), now)
    {
      hide Accrued;
      var elapsed := now - last;
      KeepsValid(State(), now);
      tokens := Min(burst, tokens + Accrued(elapsed, rate));
      last := now;
      if tokens >= 1.0 {
        tokens := tokens - 1.0;
        return true;
      }
      return false;
    }
  }

  lemma KeepsValid(b: Bucket, now: real)
    requires Valid(b) && b.last <= now
    ensures Valid(Acquire(b, now).0)
    ensures Acquire(b, now).0.last == now
  {
    hide Accrued;
    AccruedAdds(b.last, now, now, b.rate);
  }

  // --- Runs: a sequence of attempt times ------------------------------------

  // Attempt times read off a monotone clock that started at t0.
  predicate Monotone(t0: real, times: seq<real>) {
    && (times != [] ==> t0 <= times[0])
    && forall i, j :: 0 <= i <= j < |times| ==> times[i] <= times[j]
  }

  // The bucket just before attempt n.
  function After(b: Bucket, times: seq<real>, n: nat): Bucket
    requires n <= |times|
  {
    if n == 0 then b else Acquire(After(b, times, n - 1), times[n - 1]).0
  }

  predicate Granted(b: Bucket, times: seq<real>, n: nat)
    requires n < |times|
  {
    Acquire(After(b, times, n), times[n]).1
  }

  // How many of the attempts i..j-1 were granted.
  function Grants(b: Bucket, times: seq<real>, i: nat, j: nat): nat
    requires i <= j <= |times|
  {
    if i == j then 0
    else Grants(b, times, i, j - 1) + if Granted(b, times, j - 1) then 1 else 0
  }

  // The room that attempts k..n-1 leave for one at n, under the rule "at most burst
  // plus rate times the elapsed time".
  function Room(b: Bucket, times: seq<real>, k: nat, n: nat): real
    requires k <= n < |times|
  {
    b.burst + Accrued(times[n] - times[k], b.rate) - Grants(b, times, k, n) as real
  }

  lemma {:induction false} AfterIsValid(b: Bucket, times: seq<real>, n: nat)
    requires Valid(b) && Monotone(b.last, times) && n <= |times|
    ensures var a := After(b, times, n);
      && Valid(a) && a.rate == b.rate && a.burst == b.burst
      && a.last == (if n == 0 then b.last else times[n - 1])
      && (n < |times| ==> a.last <= times[n])
  {
    if n > 0 {
      AfterIsValid(b, times, n - 1);
      KeepsValid(After(b, times, n - 1), times[n - 1]);
    }
  }

  // The refilled level is the least room over all earlier starting points: at most
  // every Room, and equal to one of them. The bucket starts full.
  lemma {:induction false} LevelIsLeastRoom(b: Bucket, times: seq<real>, n: nat) returns (k: nat)
    requires Valid(b) && b.tokens == b.burst && Monotone(b.last, times) && n < |times|
    ensures k <= n && Refilled(After(b, times, n), times[n]) == Room(b, times, k, n)
    ensures forall i :: 0 <= i <= n ==> Refilled(After(b, times, n), times[n]) <= Room(b, times, i, n)
  {
    hide Accrued;
    AfterIsValid(b, times, n);
    if n == 0 {
      k := 0;
      AccruedAdds(b.last, times[0], times[0], b.rate);
    } else {
      var j := LevelIsLeastRoom(b, times, n - 1);
      AfterIsValid(b, times, n - 1);
      var a := After(b, times, n);
      var gained := Accrued(times[n] - times[n - 1], b.rate);
      var spent := if Granted(b, times, n - 1) then 1.0 else 0.0;
      forall i | 0 <= i < n
        ensures Room(b, times, i, n) == Room(b, times, i, n - 1) + gained - spent
      {
        AccruedAdds(times[i], times[n - 1], times[n], b.rate);
      }
      AccruedAdds(times[n], times[n], times[n], b.rate);
      assert Room(b, times, n, n) == b.burst;
      k := if a.tokens + gained <= b.burst then j else n;
    }
  }

  // Exactly the attempts that respect every window are granted: the bucket never
  // lets too many through, and never refuses one it could have let through.
  lemma GrantedIffEveryWindowHasRoom(b: Bucket, times: seq<real>, n: nat)
    requires Valid(b) && b.tokens == b.burst && Monotone(b.last, times) && n < |times|
    ensures Granted(b, times, n) <==>
      forall k :: 0 <= k <= n ==>
        Grants(b, times, k, n) as real + 1.0 <= b.burst + Accrued(times[n] - times[k], b.rate)
  {
    hide Accrued;
    var k := LevelIsLeastRoom(b, times, n);
    assert Room(b, times, k, n) >= 1.0 <==>
      Grants(b, times, k, n) as real + 1.0 <= b.burst + Accrued(times[n] - times[k], b.rate);
    forall i | 0 <= i <= n && Granted(b, times, n)
      ensures Grants(b, times, i, n) as real + 1.0 <= b.burst + Accrued(times[n] - times[i], b.rate)
    {
      assert Room(b, times, i, n) >= 1.0;
    }
  }

  // In any time interval of length span, at most burst + rate * span attempts
  // succeed, whatever attempts are made.
  lemma RateIsBounded(b: Bucket, times: seq<real>, i: nat, j: nat, span: real)
    requires Valid(b) && b.tokens == b.burst && Monotone(b.last, times)
    requires i <= j < |times| && times[j] - times[i] <= span
    ensures Grants(b, times, i, j + 1) as real <= b.burst + Accrued(span, b.rate)
  {
    hide *;
    RateNonNegative(b);
    AccruedGrows(times[j] - times[i], span, b.rate);
    GrantsWithinRoom(b, times, i, j);
  }

  lemma RateNonNegative(b: Bucket)
    requires Valid(b)
    ensures b.rate >= 0.0
  {
  }

  lemma GrantsWithinRoom(b: Bucket, times: seq<real>, i: nat, j: nat)
    requires Valid(b) && b.tokens == b.burst && Monotone(b.last, times) && i <= j < |times|
    ensures Grants(b, times, i, j + 1) as real <= b.burst + Accrued(times[j] - times[i], b.rate)
  {
    hide Accrued, Acquire, Refilled, Monotone, After;
    LevelCoversGrant(b, times, j);
    var k := LevelIsLeastRoom(b, times, j);
    assert Refilled(After(b, times, j), times[j]) <= Room(b, times, i, j);
  }

  lemma LevelCoversGrant(b: Bucket, times: seq<real>, n: nat)
    requires Valid(b) && Monotone(b.last, times) && n < |times|
    ensures Refilled(After(b, times, n), times[n]) >= if Granted(b, times, n) then 1.0 else 0.0
  {
    AfterIsValid(b, times, n);
    LevelIsPositive(After(b, times, n), times[n]);
  }

  lemma LevelIsPositive(b: Bucket, now: real)
    requires Valid(b) && b.last <= now
    ensures Refilled(b, now) >= if Acquire(b, now).1 then 1.0 else 0.0
  {
    hide Accrued;
    AccruedAdds(b.last, now, now, b.rate);
  }

  // --- The level over time ------------------------------------------------------

  lemma LevelGrows(b: Bucket, t: real, u: real)
    requires b.rate >= 0.0 && t <= u
    ensures Refilled(b, t) <= Refilled(b, u)
    ensures b.rate > 0.0 && t < u && Refilled(b, u) < b.burst ==> Refilled(b, t) < Refilled(b, u)
    ensures b.rate == 0.0 ==> Refilled(b, t) == Refilled(b, u)
  {
    hide Accrued;
    AccruedAdds(b.last, t, u, b.rate);
    AccruedAdds(t, u, u, b.rate);
    AccruedIsPositive(u - t, b.rate);
  }

  lemma AccruedIsPositive(elapsed: real, rate: real)
    ensures elapsed > 0.0 && rate > 0.0 ==> Accrued(elapsed, rate) > 0.0
    ensures rate == 0.0 ==> Accrued(elapsed, rate) == 0.0
  {
  }

  // A try leaves what it does not take.
  lemma LevelAfterTry(b: Bucket, now: real)
    ensures var (after, ok) := Acquire(b, now);
      && Refilled(after, now) == Refilled(b, now) - (if ok then 1.0 else 0.0)
      && (ok <==> Refilled(b, now) >= 1.0) && after.burst == b.burst && after.rate == b.rate && after.last == now
  {
    hide Accrued;
    AccruedAdds(now, now, now, b.rate);
  }

  // Trying earlier never leaves more for later.
  lemma TryLowersLevel(b: Bucket, now: real, t: real)
    ensures Refilled(Acquire(b, now).0, t) <= Refilled(b, t)
  {
    hide Accrued;
    AccruedAdds(b.last, now, t, b.rate);
  }

  // When the first token is there, if there is more than one at the end.
  lemma TimeOfToken(b: Bucket, start: real, end: real) returns (t: real)
    requires b.rate >= 0.0 && start <= end && Refilled(b, start) < 1.0 < Refilled(b, end)
    ensures start <= t < end && Refilled(b, t) >= 1.0
  {
    LevelGrows(b, start, end);
    t := b.last + (1.0 - b.tokens) / b.rate;
    AccruedFor(1.0 - b.tokens, b.rate);
    assert t - b.last == (1.0 - b.tokens) / b.rate;
    assert Refilled(b, t) == 1.0;
    if t < start {
      LevelGrows(b, t, start);
    } else if end <= t {
      LevelGrows(b, end, t);
    }
  }

  lemma AccruedFor(tokens: real, rate: real)
    requires rate > 0.0
    ensures Accrued(tokens / rate, rate) == tokens
  {
  }

  // With a token or a positive rate there is a token after some time.
  lemma TokenComes(b: Bucket, now: real) returns (dt: real)
    requires b.burst >= 1.0 && (b.rate > 0.0 || (b.rate == 0.0 && b.tokens >= 1.0))
    ensures dt >= 0.0 && forall later: real :: later >= now + dt ==> Refilled(b, later) >= 1.0
  {
    var t := b.last;
    AccruedAdds(t, t, t, b.rate);
    if b.rate > 0.0 {
      t := b.last + (1.0 - b.tokens) / b.rate;
      AccruedFor(1.0 - b.tokens, b.rate);
      assert t - b.last == (1.0 - b.tokens) / b.rate;
    }
    assert Refilled(b, t) >= 1.0;
    dt := if t > now then t - now else 0.0;
    if b.rate > 0.0 {
      forall later: real | later >= now + dt
        ensures Refilled(b, later) >= 1.0
      {
        LevelGrows(b, t, later);
      }
    } else {
      forall later: real
        ensures Refilled(b, later) >= 1.0
      {
        LevelStays(b, t, later);
      }
    }
  }

  lemma LevelStays(b: Bucket, t: real, u: real)
    requires b.rate == 0.0
    ensures Refilled(b, t) == Refilled(b, u)
  {
    if t <= u {
      LevelGrows(b, t, u);
    } else {
      LevelGrows(b, u, t);
    }
  }
}

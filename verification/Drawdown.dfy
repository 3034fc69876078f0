// backtest/multi_strategy_backtester.py: drawdown figures from one pass over the
// equity curve.
module Drawdowns {
  import opened Numbers

  datatype Figures = Figures(maxUsdt: real, maxPct: real, longestDays: nat)

  // The highest equity up to day j.
  function Peak(eq: seq<real>, j: nat): real
    requires j < |eq|
  {
    if j == 0 then eq[0] else Max(Peak(eq, j - 1), eq[j])
  }

  predicate IsBelow(eq: seq<real>, k: nat)
    requires k < |eq|
  {
    eq[k] < Peak(eq, k)
  }

  // Day k is higher than every day before it.
  predicate IsNewHigh(eq: seq<real>, k: nat)
    requires 0 < k < |eq|
  {
    eq[k] > Peak(eq, k - 1)
  }

  // The days a..b-1 that lie below the peak.
  function BelowDays(eq: seq<real>, a: nat, b: nat): (n: nat)
    requires a <= b <= |eq|
    ensures n <= b - a
  {
    if a == b then 0 else BelowDays(eq, a, b - 1) + if IsBelow(eq, b - 1) then 1 else 0
  }

  // No day behind a and up to b sets a new high.
  ghost predicate NoNewHigh(eq: seq<real>, a: nat, b: nat)
    requires a <= b < |eq|
  {
    forall k :: a < k <= b ==> !IsNewHigh(eq, k)
  }

  function PctBelow(eq: seq<real>, j: nat): real
    requires j < |eq|
  {
    if Peak(eq, j) > 0.0 then (Peak(eq, j) - eq[j]) / Peak(eq, j) else 0.0
  }

  // d is the largest fall from a day to the same or a later one.
  ghost predicate IsMaxFall(eq: seq<real>, d: real) {
    && (forall i, j :: 0 <= i <= j < |eq| ==> eq[i] - eq[j] <= d)
    && (exists i, j :: 0 <= i <= j < |eq| && eq[i] - eq[j] == d)
  }

  // n is the largest number of days below the peak between two new highs.
  ghost predicate IsLongestBelow(eq: seq<real>, n: nat) {
    && (forall a, b :: 0 <= a <= b < |eq| && NoNewHigh(eq, a, b) ==> BelowDays(eq, a, b + 1) <= n)
    && (exists a, b :: 0 <= a <= b < |eq| && NoNewHigh(eq, a, b) && BelowDays(eq, a, b + 1) == n)
  }

  // The percentage goes with the first day that falls by d.
  ghost predicate IsPctOfFall(eq: seq<real>, d: real, pct: real) {
    || (d == 0.0 && pct == 0.0)
    || (exists j :: 0 <= j < |eq| && Peak(eq, j) - eq[j] == d && pct == PctBelow(eq, j)
          && forall k :: 0 <= k < j ==> Peak(eq, k) - eq[k] < d)
  }

  lemma {:induction false} PeakIsHighest(eq: seq<real>, j: nat)
    requires j < |eq|
    ensures forall i :: 0 <= i <= j ==> eq[i] <= Peak(eq, j)
    ensures exists i :: 0 <= i <= j && eq[i] == Peak(eq, j)
  {
    if j > 0 {
      PeakIsHighest(eq, j - 1);
      if eq[j] <= Peak(eq, j - 1) {
        var i :| 0 <= i <= j - 1 && eq[i] == Peak(eq, j - 1);
        assert eq[i] == Peak(eq, j);
      } else {
        assert eq[j] == Peak(eq, j);
      }
    } else {
      assert eq[0] == Peak(eq, 0);
    }
  }

  lemma {:induction false} FewerInPart(eq: seq<real>, a: nat, b: nat, c: nat)
    requires a <= b <= c <= |eq|
    ensures BelowDays(eq, b, c) <= BelowDays(eq, a, c)
    decreases c
  {
    if b < c {
      FewerInPart(eq, a, b, c - 1);
    }
  }

  // The falls from the peak decide: the largest of them is the largest fall.
  lemma FallsFromPeak(eq: seq<real>, d: real, j: nat)
    requires j < |eq| && d == Peak(eq, j) - eq[j]
    requires forall k :: 0 <= k < |eq| ==> Peak(eq, k) - eq[k] <= d
    ensures IsMaxFall(eq, d)
  {
    forall i, k | 0 <= i <= k < |eq|
      ensures eq[i] - eq[k] <= d
    {
      PeakIsHighest(eq, k);
    }
    PeakIsHighest(eq, j);
    var i :| 0 <= i <= j && eq[i] == Peak(eq, j);
    assert eq[i] - eq[j] == d;
  }

  // The days below since the last new high, seen before day i.
  ghost predicate RunSince(eq: seq<real>, since: nat, i: nat, days: nat, longest: nat) {
    && since < i <= |eq|
    && (since == 0 || IsNewHigh(eq, since))
    && NoNewHigh(eq, since, i - 1)
    && days == BelowDays(eq, since, i)
    && (forall a, b :: 0 <= a <= b < i && NoNewHigh(eq, a, b) ==> BelowDays(eq, a, b + 1) <= longest)
    && (exists a, b :: 0 <= a <= b < i && NoNewHigh(eq, a, b) && BelowDays(eq, a, b + 1) == longest)
  }

  // One more day that is no new high.
  lemma RunGoesOn(eq: seq<real>, since: nat, i: nat, days: nat, longest: nat)
    requires i < |eq| && RunSince(eq, since, i, days, longest) && !IsNewHigh(eq, i)
    ensures var now := if IsBelow(eq, i) then days + 1 else days;
      RunSince(eq, since, i + 1, now, if now > longest then now else longest)
  {
    var now := if IsBelow(eq, i) then days + 1 else days;
    var most := if now > longest then now else longest;
    assert NoNewHigh(eq, since, i) && BelowDays(eq, since, i + 1) == now;
    forall a, b | 0 <= a <= b < i + 1 && NoNewHigh(eq, a, b)
      ensures BelowDays(eq, a, b + 1) <= most
    {
      if b == i {
        RunHoldsStretch(eq, since, a, i);
        FewerInPart(eq, since, a, i + 1);
      }
    }
    if now <= longest {
      var a, b :| 0 <= a <= b < i && NoNewHigh(eq, a, b) && BelowDays(eq, a, b + 1) == longest;
      assert NoNewHigh(eq, a, b) && BelowDays(eq, a, b + 1) == most;
    }
  }

  lemma RunHoldsStretch(eq: seq<real>, since: nat, a: nat, b: nat)
    requires a <= b < |eq| && since <= b && NoNewHigh(eq, a, b)
    requires since == 0 || IsNewHigh(eq, since)
    ensures since <= a
  {
  }

  // A new high starts a new run.
  lemma RunStarts(eq: seq<real>, since: nat, i: nat, days: nat, longest: nat)
    requires i < |eq| && RunSince(eq, since, i, days, longest) && IsNewHigh(eq, i)
    ensures RunSince(eq, i, i + 1, 0, longest)
  {
    assert !IsBelow(eq, i);
    assert BelowDays(eq, i, i) == 0;
    assert BelowDays(eq, i, i + 1) == 0;
    assert NoNewHigh(eq, i, i);
    forall a, b | 0 <= a <= b < i + 1 && NoNewHigh(eq, a, b)
      ensures BelowDays(eq, a, b + 1) <= longest
    {
      if b == i {
        RunHoldsStretch(eq, i, a, i);
      }
    }
    var a, b :| 0 <= a <= b < i && NoNewHigh(eq, a, b) && BelowDays(eq, a, b + 1) == longest;
    assert NoNewHigh(eq, a, b) && BelowDays(eq, a, b + 1) == longest;
  }

  // The largest fall from the peak seen before day i, on day worst, and its percentage.
  ghost predicate WorstSoFar(eq: seq<real>, i: nat, d: real, pct: real, worst: nat)
    requires i <= |eq|
  {
    if i == 0 then d == 0.0 && pct == 0.0
    else
      && worst < i && d == Peak(eq, worst) - eq[worst] && d >= 0.0
      && (forall k :: 0 <= k < i ==> Peak(eq, k) - eq[k] <= d)
      && ((d == 0.0 && pct == 0.0)
          || (pct == PctBelow(eq, worst) && forall k :: 0 <= k < worst ==> Peak(eq, k) - eq[k] < d))
  }

  lemma WorstStep(eq: seq<real>, i: nat, d: real, pct: real, worst: nat)
    requires i < |eq| && WorstSoFar(eq, i, d, pct, worst)
    ensures var dd := Peak(eq, i) - eq[i];
      if dd > d then WorstSoFar(eq, i + 1, dd, PctBelow(eq, i), i)
      else WorstSoFar(eq, i + 1, d, pct, if i == 0 then 0 else worst)
  {
    hide PctBelow;
  }

  lemma PeakStep(eq: seq<real>, i: nat)
    requires i < |eq|
    ensures var before := if i == 0 then eq[0] else Peak(eq, i - 1);
      && Peak(eq, i) == (if eq[i] > before then eq[i] else before)
      && (i > 0 ==> (IsNewHigh(eq, i) <==> eq[i] > before))
      && (i == 0 ==> eq[i] == before)
      && (IsBelow(eq, i) <==> Peak(eq, i) - eq[i] > 0.0)
  {
  }

  lemma RunStep(eq: seq<real>, since: nat, i: nat, days: nat, longest: nat) returns (start: nat)
    requires i < |eq| && (i > 0 ==> RunSince(eq, since, i, days, longest)) && days <= longest
    requires i == 0 ==> days == 0 && longest == 0
    ensures var now := if i > 0 && IsNewHigh(eq, i) then 0 else if IsBelow(eq, i) then days + 1 else days;
      RunSince(eq, start, i + 1, now, if now > longest then now else longest)
  {
    if i == 0 {
      FirstDay(eq);
      start := 0;
    } else if IsNewHigh(eq, i) {
      RunStarts(eq, since, i, days, longest);
      start := i;
    } else {
      RunGoesOn(eq, since, i, days, longest);
      start := since;
    }
  }

  method DrawdownFigures(eq: seq<real>) returns (f: Figures)
    requires eq != []
    ensures IsMaxFall(eq, f.maxUsdt)
    ensures IsPctOfFall(eq, f.maxUsdt, f.maxPct)
    ensures IsLongestBelow(eq, f.longestDays)
  {
    hide Peak, IsBelow, IsNewHigh, PctBelow, WorstSoFar, RunSince, IsMaxFall, IsLongestBelow, IsPctOfFall;
    var peak := eq[0];
    var maxUsdt, maxPct := 0.0, 0.0;
    var currentDays, longest := 0, 0;
    var inDrawdown := false;
    ghost var since, worst := 0, 0;
    StartOfPass(eq);
    for i := 0 to |eq|
      invariant peak == if i == 0 then eq[0] else Peak(eq, i - 1)
      invariant WorstSoFar(eq, i, maxUsdt, maxPct, worst)
      invariant 0 <= currentDays <= longest && (currentDays > 0 ==> inDrawdown)
      invariant i == 0 ==> longest == 0
      invariant i > 0 ==> RunSince(eq, since, i, currentDays, longest)
    {
      var e := eq[i];
      PeakStep(eq, i);
      WorstStep(eq, i, maxUsdt, maxPct, worst);
      since := RunStep(eq, since, i, currentDays, longest);
      if e > peak {
        peak := e;
        if inDrawdown {
          longest := if currentDays > longest then currentDays else longest;
          currentDays := 0;
          inDrawdown := false;
        }
      }
      var dd := peak - e;
      var ddPct := if peak > 0.0 then dd / peak else 0.0;
      PctIs(eq, i);
      worst := if dd > maxUsdt then i else if i == 0 then 0 else worst;
      if dd > maxUsdt {
        maxUsdt := dd;
        maxPct := ddPct;
      }
      if dd > 0.0 {
        inDrawdown := true;
        currentDays := currentDays + 1;
        longest := if currentDays > longest then currentDays else longest;
      }
    }
    WorstIsMax(eq, maxUsdt, maxPct, worst);
    RunIsLongest(eq, since, currentDays, longest);
    f := Figures(maxUsdt, maxPct, longest);
  }

  lemma StartOfPass(eq: seq<real>)
    ensures WorstSoFar(eq, 0, 0.0, 0.0, 0)
  {
  }

  lemma PctIs(eq: seq<real>, i: nat)
    requires i < |eq|
    ensures PctBelow(eq, i) == if Peak(eq, i) > 0.0 then (Peak(eq, i) - eq[i]) / Peak(eq, i) else 0.0
  {
  }

  lemma WorstIsMax(eq: seq<real>, d: real, pct: real, worst: nat)
    requires eq != [] && WorstSoFar(eq, |eq|, d, pct, worst)
    ensures IsMaxFall(eq, d) && IsPctOfFall(eq, d, pct)
  {
    hide PctBelow;
    FallsFromPeak(eq, d, worst);
  }

  lemma RunIsLongest(eq: seq<real>, since: nat, days: nat, longest: nat)
    requires RunSince(eq, since, |eq|, days, longest)
    ensures IsLongestBelow(eq, longest)
  {
  }

  lemma FirstDay(eq: seq<real>)
    requires eq != []
    ensures RunSince(eq, 0, 1, 0, 0) && !IsBelow(eq, 0)
  {
    assert BelowDays(eq, 0, 0) == 0;
    assert BelowDays(eq, 0, 1) == 0 && NoNewHigh(eq, 0, 0);
  }

  // --- The percentage ------------------------------------------------------------------

  // The first day that falls by d from its peak.
  ghost predicate IsFirstWorst(eq: seq<real>, d: real, w: nat) {
    w < |eq| && Peak(eq, w) - eq[w] == d && forall k :: 0 <= k < w ==> Peak(eq, k) - eq[k] < d
  }

  // The reported percentage is that of the first worst day, which is the only one.
  lemma PctIsOfFirstWorst(eq: seq<real>, d: real, pct: real) returns (w: nat)
    requires eq != [] && IsMaxFall(eq, d) && IsPctOfFall(eq, d, pct)
    ensures IsFirstWorst(eq, d, w) && pct == PctBelow(eq, w)
    ensures forall k :: 0 <= k < |eq| ==> Peak(eq, k) - eq[k] <= d
  {
    forall k | 0 <= k < |eq|
      ensures Peak(eq, k) - eq[k] <= d
    {
      PeakIsHighest(eq, k);
      var i :| 0 <= i <= k && eq[i] == Peak(eq, k);
      assert eq[i] - eq[k] <= d;
    }
    if d == 0.0 && pct == 0.0 {
      w := 0;
    } else {
      w :| 0 <= w < |eq| && Peak(eq, w) - eq[w] == d && pct == PctBelow(eq, w)
        && forall k :: 0 <= k < w ==> Peak(eq, k) - eq[k] < d;
    }
  }

  lemma OneFirstWorst(eq: seq<real>, d: real, w: nat, v: nat)
    requires IsFirstWorst(eq, d, w) && IsFirstWorst(eq, d, v)
    ensures w == v
  {
    hide Peak;
  }

  // Day j falls by a larger share than day w, from a lower peak.
  predicate Hidden(eq: seq<real>, w: nat, j: nat)
    requires w < |eq| && j < |eq|
  {
    var p, q := Peak(eq, w), Peak(eq, j);
    if p > 0.0 then 0.0 < q < p && (q - eq[j]) * p > (p - eq[w]) * q
    else q > 0.0 && eq[j] < q
  }

  // A share compared by multiplying out.
  lemma ShareExceeds(a: real, p: real, b: real, q: real)
    requires p > 0.0 && q > 0.0
    ensures b / q > a / p <==> b * p > a * q
  {
    var x, y := a / p, b / q;
    assert a == x * p && b == y * q;
    assert b * p - a * q == (y - x) * (p * q);
    ProductSign(y - x, p * q);
  }

  lemma ProductSign(x: real, y: real)
    requires y > 0.0
    ensures x > 0.0 <==> x * y > 0.0
  {
  }

  // A fall of a from a peak of p, as a share of it.
  function Share(p: real, a: real): real {
    if p > 0.0 then a / p else 0.0
  }

  // No fall from a peak at least as high is a larger share than the largest fall.
  lemma SmallerShare(a: real, p: real, b: real, q: real)
    requires a >= 0.0 && 0.0 < p <= q && b <= a
    ensures b * p <= a * q
  {
    assert a * q - b * p == a * (q - p) + (a - b) * p;
    ProductNotNegative(a, q - p);
    ProductNotNegative(a - b, p);
  }

  lemma ProductNotNegative(x: real, y: real)
    requires x >= 0.0 && y >= 0.0
    ensures x * y >= 0.0
  {
  }

  lemma LargerShareIff(p: real, a: real, q: real, b: real)
    requires 0.0 <= b <= a
    ensures Share(q, b) > Share(p, a) <==> if p > 0.0 then 0.0 < q < p && b * p > a * q else q > 0.0 && b > 0.0
  {
    if p > 0.0 && q > 0.0 {
      ShareExceeds(a, p, b, q);
      if p <= q {
        SmallerShare(a, p, b, q);
      }
    } else if p > 0.0 {
      ShareSign(a, p);
    } else if q > 0.0 {
      ShareSign(b, q);
    }
  }

  lemma PctIsShare(eq: seq<real>, j: nat)
    requires j < |eq|
    ensures PctBelow(eq, j) == Share(Peak(eq, j), Peak(eq, j) - eq[j]) && Peak(eq, j) - eq[j] >= 0.0
  {
    PeakIsHighest(eq, j);
  }

  lemma BeatsIffHidden(eq: seq<real>, w: nat, j: nat)
    requires w < |eq| && j < |eq| && Peak(eq, j) - eq[j] <= Peak(eq, w) - eq[w]
    ensures PctBelow(eq, j) > PctBelow(eq, w) <==> Hidden(eq, w, j)
  {
    hide Share, PctBelow, Peak;
    PctIsShare(eq, w);
    PctIsShare(eq, j);
    LargerShareIff(Peak(eq, w), Peak(eq, w) - eq[w], Peak(eq, j), Peak(eq, j) - eq[j]);
  }

  lemma ShareSign(a: real, p: real)
    requires a >= 0.0 && p > 0.0
    ensures a / p >= 0.0 && (a / p > 0.0 <==> a > 0.0)
  {
    ShareExceeds(0.0, 1.0, a, p);
    assert 0.0 / 1.0 == 0.0;
    ShareNotNegative(a, p);
  }

  lemma ShareNotNegative(a: real, p: real)
    requires a >= 0.0 && p > 0.0
    ensures a / p >= 0.0
  {
  }

  // The exact condition: the reported percentage is the largest of all days if and only
  // if no day under a lower peak than that of the first worst day falls by a larger share
  // of it (no day falls from a positive peak, when that day's peak is not positive).
  lemma PctIsLargestIff(eq: seq<real>, d: real, pct: real, w: nat)
    requires eq != [] && IsMaxFall(eq, d) && IsPctOfFall(eq, d, pct) && IsFirstWorst(eq, d, w)
    ensures (forall j :: 0 <= j < |eq| ==> PctBelow(eq, j) <= pct)
       <==> forall j :: 0 <= j < |eq| ==> !Hidden(eq, w, j)
  {
    hide PctBelow, Hidden, Peak, IsMaxFall;
    var first := PctIsOfFirstWorst(eq, d, pct);
    OneFirstWorst(eq, d, w, first);
    forall j | 0 <= j < |eq|
      ensures PctBelow(eq, j) > pct <==> Hidden(eq, w, j)
    {
      BeatsIffHidden(eq, w, j);
    }
  }

  // In particular it is the largest on a curve that starts above zero and sets no new
  // high between its first fall and the first worst day.
  lemma PctIsLargestWithoutNewHigh(eq: seq<real>, d: real, pct: real, w: nat, fall: nat)
    requires eq != [] && eq[0] > 0.0 && IsMaxFall(eq, d) && IsPctOfFall(eq, d, pct) && IsFirstWorst(eq, d, w)
    requires fall <= w && NoNewHigh(eq, fall, w) && forall k :: 0 <= k < fall ==> !IsBelow(eq, k)
    ensures forall j :: 0 <= j < |eq| ==> PctBelow(eq, j) <= pct
  {
    hide PctBelow, IsMaxFall;
    PctIsLargestIff(eq, d, pct, w);
    PeakStays(eq, fall, w);
    forall j | 0 <= j < |eq|
      ensures !Hidden(eq, w, j)
    {
      PeakGrows(eq, 0, w);
      if j < fall {
        NotBelowHidesNothing(eq, w, j);
      } else if j <= w {
        PeakGrows(eq, fall, j);
      } else {
        PeakGrows(eq, w, j);
      }
    }
  }

  lemma NotBelowHidesNothing(eq: seq<real>, w: nat, j: nat)
    requires w < |eq| && j < |eq| && Peak(eq, w) > 0.0 && !IsBelow(eq, j)
    ensures !Hidden(eq, w, j)
  {
    PeakIsHighest(eq, w);
    PeakIsHighest(eq, j);
    assert Peak(eq, j) - eq[j] == 0.0;
    if Peak(eq, j) > 0.0 {
      ProductNotNegative(Peak(eq, w) - eq[w], Peak(eq, j));
    }
  }

  lemma {:induction false} PeakGrows(eq: seq<real>, i: nat, j: nat)
    requires i <= j < |eq|
    ensures Peak(eq, i) <= Peak(eq, j)
    decreases j
  {
    if i < j {
      PeakGrows(eq, i, j - 1);
    }
  }

  lemma {:induction false} PeakStays(eq: seq<real>, i: nat, j: nat)
    requires i <= j < |eq| && NoNewHigh(eq, i, j)
    ensures Peak(eq, i) == Peak(eq, j)
    decreases j
  {
    if i < j {
      PeakStays(eq, i, j - 1);
      assert !IsNewHigh(eq, j);
    }
  }

  // It need not be: a fall of 60 from 100 is hidden by a later one of 100 from 1000.
  lemma PctIsNotLargest()
    ensures var eq := [100.0, 40.0, 1000.0, 900.0];
      && IsMaxFall(eq, 100.0) && IsPctOfFall(eq, 100.0, 0.1) && PctBelow(eq, 1) == 0.6
  {
    var eq := [100.0, 40.0, 1000.0, 900.0];
    assert Peak(eq, 1) == 100.0;
    assert Peak(eq, 2) == 1000.0;
    assert Peak(eq, 3) == 1000.0;
    forall k | 0 <= k < 4
      ensures Peak(eq, k) - eq[k] <= 100.0 && (k < 3 ==> Peak(eq, k) - eq[k] < 100.0)
    {
    }
    FallsFromPeak(eq, 100.0, 3);
    assert PctBelow(eq, 3) == 0.1;
  }
}

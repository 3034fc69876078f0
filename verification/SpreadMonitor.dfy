// core/spread_monitor.py: alerts on the health of a spread, bar by bar.
module SpreadMonitors {
  import opened Numbers

  datatype Config = Config(
    controlLimit: real, maxHalfLife: real, pDivergence: real, stuckBars: int, breakBars: int, zscoreWindow: nat,
    minBars: int)

  datatype Bar = Bar(spread: real, zscore: real, halfLife: real, pDiag: real)

  datatype Alert =
    | SpreadDrift(value: real)
    | CointegrationBreak(bars: int)
    | HalfLifeSlow(value: real)
    | KalmanDivergence(value: real)
    | StuckPosition(bars: int)

  datatype Report = Report(healthy: bool, alerts: seq<Alert>, barsSinceCross: nat)

  // --- From the whole history ---------------------------------------------------------------

  // Bar i crosses zero: it is zero or lies on the other side than the bar before it.
  predicate CrossesAt(bars: seq<Bar>, i: nat)
    requires 1 <= i < |bars|
  {
    var prev, curr := bars[i - 1].spread, bars[i].spread;
    (prev < 0.0 && curr >= 0.0) || (prev >= 0.0 && curr < 0.0) || curr == 0.0
  }

  // The same said shortly: it is zero, or only one of the two is negative.
  predicate ChangesSign(bars: seq<Bar>, i: nat)
    requires 1 <= i < |bars|
  {
    bars[i].spread == 0.0 || (bars[i].spread < 0.0) != (bars[i - 1].spread < 0.0)
  }

  // d bars ago was the last crossing, or the first bar of all.
  ghost predicate IsSinceCross(bars: seq<Bar>, d: nat) {
    && (bars == [] ==> d == 0)
    && (bars != [] ==>
          && d < |bars|
          && (d < |bars| - 1 ==> ChangesSign(bars, |bars| - 1 - d))
          && forall i :: |bars| - d <= i < |bars| ==> !ChangesSign(bars, i))
  }

  predicate Outside(cfg: Config, b: Bar) {
    b.zscore > cfg.controlLimit || b.zscore < -cfg.controlLimit
  }

  // Past the warm-up and beyond the control limit.
  predicate ExtremeAt(cfg: Config, bars: seq<Bar>, i: nat)
    requires i < |bars|
  {
    i + 1 >= cfg.minBars && Outside(cfg, bars[i])
  }

  // The last n bars all were.
  ghost predicate ExtremeFor(cfg: Config, bars: seq<Bar>, n: int) {
    n <= |bars| && forall i :: |bars| - n <= i < |bars| ==> 0 <= i && ExtremeAt(cfg, bars, i)
  }

  function SinceCross(bars: seq<Bar>): nat {
    if |bars| < 2 || CrossesAt(bars, |bars| - 1) then 0 else SinceCross(bars[..|bars| - 1]) + 1
  }

  function ExtremeRun(cfg: Config, bars: seq<Bar>): nat {
    if bars == [] || !ExtremeAt(cfg, bars, |bars| - 1) then 0 else ExtremeRun(cfg, bars[..|bars| - 1]) + 1
  }

  // The alerts of a bar past the warm-up, in the order they are raised.
  function Raised(cfg: Config, bar: Bar, run: nat, sinceCross: nat): seq<Alert> {
    (if Abs(bar.zscore) > cfg.controlLimit then [SpreadDrift(Abs(bar.zscore))] else [])
    + (if run >= cfg.breakBars then [CointegrationBreak(run)] else [])
    + (if bar.halfLife > cfg.maxHalfLife then [HalfLifeSlow(bar.halfLife)] else [])
    + (if bar.pDiag > cfg.pDivergence then [KalmanDivergence(bar.pDiag)] else [])
    + (if sinceCross >= cfg.stuckBars then [StuckPosition(sinceCross)] else [])
  }

  function AlertsOf(cfg: Config, bars: seq<Bar>, sinceCross: nat): seq<Alert>
    requires bars != []
  {
    if |bars| < cfg.minBars then [] else Raised(cfg, bars[|bars| - 1], ExtremeRun(cfg, bars), sinceCross)
  }

  // The counter of bars since a crossing. It compares neighbours inside the window, so
  // that a window of one bar sees none.
  function Counter(cfg: Config, bars: seq<Bar>): nat {
    if cfg.zscoreWindow >= 2 then SinceCross(bars) else 0
  }

  // The spreads a buffer of the newest size ones would hold.
  function Window(bars: seq<Bar>, size: nat): seq<real> {
    if bars == [] then []
    else
      var s := Window(bars[..|bars| - 1], size) + [bars[|bars| - 1].spread];
      if |s| > size then s[1..] else s
  }

  // A window of two bars or more ends with the spreads of the last two.
  lemma {:induction false} WindowEnds(bars: seq<Bar>, size: nat)
    ensures var w := Window(bars, size);
      && |w| == (if |bars| <= size then |bars| else size)
      && (|w| >= 1 ==> w[|w| - 1] == bars[|bars| - 1].spread)
      && (|w| >= 2 ==> w[|w| - 2] == bars[|bars| - 2].spread)
  {
    if bars != [] {
      WindowEnds(bars[..|bars| - 1], size);
    }
  }

  class SpreadMonitor {
    const cfg: Config
    var spreadHistory: seq<real>
    var barsSinceCross: nat
    var consecutiveExtreme: nat
    var barCount: nat
    // All bars since the last reset.
    ghost var bars: seq<Bar>

    ghost predicate Valid()
      reads this
    {
      && barCount == |bars|
      && spreadHistory == Window(bars, cfg.zscoreWindow)
      && barsSinceCross == Counter(cfg, bars)
      && consecutiveExtreme == ExtremeRun(cfg, bars)
    }

    constructor (cfg: Config)
      ensures Valid() && this.cfg == cfg && bars == []
    {
      this.cfg := cfg;
      spreadHistory := [];
      barsSinceCross := 0;
      consecutiveExtreme := 0;
      barCount := 0;
      bars := [];
    }

    method Update(bar: Bar) returns (report: Report)
      requires Valid()
      modifies this
      ensures Valid() && bars == old(bars) + [bar]
      ensures report.alerts == AlertsOf(cfg, bars, Counter(cfg, bars))
      ensures report.barsSinceCross == Counter(cfg, bars) && (report.healthy <==> report.alerts == [])
    {
      hide CrossesAt, ExtremeAt, ExtremeRun, SinceCross, Counter, Raised;
      ghost var before := bars;
      bars := bars + [bar];
      assert bars[..|bars| - 1] == before;
      barCount := barCount + 1;
      spreadHistory := spreadHistory + [bar.spread];
      if |spreadHistory| > cfg.zscoreWindow {
        spreadHistory := spreadHistory[1..];
      }
      hide Window;
      UpdateCrossCounter(bar);
      RunGrows(cfg, bars);
      if barCount < cfg.minBars {
        return Report(true, [], barsSinceCross);
      }
      var alerts := RaiseAlerts(bar);
      return Report(alerts == [], alerts, barsSinceCross);
    }

    method RaiseAlerts(bar: Bar) returns (alerts: seq<Alert>)
      modifies this`consecutiveExtreme
      ensures consecutiveExtreme == if Abs(bar.zscore) > cfg.controlLimit then old(consecutiveExtreme) + 1 else 0
      ensures alerts == Raised(cfg, bar, consecutiveExtreme, barsSinceCross)
    {
      alerts := [];
      var absZ := Abs(bar.zscore);
      if absZ > cfg.controlLimit {
        consecutiveExtreme := consecutiveExtreme + 1;
        alerts := alerts + [SpreadDrift(absZ)];
      } else {
        consecutiveExtreme := 0;
      }
      if consecutiveExtreme >= cfg.breakBars {
        alerts := alerts + [CointegrationBreak(consecutiveExtreme)];
      }
      if bar.halfLife > cfg.maxHalfLife {
        alerts := alerts + [HalfLifeSlow(bar.halfLife)];
      }
      if bar.pDiag > cfg.pDivergence {
        alerts := alerts + [KalmanDivergence(bar.pDiag)];
      }
      if barsSinceCross >= cfg.stuckBars {
        alerts := alerts + [StuckPosition(barsSinceCross)];
      }
    }

    method UpdateCrossCounter(bar: Bar)
      requires bars != [] && spreadHistory == Window(bars, cfg.zscoreWindow)
      requires barsSinceCross == Counter(cfg, bars[..|bars| - 1])
      modifies this`barsSinceCross
      ensures barsSinceCross == Counter(cfg, bars)
    {
      WindowEnds(bars, cfg.zscoreWindow);
      if |spreadHistory| < 2 {
        return;
      }
      var prev := spreadHistory[|spreadHistory| - 2];
      var curr := spreadHistory[|spreadHistory| - 1];
      if (prev < 0.0 && curr >= 0.0) || (prev >= 0.0 && curr < 0.0) || curr == 0.0 {
        barsSinceCross := 0;
      } else {
        barsSinceCross := barsSinceCross + 1;
      }
    }

    method Reset()
      modifies this
      ensures Valid() && bars == []
    {
      spreadHistory := [];
      barsSinceCross := 0;
      consecutiveExtreme := 0;
      barCount := 0;
      bars := [];
    }
  }

  lemma RunGrows(cfg: Config, bars: seq<Bar>)
    requires bars != []
    ensures ExtremeRun(cfg, bars)
         == if |bars| >= cfg.minBars && Abs(bars[|bars| - 1].zscore) > cfg.controlLimit
            then ExtremeRun(cfg, bars[..|bars| - 1]) + 1 else 0
    ensures |bars| < cfg.minBars ==> ExtremeRun(cfg, bars[..|bars| - 1]) == 0
  {
  }

  // --- What counters and alerts say ------------------------------------------------------------

  // The recursion counts the distance to the last crossing in the unbounded history.
  lemma {:induction false} SinceCrossIsDistance(bars: seq<Bar>)
    ensures IsSinceCross(bars, SinceCross(bars))
  {
    if |bars| >= 2 && !CrossesAt(bars, |bars| - 1) {
      var front := bars[..|bars| - 1];
      SinceCrossIsDistance(front);
      forall i | 1 <= i < |front|
        ensures ChangesSign(front, i) <==> ChangesSign(bars, i)
      {
      }
    }
  }

  // No other number is that distance.
  lemma DistanceIsUnique(bars: seq<Bar>, d: nat, e: nat)
    requires IsSinceCross(bars, d) && IsSinceCross(bars, e)
    ensures d == e
  {
  }

  // The monitor's counter is the distance to the last crossing exactly when its window
  // holds two bars or the newest bar crosses or is the first.
  lemma CounterIsDistance(cfg: Config, bars: seq<Bar>)
    ensures IsSinceCross(bars, Counter(cfg, bars))
       <==> cfg.zscoreWindow >= 2 || |bars| <= 1 || ChangesSign(bars, |bars| - 1)
  {
    SinceCrossIsDistance(bars);
    if IsSinceCross(bars, Counter(cfg, bars)) {
      DistanceIsUnique(bars, Counter(cfg, bars), SinceCross(bars));
    }
  }

  lemma {:induction false} RunIsExtremeFor(cfg: Config, bars: seq<Bar>, n: int)
    ensures ExtremeRun(cfg, bars) >= n <==> ExtremeFor(cfg, bars, n)
    decreases |bars|
  {
    if bars != [] {
      var m := |bars| - 1;
      var front := bars[..m];
      RunIsExtremeFor(cfg, front, n - 1);
      forall i | 0 <= i < m
        ensures ExtremeAt(cfg, front, i) <==> ExtremeAt(cfg, bars, i)
      {
      }
      if n > 0 && ExtremeAt(cfg, bars, m) && ExtremeFor(cfg, front, n - 1) {
        forall i | |bars| - n <= i < |bars|
          ensures 0 <= i && ExtremeAt(cfg, bars, i)
        {
          if i < m {
            assert ExtremeAt(cfg, front, i);
          }
        }
      }
      if n > 0 && ExtremeFor(cfg, bars, n) {
        assert ExtremeAt(cfg, bars, m);
        forall i | |front| - (n - 1) <= i < |front|
          ensures 0 <= i && ExtremeAt(cfg, front, i)
        {
          assert ExtremeAt(cfg, bars, i);
        }
      }
    }
  }

  // A cointegration break is reported exactly when the last cointegration_break_bars bars
  // were all past the warm-up and outside the control limit.
  lemma BreakIffExtremeFor(cfg: Config, bars: seq<Bar>, sinceCross: nat)
    requires bars != []
    ensures (exists k :: CointegrationBreak(k) in AlertsOf(cfg, bars, sinceCross))
       <==> |bars| >= cfg.minBars && ExtremeFor(cfg, bars, cfg.breakBars)
  {
    var run := ExtremeRun(cfg, bars);
    RunIsExtremeFor(cfg, bars, cfg.breakBars);
    if |bars| >= cfg.minBars && run >= cfg.breakBars {
      assert CointegrationBreak(run) in AlertsOf(cfg, bars, sinceCross);
    }
  }

  // The number it carries is the length of the whole run.
  lemma BreakCountsRun(cfg: Config, bars: seq<Bar>, sinceCross: nat, k: int)
    requires bars != [] && CointegrationBreak(k) in AlertsOf(cfg, bars, sinceCross)
    ensures ExtremeFor(cfg, bars, k) && !ExtremeFor(cfg, bars, k + 1)
  {
    RunIsExtremeFor(cfg, bars, k);
    RunIsExtremeFor(cfg, bars, k + 1);
    hide ExtremeFor, ExtremeRun;
  }

  // The other alerts look at the newest bar alone: past the warm-up a z-score outside the
  // control limits drifts, and a half-life or an uncertainty above its limit is reported.
  lemma NewestBarAlerts(cfg: Config, bars: seq<Bar>, sinceCross: nat, value: real)
    requires bars != []
    ensures var b, alerts := bars[|bars| - 1], AlertsOf(cfg, bars, sinceCross);
      && (SpreadDrift(value) in alerts <==>
            |bars| >= cfg.minBars && Outside(cfg, b) && value == if b.zscore < 0.0 then -b.zscore else b.zscore)
      && (HalfLifeSlow(value) in alerts <==>
            |bars| >= cfg.minBars && b.halfLife > cfg.maxHalfLife && value == b.halfLife)
      && (KalmanDivergence(value) in alerts <==>
            |bars| >= cfg.minBars && b.pDiag > cfg.pDivergence && value == b.pDiag)
  {
    hide ExtremeRun, Raised;
    var b, run := bars[|bars| - 1], ExtremeRun(cfg, bars);
    RaisedHolds(cfg, b, run, sinceCross, SpreadDrift(value));
    RaisedHolds(cfg, b, run, sinceCross, HalfLifeSlow(value));
    RaisedHolds(cfg, b, run, sinceCross, KalmanDivergence(value));
  }

  lemma RaisedHolds(cfg: Config, bar: Bar, run: nat, sinceCross: nat, a: Alert)
    ensures a in Raised(cfg, bar, run, sinceCross) <==>
      match a
      case SpreadDrift(v) => Abs(bar.zscore) > cfg.controlLimit && v == Abs(bar.zscore)
      case CointegrationBreak(k) => run >= cfg.breakBars && k == run
      case HalfLifeSlow(v) => bar.halfLife > cfg.maxHalfLife && v == bar.halfLife
      case KalmanDivergence(v) => bar.pDiag > cfg.pDivergence && v == bar.pDiag
      case StuckPosition(k) => sinceCross >= cfg.stuckBars && k == sinceCross
  {
    hide Abs;
  }

  // None of the last n bars crosses zero, and there are more than n.
  ghost predicate NoCrossingFor(bars: seq<Bar>, n: int) {
    |bars| > n && forall i :: 1 <= i < |bars| && |bars| - n <= i ==> !ChangesSign(bars, i)
  }

  ghost predicate ReportsStuck(cfg: Config, bars: seq<Bar>)
    requires bars != []
  {
    exists k :: StuckPosition(k) in AlertsOf(cfg, bars, Counter(cfg, bars))
  }

  // A stuck position is reported exactly when the warm-up is over and none of the last
  // stuck_bars_threshold bars crosses zero. A window of fewer than two bars sees no
  // crossing and no bar without one: it reports all bars or, with a positive threshold,
  // none.
  lemma StuckIff(cfg: Config, bars: seq<Bar>)
    requires bars != []
    ensures ReportsStuck(cfg, bars)
       <==> |bars| >= cfg.minBars
            && if cfg.zscoreWindow >= 2 then NoCrossingFor(bars, cfg.stuckBars) else cfg.stuckBars <= 0
  {
    var d := Counter(cfg, bars);
    SinceCrossIsDistance(bars);
    if |bars| >= cfg.minBars && d >= cfg.stuckBars {
      assert StuckPosition(d) in AlertsOf(cfg, bars, d);
    }
  }

  // So past the warm-up the alert is right if and only if the window holds two bars, or
  // the threshold is not positive, or the spread is not stuck: a narrow window misses
  // every stuck position.
  lemma NarrowWindowMissesStuck(cfg: Config, bars: seq<Bar>)
    requires bars != [] && |bars| >= cfg.minBars
    ensures (ReportsStuck(cfg, bars) <==> NoCrossingFor(bars, cfg.stuckBars))
       <==> cfg.zscoreWindow >= 2 || cfg.stuckBars <= 0 || !NoCrossingFor(bars, cfg.stuckBars)
  {
    StuckIff(cfg, bars);
  }
}

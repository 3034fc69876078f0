// core/regime_detector.py: trend regime from scored indicators, where the confirmed
// regime itself gets a bonus in the scores that may replace it.
module TrendRegimes {
  import opened Numbers
  import Persistence

  datatype Regime = RANGING | TRENDING | BREAKOUT | UNKNOWN

  datatype Bar = Bar(price: real, high: real, low: real)

  // The indicators of the bars so far; how they are computed is left open.
  datatype Indicators = Indicators(
    adx: seq<Bar> -> real, autocorr: seq<Bar> -> real, hurst: seq<Bar> -> real, volRank: seq<Bar> -> real)

  datatype Config = Config(
    window: int, adxWindow: int, trendingAdx: real, breakoutAdx: real, breakoutVolRank: real, rangingAutocorr: real,
    minPersistence: int, hysteresisBonus: real, indicators: Indicators)
  {
    // The scores divide by both thresholds.
    predicate Sane() {
      trendingAdx != 0.0 && breakoutAdx != 0.0
    }
  }

  datatype Scores = Scores(ranging: real, trending: real, breakout: real)
  {
    function Of(r: Regime): real
      requires r != UNKNOWN
    {
      match r
      case RANGING => ranging
      case TRENDING => trending
      case BREAKOUT => breakout
    }
  }

  // The scores of the indicators, before the bonus.
  function Base(cfg: Config, bars: seq<Bar>): Scores
    requires cfg.Sane()
  {
    var ind := cfg.indicators;
    ScoresOf(cfg, ind.adx(bars), ind.autocorr(bars), ind.hurst(bars), ind.volRank(bars))
  }

  function ScoresOf(cfg: Config, adx: real, autocorr: real, hurst: real, volRank: real): Scores
    requires cfg.Sane()
  {
    var explosive := adx >= cfg.breakoutAdx && volRank >= cfg.breakoutVolRank;
    Scores(
      Max(0.0, (cfg.trendingAdx - adx) / cfg.trendingAdx) + Max(0.0, cfg.rangingAutocorr - autocorr)
      + Max(0.0, 0.5 - hurst) * 2.0,
      Min(1.0, adx / cfg.breakoutAdx) + Max(0.0, autocorr) * 2.0 + Max(0.0, hurst - 0.5) * 2.0,
      (if explosive then 1.5 else 0.0) + Max(0.0, adx - cfg.breakoutAdx) / cfg.breakoutAdx
      + Max(0.0, volRank - cfg.breakoutVolRank))
  }

  function WithBonus(s: Scores, confirmed: Regime, bonus: real): Scores {
    match confirmed
    case RANGING => s.(ranging := s.ranging + bonus)
    case TRENDING => s.(trending := s.trending + bonus)
    case BREAKOUT => s.(breakout := s.breakout + bonus)
    case UNKNOWN => s
  }

  // The first regime with the highest score.
  function Best(s: Scores): (r: Regime)
    ensures r != UNKNOWN
    ensures forall o :: o != UNKNOWN ==> s.Of(o) <= s.Of(r)
    ensures r == RANGING <==> s.ranging >= s.trending && s.ranging >= s.breakout
    ensures r == BREAKOUT <==> s.breakout > s.trending && s.breakout > s.ranging
  {
    if s.trending > s.ranging then (if s.breakout > s.trending then BREAKOUT else TRENDING)
    else if s.breakout > s.ranging then BREAKOUT else RANGING
  }

  function ClassifyRaw(cfg: Config, bars: seq<Bar>, confirmed: Regime): (r: Regime)
    requires cfg.Sane()
    ensures r != UNKNOWN
  {
    Best(WithBonus(Base(cfg, bars), confirmed, cfg.hysteresisBonus))
  }

  // --- From the whole history ------------------------------------------------------------------

  predicate WarmedUp(cfg: Config, n: nat) {
    n >= cfg.window && n >= cfg.adxWindow + 1
  }

  // The raw labels of the bars so far, each scored with the regime confirmed before it.
  function Labels(cfg: Config, bars: seq<Bar>): seq<Regime>
    requires cfg.Sane()
  {
    if bars == [] then []
    else
      var before := Labels(cfg, bars[..|bars| - 1]);
      if !WarmedUp(cfg, |bars|) then before
      else before + [ClassifyRaw(cfg, bars, Persistence.After(UNKNOWN, before, cfg.minPersistence).confirmed)]
  }

  function FilterOf(cfg: Config, bars: seq<Bar>): Persistence.Filter<Regime>
    requires cfg.Sane()
  {
    Persistence.After(UNKNOWN, Labels(cfg, bars), cfg.minPersistence)
  }

  // What the detector answers to its newest bar.
  function RegimeAt(cfg: Config, bars: seq<Bar>): Regime
    requires cfg.Sane()
  {
    if WarmedUp(cfg, |bars|) then FilterOf(cfg, bars).confirmed else UNKNOWN
  }

  class TrendRegimeDetector {
    const cfg: Config
    var bars: seq<Bar>
    var confirmed: Regime
    var candidate: Regime
    var candidateCount: nat

    ghost predicate Valid()
      reads this
    {
      cfg.Sane() && Persistence.Filter(candidate, candidateCount, confirmed) == FilterOf(cfg, bars)
    }

    constructor (cfg: Config)
      requires cfg.Sane()
      ensures Valid() && this.cfg == cfg && bars == []
    {
      this.cfg := cfg;
      bars := [];
      confirmed := UNKNOWN;
      candidate := UNKNOWN;
      candidateCount := 0;
    }

    method Update(bar: Bar) returns (regime: Regime)
      requires Valid()
      modifies this
      ensures Valid() && bars == old(bars) + [bar] && regime == RegimeAt(cfg, bars)
    {
      hide Persistence.After, ClassifyRaw;
      ghost var before := bars;
      bars := bars + [bar];
      assert bars[..|bars| - 1] == before;
      if |bars| < (if cfg.window >= cfg.adxWindow + 1 then cfg.window else cfg.adxWindow + 1) {
        return UNKNOWN;
      }
      var raw := ClassifyRaw(cfg, bars, confirmed);
      FilterStep(cfg, Labels(cfg, before), raw);
      ApplyPersistence(raw);
      return confirmed;
    }

    method ApplyPersistence(raw: Regime)
      modifies this`candidate, this`candidateCount, this`confirmed
      ensures Persistence.Filter(candidate, candidateCount, confirmed)
           == Persistence.Next(old(Persistence.Filter(candidate, candidateCount, confirmed)), raw, cfg.minPersistence)
    {
      if raw == candidate {
        candidateCount := candidateCount + 1;
      } else {
        candidate := raw;
        candidateCount := 1;
      }
      if candidateCount >= cfg.minPersistence {
        confirmed := candidate;
      }
    }

    method Reset()
      requires cfg.Sane()
      modifies this
      ensures Valid() && bars == []
    {
      bars := [];
      confirmed := UNKNOWN;
      candidate := UNKNOWN;
      candidateCount := 0;
    }

    // The batch answer for each bar is the online one: it depends on the bars up to it
    // only, and not on what the object saw before.
    method ClassifySeries(series: seq<Bar>) returns (regimes: seq<Regime>)
      requires cfg.Sane()
      modifies this
      ensures Valid() && bars == series && |regimes| == |series|
      ensures forall i :: 0 <= i < |series| ==> regimes[i] == RegimeAt(cfg, series[..i + 1])
    {
      hide RegimeAt, FilterOf;
      Reset();
      regimes := [];
      for i := 0 to |series|
        invariant Valid() && bars == series[..i] && |regimes| == i
        invariant forall k :: 0 <= k < i ==> regimes[k] == RegimeAt(cfg, series[..k + 1])
      {
        var r := Update(series[i]);
        assert bars == series[..i + 1];
        regimes := regimes + [r];
      }
      assert series[..|series|] == series;
    }
  }

  lemma FilterStep(cfg: Config, labels: seq<Regime>, raw: Regime)
    ensures Persistence.After(UNKNOWN, labels + [raw], cfg.minPersistence)
         == Persistence.Next(Persistence.After(UNKNOWN, labels, cfg.minPersistence), raw, cfg.minPersistence)
  {
    assert (labels + [raw])[..|labels|] == labels;
  }

  // --- What the regime says ---------------------------------------------------------------------

  // Although every raw label depends on what was confirmed before it, the regime is the
  // label of the most recent run of min_persistence equal raw labels.
  lemma RegimeIsLastReached(cfg: Config, bars: seq<Bar>)
    requires cfg.Sane() && WarmedUp(cfg, |bars|)
    ensures Persistence.IsLastReached(UNKNOWN, Labels(cfg, bars), Persistence.Needed(cfg.minPersistence),
                                      RegimeAt(cfg, bars))
  {
    Persistence.ConfirmedIsLastReached(UNKNOWN, Labels(cfg, bars), cfg.minPersistence);
  }

  lemma {:induction false} LabelsAreKnown(cfg: Config, bars: seq<Bar>)
    requires cfg.Sane()
    ensures UNKNOWN !in Labels(cfg, bars)
  {
    if bars != [] {
      LabelsAreKnown(cfg, bars[..|bars| - 1]);
    }
  }

  // A confirmed regime never gives way to UNKNOWN.
  lemma {:induction false} NeverUnknownAgain(cfg: Config, bars: seq<Bar>, more: seq<Bar>)
    requires cfg.Sane() && RegimeAt(cfg, bars) != UNKNOWN
    ensures RegimeAt(cfg, bars + more) != UNKNOWN
    decreases |more|
  {
    if more == [] {
      assert bars + more == bars;
    } else {
      var n := |more| - 1;
      NeverUnknownAgain(cfg, bars, more[..n]);
      assert (bars + more)[..|bars + more| - 1] == bars + more[..n];
      var labels := Labels(cfg, bars + more[..n]);
      var raw := ClassifyRaw(cfg, bars + more, Persistence.After(UNKNOWN, labels, cfg.minPersistence).confirmed);
      FilterStep(cfg, labels, raw);
    }
  }

  // The first raw label is given with the bar that ends the warm-up, and from there on
  // each bar gets one.
  lemma {:induction false} LabelledFromWarmUp(cfg: Config, bars: seq<Bar>)
    requires cfg.Sane()
    ensures var warmUp := if cfg.window >= cfg.adxWindow + 1 then cfg.window else cfg.adxWindow + 1;
      |Labels(cfg, bars)| == if |bars| < warmUp then 0 else if warmUp < 1 then |bars| else |bars| - warmUp + 1
  {
    if bars != [] {
      LabelledFromWarmUp(cfg, bars[..|bars| - 1]);
    }
  }

  // A challenger is preferred to the confirmed regime only when it scores higher by the
  // whole bonus; before anything is confirmed nobody has a bonus.
  lemma ChallengerBeatsBonus(cfg: Config, bars: seq<Bar>, confirmed: Regime)
    requires cfg.Sane()
    ensures var raw, base := ClassifyRaw(cfg, bars, confirmed), Base(cfg, bars);
      && (confirmed != UNKNOWN && raw != confirmed ==> base.Of(raw) >= base.Of(confirmed) + cfg.hysteresisBonus)
      && (confirmed != UNKNOWN
          && (forall o :: o != UNKNOWN && o != confirmed ==> base.Of(o) < base.Of(confirmed) + cfg.hysteresisBonus)
          ==> raw == confirmed)
      && (forall o :: o != UNKNOWN && o != confirmed && raw != confirmed ==> base.Of(o) <= base.Of(raw))
  {
    hide Base, Best;
    var scores := WithBonus(Base(cfg, bars), confirmed, cfg.hysteresisBonus);
    var raw := Best(scores);
    if confirmed != UNKNOWN {
      assert scores.Of(confirmed) <= scores.Of(raw);
    }
    assert raw != confirmed ==> scores.Of(raw) == Base(cfg, bars).Of(raw);
    assert forall o :: o != UNKNOWN && o != confirmed ==> scores.Of(o) == Base(cfg, bars).Of(o);
  }

  lemma {:induction false} LabelsGrow(cfg: Config, bars: seq<Bar>, k: nat)
    requires cfg.Sane() && k <= |bars|
    ensures Labels(cfg, bars[..k]) <= Labels(cfg, bars)
    decreases |bars|
  {
    if k == |bars| {
      assert bars[..k] == bars;
    } else {
      var front := bars[..|bars| - 1];
      LabelsGrow(cfg, front, k);
      assert front[..k] == bars[..k];
      assert Labels(cfg, front) <= Labels(cfg, bars);
    }
  }

  // The regime after the first k bars is that after the labels these bars got.
  lemma RegimeOfPrefix(cfg: Config, bars: seq<Bar>, k: nat)
    requires cfg.Sane() && k <= |bars|
    ensures var labels, n := Labels(cfg, bars), |Labels(cfg, bars[..k])|;
      n <= |labels| && RegimeAt(cfg, bars[..k]) == Persistence.ConfirmedAt(UNKNOWN, labels, cfg.minPersistence, n)
  {
    var labels := Labels(cfg, bars);
    LabelsGrow(cfg, bars, k);
    LabelledFromWarmUp(cfg, bars[..k]);
    assert labels[..|Labels(cfg, bars[..k])|] == Labels(cfg, bars[..k]);
  }

  // Two changes of the answer are at least min_persistence bars apart.
  lemma SwitchesAreApart(cfg: Config, bars: seq<Bar>, p: nat, q: nat)
    requires cfg.Sane() && 1 <= p < q <= |bars|
    ensures RegimeAt(cfg, bars[..p]) != RegimeAt(cfg, bars[..p - 1])
      && RegimeAt(cfg, bars[..q]) != RegimeAt(cfg, bars[..q - 1])
      ==> q - p >= Persistence.Needed(cfg.minPersistence)
  {
    hide RegimeAt, Labels;
    if RegimeAt(cfg, bars[..p]) == RegimeAt(cfg, bars[..p - 1])
       || RegimeAt(cfg, bars[..q]) == RegimeAt(cfg, bars[..q - 1]) {
      return;
    }
    RegimeOfPrefix(cfg, bars, p);
    RegimeOfPrefix(cfg, bars, p - 1);
    RegimeOfPrefix(cfg, bars, q);
    RegimeOfPrefix(cfg, bars, q - 1);
    LabelledFromWarmUp(cfg, bars[..p]);
    LabelledFromWarmUp(cfg, bars[..p - 1]);
    LabelledFromWarmUp(cfg, bars[..q]);
    LabelledFromWarmUp(cfg, bars[..q - 1]);
    Persistence.SwitchesAreApart(UNKNOWN, Labels(cfg, bars), cfg.minPersistence,
                                 |Labels(cfg, bars[..p])|, |Labels(cfg, bars[..q])|);
  }

  // --- What raises a score -----------------------------------------------------------------------

  // The part of a value above a level.
  function Above(x: real, level: real): real {
    if x > level then x - level else 0.0
  }

  // Ranging: how far adx lies below the trending threshold, as a share of it, and how far
  // autocorrelation and the Hurst exponent (twice) lie below their levels. Trending: adx as
  // a share of the breakout threshold, at most one, and twice what autocorrelation has
  // above 0 and the Hurst exponent above a half. Breakout: the share by which adx exceeds
  // its threshold, what the volatility rank has above its own, and 1.5 if both are reached.
  lemma ScoreParts(cfg: Config, bars: seq<Bar>)
    requires cfg.trendingAdx > 0.0 && cfg.breakoutAdx > 0.0
    ensures var s, ind := Base(cfg, bars), cfg.indicators;
      var adx, autocorr, hurst, volRank := ind.adx(bars), ind.autocorr(bars), ind.hurst(bars), ind.volRank(bars);
      && (s.ranging - Above(cfg.rangingAutocorr, autocorr) - 2.0 * Above(0.5, hurst)) * cfg.trendingAdx
         == Above(cfg.trendingAdx, adx)
      && (s.trending - 2.0 * Above(autocorr, 0.0) - 2.0 * Above(hurst, 0.5)) * cfg.breakoutAdx
         == (if adx < cfg.breakoutAdx then adx else cfg.breakoutAdx)
      && (s.breakout - Above(volRank, cfg.breakoutVolRank)
          - (if adx >= cfg.breakoutAdx && volRank >= cfg.breakoutVolRank then 1.5 else 0.0)) * cfg.breakoutAdx
         == Above(adx, cfg.breakoutAdx)
  {
    var adx := cfg.indicators.adx(bars);
    ShareBelow(adx, cfg.trendingAdx);
    ShareUpTo(adx, cfg.breakoutAdx);
    ShareAbove(adx, cfg.breakoutAdx);
  }

  lemma ShareBelow(x: real, level: real)
    requires level > 0.0
    ensures Max(0.0, (level - x) / level) * level == Above(level, x)
  {
    SignOfShare(level - x, level);
  }

  lemma ShareUpTo(x: real, level: real)
    requires level > 0.0
    ensures Min(1.0, x / level) * level == if x < level then x else level
  {
    var q := x / level;
    assert q * level == x && (q - 1.0) * level == x - level;
    SignOfFactor(q - 1.0, level);
  }

  lemma ShareAbove(x: real, level: real)
    requires level > 0.0
    ensures Max(0.0, x - level) / level * level == Above(x, level)
  {
  }

  lemma SignOfShare(a: real, n: real)
    requires n > 0.0
    ensures a > 0.0 <==> a / n > 0.0
    ensures a / n * n == a
  {
    var q := a / n;
    assert q * n == a;
    SignOfFactor(q, n);
  }

  lemma SignOfFactor(q: real, n: real)
    requires n > 0.0
    ensures q > 0.0 <==> q * n > 0.0
  {
  }

  // Stronger indicators never speak for ranging and never against trending; only adx and
  // the volatility rank speak for a breakout, and nothing speaks against one.
  lemma ScoresMove(cfg: Config, adx: real, autocorr: real, hurst: real, volRank: real,
                   adx': real, autocorr': real, hurst': real, volRank': real)
    requires cfg.trendingAdx > 0.0 && cfg.breakoutAdx > 0.0
    requires adx <= adx' && autocorr <= autocorr' && hurst <= hurst' && volRank <= volRank'
    ensures var s, t := ScoresOf(cfg, adx, autocorr, hurst, volRank), ScoresOf(cfg, adx', autocorr', hurst', volRank');
      && t.ranging <= s.ranging && s.trending <= t.trending && s.breakout <= t.breakout
      && (adx == adx' && volRank == volRank' ==> t.breakout == s.breakout)
      && (adx == adx' && autocorr == autocorr' && hurst == hurst' ==>
            t.ranging == s.ranging && t.trending == s.trending)
  {
    SignOfShare(adx' - adx, cfg.trendingAdx);
    assert (cfg.trendingAdx - adx) / cfg.trendingAdx - (cfg.trendingAdx - adx') / cfg.trendingAdx
        == (adx' - adx) / cfg.trendingAdx;
    SignOfShare(adx' - adx, cfg.breakoutAdx);
    assert adx' / cfg.breakoutAdx - adx / cfg.breakoutAdx == (adx' - adx) / cfg.breakoutAdx;
    var up := Max(0.0, adx' - cfg.breakoutAdx) - Max(0.0, adx - cfg.breakoutAdx);
    SignOfShare(up, cfg.breakoutAdx);
    assert Max(0.0, adx' - cfg.breakoutAdx) / cfg.breakoutAdx - Max(0.0, adx - cfg.breakoutAdx) / cfg.breakoutAdx
        == up / cfg.breakoutAdx;
  }
}

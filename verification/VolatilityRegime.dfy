// core/volatility_regime.py: volatility regime from the rank of the newest return.
module VolatilityRegimes {
  import opened Numbers
  import Persistence

  const MIN_SAMPLES := 10

  datatype RegimeLabel = LOW | NORMAL | HIGH | EXTREME

  datatype Config = Config(
    lookback: nat, lowPct: real, highPct: real, extremePct: real, multLow: real, multNormal: real, multHigh: real,
    multExtreme: real, blockEntry: RegimeLabel, hysteresisBars: int)

  // --- From the whole history --------------------------------------------------------------

  // The returns a buffer of the newest lookback ones would hold.
  function Newest(history: seq<real>, lookback: nat): (s: seq<real>)
    ensures |s| == if |history| <= lookback then |history| else lookback
  {
    if |history| <= lookback then history else history[|history| - lookback..]
  }

  function CountAtMost(s: seq<real>, x: real): (n: nat)
    ensures n <= |s|
  {
    if s == [] then 0 else CountAtMost(s[..|s| - 1], x) + if s[|s| - 1] <= x then 1 else 0
  }

  // The share, in percent, of the earlier samples that the newest one reaches.
  function PercentRank(samples: seq<real>): real
    requires |samples| >= 2
  {
    var n := |samples| - 1;
    (CountAtMost(samples[..n], samples[n]) as real) / (n as real) * 100.0
  }

  function Classify(cfg: Config, pct: real): RegimeLabel {
    if pct >= cfg.extremePct then EXTREME
    else if pct >= cfg.highPct then HIGH
    else if pct <= cfg.lowPct then LOW
    else NORMAL
  }

  // The raw labels of all returns that got one.
  function Labels(cfg: Config, history: seq<real>): seq<RegimeLabel> {
    if history == [] then []
    else
      var samples := Newest(history, cfg.lookback);
      Labels(cfg, history[..|history| - 1])
      + if |samples| < MIN_SAMPLES then [] else [Classify(cfg, PercentRank(samples))]
  }

  function FilterOf(cfg: Config, history: seq<real>): Persistence.Filter<RegimeLabel> {
    Persistence.After(NORMAL, Labels(cfg, history), cfg.hysteresisBars)
  }

  function Regime(cfg: Config, history: seq<real>): RegimeLabel {
    FilterOf(cfg, history).confirmed
  }

  // The rank of the newest classified return, 50 before there is one.
  function Percentile(cfg: Config, history: seq<real>): real {
    var samples := Newest(history, cfg.lookback);
    if |samples| < MIN_SAMPLES then 50.0 else PercentRank(samples)
  }

  function Level(r: RegimeLabel): nat {
    match r
    case LOW => 0
    case NORMAL => 1
    case HIGH => 2
    case EXTREME => 3
  }

  predicate Allows(cfg: Config, r: RegimeLabel) {
    Level(r) < Level(cfg.blockEntry)
  }

  class VolatilityRegime {
    const cfg: Config
    var volBuffer: seq<real>
    var currentRegime: RegimeLabel
    var candidateRegime: RegimeLabel
    var candidateCount: nat
    var currentPercentile: real
    // All absolute returns since the last reset.
    ghost var history: seq<real>

    ghost predicate Valid()
      reads this
    {
      && volBuffer == Newest(history, cfg.lookback)
      && Persistence.Filter(candidateRegime, candidateCount, currentRegime) == FilterOf(cfg, history)
      && currentPercentile == Percentile(cfg, history)
    }

    constructor (cfg: Config)
      ensures Valid() && this.cfg == cfg && history == []
    {
      this.cfg := cfg;
      volBuffer := [];
      currentRegime := NORMAL;
      candidateRegime := NORMAL;
      candidateCount := 0;
      currentPercentile := 50.0;
      history := [];
    }

    method Update(spreadReturn: real) returns (shown: RegimeLabel)
      requires Valid()
      modifies this
      ensures Valid() && history == old(history) + [Abs(spreadReturn)]
      ensures shown == currentRegime == Regime(cfg, history)
    {
      hide Persistence.After;
      ghost var before := history;
      history := history + [Abs(spreadReturn)];
      volBuffer := volBuffer + [Abs(spreadReturn)];
      if |volBuffer| > cfg.lookback {
        volBuffer := volBuffer[1..];
      }
      assert history[..|history| - 1] == before;
      NewestGrows(before, Abs(spreadReturn), cfg.lookback);
      if |volBuffer| < MIN_SAMPLES {
        assert Labels(cfg, history) == Labels(cfg, before);
        return currentRegime;
      }
      var pct := PercentRank(volBuffer);
      currentPercentile := pct;
      var candidate := Classify(cfg, pct);
      FilterStep(cfg, before, Abs(spreadReturn), candidate);
      ApplyHysteresis(candidate);
      return currentRegime;
    }

    method UpdateFromPrices(priceY: real, priceX: real, beta: real, prevSpread: real, hasPrev: bool)
      returns (shown: RegimeLabel)
      requires Valid()
      modifies this
      ensures Valid() && shown == currentRegime == Regime(cfg, history)
      ensures var spread := priceY - beta * priceX;
        history == old(history)
        + [if hasPrev && prevSpread != 0.0 then Abs((spread - prevSpread) / prevSpread) else 0.0]
    {
      hide Regime, Valid;
      var spread := priceY - beta * priceX;
      var ret := if hasPrev && prevSpread != 0.0 then Abs((spread - prevSpread) / prevSpread) else 0.0;
      shown := Update(ret);
    }

    method ApplyHysteresis(candidate: RegimeLabel)
      modifies this`candidateRegime, this`candidateCount, this`currentRegime
      ensures Persistence.Filter(candidateRegime, candidateCount, currentRegime)
           == Persistence.Next(old(Persistence.Filter(candidateRegime, candidateCount, currentRegime)), candidate,
                               cfg.hysteresisBars)
    {
      if candidate == candidateRegime {
        candidateCount := candidateCount + 1;
      } else {
        candidateRegime := candidate;
        candidateCount := 1;
      }
      if candidateCount >= cfg.hysteresisBars {
        currentRegime := candidate;
      }
    }

    // As if the object were new.
    method Reset()
      modifies this
      ensures Valid() && history == []
    {
      volBuffer := [];
      currentRegime := NORMAL;
      candidateRegime := NORMAL;
      candidateCount := 0;
      currentPercentile := 50.0;
      history := [];
    }

    function SizeMultiplier(): real
      reads this
    {
      match currentRegime
      case LOW => cfg.multLow
      case NORMAL => cfg.multNormal
      case HIGH => cfg.multHigh
      case EXTREME => cfg.multExtreme
    }

    predicate EntryAllowed()
      reads this
    {
      Allows(cfg, currentRegime)
    }
  }

  lemma NewestGrows(history: seq<real>, x: real, lookback: nat)
    ensures var s := Newest(history, lookback) + [x];
      Newest(history + [x], lookback) == if |s| > lookback then s[1..] else s
  {
  }

  lemma FilterStep(cfg: Config, before: seq<real>, x: real, candidate: RegimeLabel)
    requires Labels(cfg, before + [x]) == Labels(cfg, before) + [candidate]
    ensures FilterOf(cfg, before + [x]) == Persistence.Next(FilterOf(cfg, before), candidate, cfg.hysteresisBars)
  {
    var labels := Labels(cfg, before);
    assert (labels + [candidate])[..|labels|] == labels;
  }

  // --- What the regime says ---------------------------------------------------------------------

  // The regime is the label of the most recent run of hysteresis_bars equal labels.
  lemma RegimeIsLastReached(cfg: Config, history: seq<real>)
    ensures Persistence.IsLastReached(NORMAL, Labels(cfg, history), Persistence.Needed(cfg.hysteresisBars),
                                      Regime(cfg, history))
  {
    Persistence.ConfirmedIsLastReached(NORMAL, Labels(cfg, history), cfg.hysteresisBars);
  }

  // Every return from the tenth on is labelled, but none ever is with a lookback below
  // ten: such a classifier stays NORMAL for good.
  lemma {:induction false} LabelledFromTenth(cfg: Config, history: seq<real>)
    ensures |Labels(cfg, history)|
         == if cfg.lookback < MIN_SAMPLES || |history| < MIN_SAMPLES then 0 else |history| - MIN_SAMPLES + 1
    ensures cfg.lookback < MIN_SAMPLES ==> Regime(cfg, history) == NORMAL
  {
    if history != [] {
      LabelledFromTenth(cfg, history[..|history| - 1]);
    }
  }

  // A return that outranks another one among the same samples is never put into a
  // calmer regime, however the thresholds are set.
  lemma LabelIsMonotone(cfg: Config, samples: seq<real>, x: real, y: real)
    requires samples != [] && x <= y
    ensures PercentRank(samples + [x]) <= PercentRank(samples + [y])
    ensures Level(Classify(cfg, PercentRank(samples + [x]))) <= Level(Classify(cfg, PercentRank(samples + [y])))
  {
    CountIsMonotone(samples, x, y);
    assert (samples + [x])[..|samples|] == samples && (samples + [y])[..|samples|] == samples;
    ShareIsMonotone(CountAtMost(samples, x) as real, CountAtMost(samples, y) as real, |samples| as real);
  }

  lemma {:induction false} CountIsMonotone(s: seq<real>, x: real, y: real)
    requires x <= y
    ensures CountAtMost(s, x) <= CountAtMost(s, y)
  {
    if s != [] {
      CountIsMonotone(s[..|s| - 1], x, y);
    }
  }

  lemma ShareIsMonotone(a: real, b: real, n: real)
    requires a <= b && n > 0.0
    ensures a / n * 100.0 <= b / n * 100.0
  {
    assert b / n - a / n == (b - a) / n;
    ShareOfPositive(b - a, n);
  }

  lemma ShareOfPositive(a: real, n: real)
    requires a >= 0.0 && n > 0.0
    ensures a / n >= 0.0
  {
  }

  // Labels that never repeat are never confirmed: a market that alternates between two
  // labels at or above the blocking level leaves entries allowed as long as a regime
  // needs two bars.
  lemma {:induction false} AlternationIsNeverConfirmed(initial: RegimeLabel, labels: seq<RegimeLabel>, bars: int)
    requires bars >= 2
    requires forall i :: 0 < i < |labels| ==> labels[i] != labels[i - 1]
    ensures Persistence.After(initial, labels, bars).confirmed == initial
    ensures labels != [] ==> Persistence.After(initial, labels, bars).count == 1
  {
    if labels != [] {
      AlternationIsNeverConfirmed(initial, labels[..|labels| - 1], bars);
    }
  }

  // Entries are blocked exactly when the label of the most recent run of hysteresis_bars
  // equal labels, NORMAL before there is one, is at or above the blocking level.
  lemma BlockedIffLastReached(cfg: Config, history: seq<real>, last: RegimeLabel)
    requires Persistence.IsLastReached(NORMAL, Labels(cfg, history), Persistence.Needed(cfg.hysteresisBars), last)
    ensures Allows(cfg, Regime(cfg, history)) <==>
      match cfg.blockEntry
      case LOW => false
      case NORMAL => last == LOW
      case HIGH => last == LOW || last == NORMAL
      case EXTREME => last != EXTREME
  {
    RegimeIsLastReached(cfg, history);
    Persistence.LastReachedIsUnique(NORMAL, Labels(cfg, history), Persistence.Needed(cfg.hysteresisBars), last,
                                    Regime(cfg, history));
  }

  // So a market that alternates between HIGH and EXTREME, or whose labels never repeat in
  // any other way, leaves entries open whenever a regime needs two bars and NORMAL does
  // not block.
  lemma AlternationLeavesEntriesOpen(cfg: Config, history: seq<real>)
    requires cfg.hysteresisBars >= 2 && Allows(cfg, NORMAL)
    requires forall i :: 0 < i < |Labels(cfg, history)| ==> Labels(cfg, history)[i] != Labels(cfg, history)[i - 1]
    ensures Allows(cfg, Regime(cfg, history))
  {
    AlternationIsNeverConfirmed(NORMAL, Labels(cfg, history), cfg.hysteresisBars);
  }

  // --- From the returns alone ---------------------------------------------------------------------

  // Where among the n returns before the newest one lie those it reaches.
  ghost function Reached(history: seq<real>, n: nat): set<int>
    requires n < |history|
  {
    set j | |history| - 1 - n <= j < |history| - 1 && history[j] <= history[|history| - 1]
  }

  // The newest return reaches pct per cent of the earlier returns in the window.
  ghost predicate Reaches(history: seq<real>, lookback: nat, pct: real)
    requires history != [] && lookback >= 1
  {
    var n := MinInt(|history|, lookback) - 1;
    (|Reached(history, n)| as real) * 100.0 >= pct * (n as real)
  }

  // The same of an earlier return, when it was the newest.
  ghost predicate ReachedAt(history: seq<real>, i: nat, lookback: nat, pct: real)
    requires i < |history| && lookback >= 1
  {
    Reaches(history[..i + 1], lookback, pct)
  }

  // And no more than that.
  ghost predicate StaysWithin(history: seq<real>, lookback: nat, pct: real)
    requires history != [] && lookback >= 1
  {
    var n := MinInt(|history|, lookback) - 1;
    (|Reached(history, n)| as real) * 100.0 <= pct * (n as real)
  }

  ghost function AtMostIn(h: seq<real>, lo: nat, hi: nat, x: real): set<int>
    requires hi <= |h|
  {
    set j | lo <= j < hi && h[j] <= x
  }

  lemma AtMostGrows(h: seq<real>, lo: nat, hi: nat, x: real)
    requires lo < hi <= |h|
    ensures |AtMostIn(h, lo, hi, x)| == |AtMostIn(h, lo, hi - 1, x)| + if h[hi - 1] <= x then 1 else 0
  {
    AtMostIs(h, lo, hi, x);
    assert hi - 1 !in AtMostIn(h, lo, hi - 1, x);
    hide AtMostIn;
  }

  lemma AtMostIs(h: seq<real>, lo: nat, hi: nat, x: real)
    requires lo < hi <= |h|
    ensures AtMostIn(h, lo, hi, x) == AtMostIn(h, lo, hi - 1, x) + if h[hi - 1] <= x then {hi - 1} else {}
  {
    var before := AtMostIn(h, lo, hi - 1, x);
    forall j
      ensures j in AtMostIn(h, lo, hi, x) <==> j in before || (j == hi - 1 && h[hi - 1] <= x)
    {
    }
    hide AtMostIn;
  }

  lemma {:induction false} CountIsSet(h: seq<real>, lo: nat, hi: nat, x: real)
    requires lo <= hi <= |h|
    ensures CountAtMost(h[lo..hi], x) == |AtMostIn(h, lo, hi, x)|
    decreases hi
  {
    if lo < hi {
      hide AtMostIn;
      CountIsSet(h, lo, hi - 1, x);
      AtMostGrows(h, lo, hi, x);
      assert h[lo..hi][..hi - lo - 1] == h[lo..hi - 1];
    } else {
      assert AtMostIn(h, lo, hi, x) == {};
    }
  }

  lemma ShareReaches(m: real, n: real, pct: real)
    requires n > 0.0
    ensures m / n * 100.0 >= pct <==> m * 100.0 >= pct * n
    ensures m / n * 100.0 <= pct <==> m * 100.0 <= pct * n
  {
    var share := m / n;
    assert share * n == m;
    ScaledOrder(share * 100.0, pct, n);
    ScaledOrder(pct, share * 100.0, n);
    assert share * 100.0 * n == m * 100.0;
  }

  lemma ScaledOrder(a: real, b: real, n: real)
    requires n > 0.0
    ensures a >= b <==> a * n >= b * n
  {
    if a >= b {
      NonNegativeProduct(a - b, n);
      assert (a - b) * n == a * n - b * n;
    } else {
      PositiveProduct(b - a, n);
      assert (b - a) * n == b * n - a * n;
    }
  }

  lemma NonNegativeProduct(a: real, n: real)
    requires a >= 0.0 && n > 0.0
    ensures a * n >= 0.0
  {
  }

  lemma PositiveProduct(a: real, n: real)
    requires a > 0.0 && n > 0.0
    ensures a * n > 0.0
  {
  }

  lemma RankScalars(samples: seq<real>, m: nat, n: nat, pct: real)
    requires |samples| == n + 1 && n >= 1 && CountAtMost(samples[..n], samples[n]) == m
    ensures PercentRank(samples) >= pct <==> (m as real) * 100.0 >= pct * (n as real)
    ensures PercentRank(samples) <= pct <==> (m as real) * 100.0 <= pct * (n as real)
  {
    hide CountAtMost;
    ShareReaches(m as real, n as real, pct);
  }

  lemma CountIsReached(history: seq<real>, lookback: nat)
    requires |history| >= 2 && lookback >= 2
    ensures var samples, n := Newest(history, lookback), MinInt(|history|, lookback) - 1;
      |samples| == n + 1 && CountAtMost(samples[..n], samples[n]) == |Reached(history, n)|
  {
    hide CountAtMost;
    var samples, last := Newest(history, lookback), |history| - 1;
    var n := |samples| - 1;
    assert samples[..n] == history[last - n..last] && samples[n] == history[last];
    CountIsSet(history, last - n, last, history[last]);
    assert AtMostIn(history, last - n, last, history[last]) == Reached(history, n);
  }

  lemma RankReaches(history: seq<real>, lookback: nat, pct: real)
    requires |history| >= 2 && lookback >= 2
    ensures PercentRank(Newest(history, lookback)) >= pct <==> Reaches(history, lookback, pct)
    ensures PercentRank(Newest(history, lookback)) <= pct <==> StaysWithin(history, lookback, pct)
  {
    hide CountAtMost, PercentRank, Newest, Reached;
    var n := MinInt(|history|, lookback) - 1;
    CountIsReached(history, lookback);
    RankScalars(Newest(history, lookback), |Reached(history, n)|, n, pct);
  }

  // The label of the newest return, from the tenth on in a window of ten or more: EXTREME
  // if it reaches extreme_pct per cent of the earlier returns in the window, else HIGH if
  // it reaches high_pct per cent, else LOW if it reaches low_pct per cent at most.
  lemma LabelSays(cfg: Config, history: seq<real>)
    requires |history| >= 10 && cfg.lookback >= 10
    ensures Labels(cfg, history) != []
    ensures var given := Labels(cfg, history)[|Labels(cfg, history)| - 1];
      var extreme, high := Reaches(history, cfg.lookback, cfg.extremePct), Reaches(history, cfg.lookback, cfg.highPct);
      var low := StaysWithin(history, cfg.lookback, cfg.lowPct);
      && (given == EXTREME <==> extreme)
      && (given == HIGH <==> !extreme && high)
      && (given == LOW <==> !extreme && !high && low)
      && (given == NORMAL <==> !extreme && !high && !low)
    ensures Labels(cfg, history)[..|Labels(cfg, history)| - 1] == Labels(cfg, history[..|history| - 1])
  {
    RankReaches(history, cfg.lookback, cfg.extremePct);
    RankReaches(history, cfg.lookback, cfg.highPct);
    RankReaches(history, cfg.lookback, cfg.lowPct);
    hide PercentRank, Reaches, StaysWithin, Newest;
  }

  // The label of an earlier return stays what it was when that return was the newest.
  lemma {:induction false} LabelStays(cfg: Config, history: seq<real>, i: nat)
    requires 9 <= i < |history| && cfg.lookback >= 10
    ensures |Labels(cfg, history)| == |history| - 9 && |Labels(cfg, history[..i + 1])| == i - 8
    ensures Labels(cfg, history)[i - 9] == Labels(cfg, history[..i + 1])[i - 9]
  {
    LabelledFromTenth(cfg, history);
    LabelledFromTenth(cfg, history[..i + 1]);
    if i == |history| - 1 {
      assert history[..i + 1] == history;
    } else {
      LabelSays(cfg, history);
      LabelStays(cfg, history[..|history| - 1], i);
      assert history[..|history| - 1][..i + 1] == history[..i + 1];
      assert Labels(cfg, history)[i - 9] == Labels(cfg, history)[..|Labels(cfg, history)| - 1][i - 9];
    }
  }

  // When every one of the last hysteresis_bars returns reaches extreme_pct, the regime is
  // EXTREME, and entries are blocked whichever level blocks them.
  lemma ExtremesBlock(cfg: Config, history: seq<real>)
    requires cfg.lookback >= 10 && |history| >= 9 + Persistence.Needed(cfg.hysteresisBars)
    requires forall i :: |history| - Persistence.Needed(cfg.hysteresisBars) <= i < |history| ==>
      ReachedAt(history, i, cfg.lookback, cfg.extremePct)
    ensures Regime(cfg, history) == EXTREME && !Allows(cfg, Regime(cfg, history))
  {
    var labels, n := Labels(cfg, history), Persistence.Needed(cfg.hysteresisBars);
    LabelledFromTenth(cfg, history);
    forall k | |labels| - n <= k < |labels|
      ensures labels[k] == EXTREME
    {
      assert ReachedAt(history, k + 9, cfg.lookback, cfg.extremePct);
      LabelStays(cfg, history, k + 9);
      LabelSays(cfg, history[..k + 10]);
    }
    assert Persistence.Reached(labels, n, |labels|);
    RegimeIsLastReached(cfg, history);
    Persistence.LastReachedIsUnique(NORMAL, labels, n, EXTREME, Regime(cfg, history));
  }
}

// backtest/engine.py: capital from fold to fold, and profit by day.
module BacktestRun {
  import opened Backtest
  import opened BacktestRecords
  import opened Numbers

  // --- Capital ---------------------------------------------------------------------

  function SumReals(s: seq<real>): real {
    if s == [] then 0.0 else SumReals(s[..|s| - 1]) + s[|s| - 1]
  }

  lemma {:induction false} SumRealsSplits(s: seq<real>, j: nat)
    requires j <= |s|
    ensures SumReals(s) == SumReals(s[..j]) + SumReals(s[j..])
    decreases |s|
  {
    if j == |s| {
      assert s[..j] == s;
    } else {
      var t := s[..|s| - 1];
      SumRealsSplits(t, j);
      assert t[..j] == s[..j] && s[j..][..|s| - j - 1] == t[j..];
    }
  }

  // Profit after profit is added, and after each the capital is lifted to the floor.
  function Compounded(start: real, floor: real, profits: seq<real>): real {
    if profits == [] then start
    else Max(Compounded(start, floor, profits[..|profits| - 1]) + profits[|profits| - 1], floor)
  }

  // What the capital would be had the floor been reached for the last time after the
  // first j profits (j == 0: never).
  function SinceFloor(start: real, floor: real, profits: seq<real>, j: nat): real
    requires j <= |profits|
  {
    (if j == 0 then start else floor) + SumReals(profits[j..])
  }

  // The step by step capital in closed form: the largest of these.
  lemma {:induction false} CompoundedIsLargest(start: real, floor: real, profits: seq<real>)
    ensures forall j :: 0 <= j <= |profits| ==>
      SinceFloor(start, floor, profits, j) <= Compounded(start, floor, profits)
    ensures exists j :: 0 <= j <= |profits| && SinceFloor(start, floor, profits, j) == Compounded(start, floor, profits)
  {
    var n := |profits|;
    if n == 0 {
      assert SinceFloor(start, floor, profits, 0) == start;
    } else {
      var t, last := profits[..n - 1], profits[n - 1];
      CompoundedIsLargest(start, floor, t);
      forall j | 0 <= j < n
        ensures SinceFloor(start, floor, profits, j) == SinceFloor(start, floor, t, j) + last
      {
        assert profits[j..][..n - j - 1] == t[j..];
      }
      assert SinceFloor(start, floor, profits, n) == floor;
      var c := Compounded(start, floor, t);
      var j :| 0 <= j < n && SinceFloor(start, floor, t, j) == c;
      assert SinceFloor(start, floor, profits, if c + last >= floor then j else n) == Max(c + last, floor);
    }
  }

  // Nothing is added to or taken from the capital but the profits, exactly as long as
  // no fold leaves less than the floor.
  lemma {:induction false} CompoundedIsSum(start: real, floor: real, profits: seq<real>)
    ensures Compounded(start, floor, profits) == start + SumReals(profits)
       <==> forall j :: 0 < j <= |profits| ==> start + SumReals(profits[..j]) >= floor
  {
    CompoundedIsLargest(start, floor, profits);
    assert profits[0..] == profits;
    assert SinceFloor(start, floor, profits, 0) == start + SumReals(profits);
    forall j | 0 < j <= |profits|
      ensures SinceFloor(start, floor, profits, j) <= start + SumReals(profits)
         <==> start + SumReals(profits[..j]) >= floor
    {
      SumRealsSplits(profits, j);
    }
  }

  // The bars of one split, with their signals: in-sample and out-of-sample.
  datatype Split = Split(inSample: seq<Row>, outOfSample: seq<Row>)

  predicate SaneSplits(cfg: Config, splits: seq<Split>) {
    cfg.barsPerDay != 0.0
    && forall k :: 0 <= k < |splits| ==> Sane(InSample(cfg, splits, k)) && Sane(OutOfSample(cfg, splits, k))
  }

  function InSample(cfg: Config, splits: seq<Split>, k: nat): Fold
    requires k < |splits|
  {
    Fold(cfg, k, "IS", splits[k].inSample)
  }

  function OutOfSample(cfg: Config, splits: seq<Split>, k: nat): Fold
    requires k < |splits|
  {
    Fold(cfg, k, "OOS", splits[k].outOfSample)
  }

  // What the out-of-sample part of each split earned, when every split starts with
  // the capital its predecessors left.
  function Profits(cfg: Config, start: real, compound: bool, splits: seq<Split>, k: nat): (s: seq<real>)
    requires SaneSplits(cfg, splits) && k <= |splits|
    ensures |s| == k
  {
    if k == 0 then []
    else
      var before := Profits(cfg, start, compound, splits, k - 1);
      before + [SumNet(Trades(OutOfSample(cfg, splits, k - 1), 0, Capital(cfg, start, compound, before)))]
  }

  function Capital(cfg: Config, start: real, compound: bool, profits: seq<real>): real {
    if compound then Compounded(start, cfg.minPosition * 2.0, profits) else start
  }

  // The capital split k trades with.
  function CapitalOf(cfg: Config, start: real, compound: bool, splits: seq<Split>, k: nat): real
    requires SaneSplits(cfg, splits) && k <= |splits|
  {
    Capital(cfg, start, compound, Profits(cfg, start, compound, splits, k))
  }

  // All records of the first k splits, both parts of a split traded with its capital.
  function RecordsOf(cfg: Config, start: real, compound: bool, splits: seq<Split>, k: nat): seq<TradeRecord>
    requires SaneSplits(cfg, splits) && k <= |splits|
  {
    if k == 0 then []
    else
      var c := CapitalOf(cfg, start, compound, splits, k - 1);
      RecordsOf(cfg, start, compound, splits, k - 1)
      + Trades(InSample(cfg, splits, k - 1), 0, c) + Trades(OutOfSample(cfg, splits, k - 1), 0, c)
  }

  class WalkForwardEngine {
    const cfg: Config
    const capitalUsd: real
    const compoundFolds: bool
    var runningCapital: real

    constructor (cfg: Config, capitalUsd: real, compoundFolds: bool)
      ensures this.cfg == cfg && this.capitalUsd == capitalUsd && this.compoundFolds == compoundFolds
      ensures runningCapital == capitalUsd
    {
      this.cfg := cfg;
      this.capitalUsd := capitalUsd;
      this.compoundFolds := compoundFolds;
      this.runningCapital := capitalUsd;
    }

    // The result depends on the splits only, not on an earlier run.
    method Run(splits: seq<Split>) returns (trades: seq<TradeRecord>)
      requires SaneSplits(cfg, splits)
      modifies this
      ensures trades == RecordsOf(cfg, capitalUsd, compoundFolds, splits, |splits|)
      ensures runningCapital == CapitalOf(cfg, capitalUsd, compoundFolds, splits, |splits|)
    {
      hide Trades, SumNet, Sane;
      trades := [];
      runningCapital := capitalUsd;
      for k := 0 to |splits|
        invariant trades == RecordsOf(cfg, capitalUsd, compoundFolds, splits, k)
        invariant runningCapital == CapitalOf(cfg, capitalUsd, compoundFolds, splits, k)
      {
        var capital := if compoundFolds then runningCapital else capitalUsd;
        var isTrades := SimulateTrades(InSample(cfg, splits, k), capital);
        var oosTrades := SimulateTrades(OutOfSample(cfg, splits, k), capital);
        trades := trades + isTrades + oosTrades;
        ghost var before := Profits(cfg, capitalUsd, compoundFolds, splits, k);
        if compoundFolds {
          var oosNet := SumNet(oosTrades);
          runningCapital := Max(runningCapital + oosNet, cfg.minPosition * 2.0);
          assert (before + [oosNet])[..k] == before;
        }
      }
    }
  }

  lemma {:induction false} ProfitsGrow(cfg: Config, start: real, splits: seq<Split>, k: nat, j: nat)
    requires SaneSplits(cfg, splits) && j < k <= |splits|
    ensures Profits(cfg, start, true, splits, k)[j]
         == SumNet(Trades(OutOfSample(cfg, splits, j), 0, CapitalOf(cfg, start, true, splits, j)))
    ensures Profits(cfg, start, true, splits, k)[..j] == Profits(cfg, start, true, splits, j)
  {
    var before := Profits(cfg, start, true, splits, k - 1);
    if j < k - 1 {
      ProfitsGrow(cfg, start, splits, k - 1, j);
      assert Profits(cfg, start, true, splits, k)[..j] == before[..j];
    } else {
      assert Profits(cfg, start, true, splits, k)[..j] == before;
    }
  }

  // oos_all_trades: the records with split "OOS".
  function OosOnly(ts: seq<TradeRecord>): seq<TradeRecord> {
    if ts == [] then [] else OosOnly(ts[..|ts| - 1]) + if ts[|ts| - 1].split == "OOS" then [ts[|ts| - 1]] else []
  }

  lemma {:induction false} OosOfConcat(a: seq<TradeRecord>, b: seq<TradeRecord>)
    ensures OosOnly(a + b) == OosOnly(a) + OosOnly(b)
    decreases |b|
  {
    if b == [] {
      assert a + b == a;
    } else {
      OosOfConcat(a, b[..|b| - 1]);
      assert (a + b)[..|a + b| - 1] == a + b[..|b| - 1];
    }
  }

  lemma {:induction false} OosOfOnePart(ts: seq<TradeRecord>, part: string)
    requires Named(ts, part)
    ensures OosOnly(ts) == if part == "OOS" then ts else []
  {
    if ts != [] {
      OosOfOnePart(ts[..|ts| - 1], part);
      assert ts == ts[..|ts| - 1] + [ts[|ts| - 1]];
    }
  }

  // The out-of-sample records of the first splits earn what the capital is moved by.
  lemma {:induction false} OosRecordsEarnProfits(cfg: Config, start: real, compound: bool, splits: seq<Split>, k: nat)
    requires SaneSplits(cfg, splits) && k <= |splits|
    ensures SumNet(OosOnly(RecordsOf(cfg, start, compound, splits, k)))
         == SumReals(Profits(cfg, start, compound, splits, k))
  {
    if k > 0 {
      hide Trades, Sane;
      OosRecordsEarnProfits(cfg, start, compound, splits, k - 1);
      var c := CapitalOf(cfg, start, compound, splits, k - 1);
      var before := RecordsOf(cfg, start, compound, splits, k - 1);
      var ins, outs := Trades(InSample(cfg, splits, k - 1), 0, c), Trades(OutOfSample(cfg, splits, k - 1), 0, c);
      TradesNameTheirPart(InSample(cfg, splits, k - 1), 0, c);
      TradesNameTheirPart(OutOfSample(cfg, splits, k - 1), 0, c);
      OosOfOnePart(ins, "IS");
      OosOfOnePart(outs, "OOS");
      OosOfConcat(before + ins, outs);
      OosOfConcat(before, ins);
      SumNetAppend(OosOnly(before), outs);
      assert OosOnly(before) + [] == OosOnly(before);
      var profits := Profits(cfg, start, compound, splits, k - 1);
      assert (profits + [SumNet(outs)])[..k - 1] == profits;
    }
  }

  // The starting capital and every out-of-sample record of the first k splits.
  function Earned(cfg: Config, start: real, splits: seq<Split>, k: nat): real
    requires SaneSplits(cfg, splits) && k <= |splits|
  {
    start + SumNet(OosOnly(RecordsOf(cfg, start, true, splits, k)))
  }

  lemma EarnedIsSum(cfg: Config, start: real, splits: seq<Split>, k: nat, j: nat)
    requires SaneSplits(cfg, splits) && j <= k <= |splits|
    ensures Earned(cfg, start, splits, j) == start + SumReals(Profits(cfg, start, true, splits, k)[..j])
  {
    hide RecordsOf, SumNet, OosOnly, SumReals, Profits, SaneSplits;
    OosRecordsEarnProfits(cfg, start, true, splits, j);
    var profits := Profits(cfg, start, true, splits, k);
    if j < k {
      ProfitsGrow(cfg, start, splits, k, j);
    } else {
      assert profits[..k] == profits;
    }
  }

  // With compounding the capital of a split is the starting capital plus the net profit
  // of every out-of-sample record so far, if and only if that sum was at least twice the
  // smallest position after every split before it.
  lemma CapitalIsEarned(cfg: Config, start: real, splits: seq<Split>, k: nat)
    requires SaneSplits(cfg, splits) && k <= |splits|
    ensures CapitalOf(cfg, start, true, splits, k) == Earned(cfg, start, splits, k)
       <==> forall j :: 0 < j <= k ==> Earned(cfg, start, splits, j) >= cfg.minPosition * 2.0
  {
    hide Earned, SumReals, Profits, SaneSplits, Compounded;
    var profits := Profits(cfg, start, true, splits, k);
    CompoundedIsSum(start, cfg.minPosition * 2.0, profits);
    forall j | 0 <= j <= k
      ensures Earned(cfg, start, splits, j) == start + SumReals(profits[..j])
    {
      EarnedIsSum(cfg, start, splits, k, j);
    }
    assert profits[..k] == profits;
  }

  // --- Which records a run consists of ------------------------------------------------

  // The records of one part of one split.
  function PartOf(ts: seq<TradeRecord>, fold: int, part: string): seq<TradeRecord> {
    if ts == [] then []
    else
      var last := ts[|ts| - 1];
      PartOf(ts[..|ts| - 1], fold, part) + if last.fold == fold && last.split == part then [last] else []
  }

  lemma {:induction false} PartOfConcat(a: seq<TradeRecord>, b: seq<TradeRecord>, fold: int, part: string)
    ensures PartOf(a + b, fold, part) == PartOf(a, fold, part) + PartOf(b, fold, part)
    decreases |b|
  {
    if b == [] {
      assert a + b == a;
    } else {
      PartOfConcat(a, b[..|b| - 1], fold, part);
      assert (a + b)[..|a + b| - 1] == a + b[..|b| - 1];
    }
  }

  ghost predicate FromPart(ts: seq<TradeRecord>, fold: int, part: string) {
    forall k :: 0 <= k < |ts| ==> ts[k].fold == fold && ts[k].split == part
  }

  lemma {:induction false} PartOfOne(ts: seq<TradeRecord>, from: int, origin: string, fold: int, part: string)
    requires FromPart(ts, from, origin)
    ensures PartOf(ts, fold, part) == if from == fold && origin == part then ts else []
  {
    if ts != [] {
      PartOfOne(ts[..|ts| - 1], from, origin, fold, part);
      assert ts == ts[..|ts| - 1] + [ts[|ts| - 1]];
    }
  }

  lemma TradesComeFrom(f: Fold, capital: real)
    requires Sane(f)
    ensures FromPart(Trades(f, 0, capital), f.index, f.split)
  {
    RecordsTell(f, 0, capital);
    hide Trades, TellsOfTheMoney, Sane;
  }

  // A split adds the records of its two parts and no others.
  lemma SplitAdds(cfg: Config, start: real, compound: bool, splits: seq<Split>, n: nat, k: nat, part: string)
    requires SaneSplits(cfg, splits) && n < |splits|
    ensures var c := CapitalOf(cfg, start, compound, splits, n);
      PartOf(RecordsOf(cfg, start, compound, splits, n + 1), k, part)
      == PartOf(RecordsOf(cfg, start, compound, splits, n), k, part)
         + (if k != n then []
            else if part == "IS" then Trades(InSample(cfg, splits, n), 0, c)
            else if part == "OOS" then Trades(OutOfSample(cfg, splits, n), 0, c)
            else [])
  {
    hide Trades, Sane, CapitalOf, PartOf;
    var c := CapitalOf(cfg, start, compound, splits, n);
    var before := RecordsOf(cfg, start, compound, splits, n);
    var ins, outs := Trades(InSample(cfg, splits, n), 0, c), Trades(OutOfSample(cfg, splits, n), 0, c);
    TradesComeFrom(InSample(cfg, splits, n), c);
    TradesComeFrom(OutOfSample(cfg, splits, n), c);
    PartOfOne(ins, n, "IS", k, part);
    PartOfOne(outs, n, "OOS", k, part);
    PartOfConcat(before + ins, outs, k, part);
    PartOfConcat(before, ins, k, part);
    hide RecordsOf;
  }

  lemma {:induction false} PartsSoFar(cfg: Config, start: real, compound: bool, splits: seq<Split>, n: nat, k: nat,
                                      part: string)
    requires SaneSplits(cfg, splits) && n <= |splits|
    ensures var records := PartOf(RecordsOf(cfg, start, compound, splits, n), k, part);
      if k >= n then records == []
      else if part == "IS" then
        records == Trades(InSample(cfg, splits, k), 0, CapitalOf(cfg, start, compound, splits, k))
      else if part == "OOS" then
        records == Trades(OutOfSample(cfg, splits, k), 0, CapitalOf(cfg, start, compound, splits, k))
      else records == []
  {
    hide *;
    if n == 0 {
      NoPartsYet(cfg, start, compound, splits, k, part);
    } else {
      PartsSoFar(cfg, start, compound, splits, n - 1, k, part);
      SplitAdds(cfg, start, compound, splits, n - 1, k, part);
    }
  }

  lemma NoPartsYet(cfg: Config, start: real, compound: bool, splits: seq<Split>, k: nat, part: string)
    requires SaneSplits(cfg, splits)
    ensures PartOf(RecordsOf(cfg, start, compound, splits, 0), k, part) == []
  {
    hide Trades, CapitalOf, SaneSplits;
  }

  // The records of a run that carry a split's number and the name of a part are the trades
  // on the bars of that part with the capital of that split, and there are no others.
  lemma RecordsByPart(cfg: Config, start: real, compound: bool, splits: seq<Split>, k: nat, part: string, f: Fold)
    requires SaneSplits(cfg, splits) && k < |splits|
    requires part == "IS" ==> f == Fold(cfg, k, "IS", splits[k].inSample)
    requires part == "OOS" ==> f == Fold(cfg, k, "OOS", splits[k].outOfSample)
    ensures part == "IS" || part == "OOS" ==> Sane(f)
    ensures PartOf(RecordsOf(cfg, start, compound, splits, |splits|), k, part)
         == if part == "IS" || part == "OOS" then Trades(f, 0, CapitalOf(cfg, start, compound, splits, k)) else []
  {
    assert InSample(cfg, splits, k) == Fold(cfg, k, "IS", splits[k].inSample);
    assert OutOfSample(cfg, splits, k) == Fold(cfg, k, "OOS", splits[k].outOfSample);
    assert Sane(InSample(cfg, splits, k)) && Sane(OutOfSample(cfg, splits, k));
    hide *;
    PartsSoFar(cfg, start, compound, splits, |splits|, k, part);
  }

  // Without compounding every split trades with the starting capital.
  lemma CapitalStays(cfg: Config, start: real, splits: seq<Split>, k: nat)
    requires SaneSplits(cfg, splits) && k <= |splits|
    ensures CapitalOf(cfg, start, false, splits, k) == start
  {
    hide Profits;
  }

  // --- Profit by day ------------------------------------------------------------------

  // The number of days of the profit table.
  function Days(nBars: nat, barsPerDay: real): (n: nat)
    requires barsPerDay > 0.0
    ensures n >= 2
  {
    var days := (nBars as real) / barsPerDay;
    Max(days, 1.0).Floor + 1
  }

  // The table is just long enough for the bars, and for one whole day.
  lemma DaysCoverBars(nBars: nat, barsPerDay: real)
    requires barsPerDay > 0.0
    ensures var days := Days(nBars, barsPerDay) as real;
      (days - 1.0) * barsPerDay <= Max(nBars as real, barsPerDay) < days * barsPerDay
  {
    var x := Max((nBars as real) / barsPerDay, 1.0);
    FloorScaled(Max(nBars as real, barsPerDay), barsPerDay, x.Floor as real) by {
      ShareOfLarger(nBars as real, barsPerDay);
    }
  }

  lemma ShareOfLarger(x: real, z: real)
    requires z > 0.0
    ensures Max(x, z) / z == Max(x / z, 1.0)
  {
    var q := x / z;
    assert q * z == x;
    if x >= z {
      QuotientMonotone(z, x, z);
    } else {
      QuotientMonotone(x, z, z);
    }
  }

  function DayOf(exitBar: nat, barsPerDay: real, days: nat): (d: nat)
    requires barsPerDay > 0.0 && days > 0
    ensures d < days
  {
    QuotientAtLeastZero(exitBar as real, barsPerDay);
    var day := ((exitBar as real) / barsPerDay).Floor;
    if day <= days - 1 then day else days - 1
  }

  lemma QuotientAtLeastZero(x: real, y: real)
    requires x >= 0.0 && y > 0.0
    ensures x / y >= 0.0
  {
  }

  lemma QuotientMonotone(x: real, y: real, z: real)
    requires x <= y && z > 0.0
    ensures x / z <= y / z
  {
    QuotientAtLeastZero(y - x, z);
    assert y / z == x / z + (y - x) / z;
  }

  // No trade of a fold is pushed into an earlier day: the day is the one whose bars
  // hold the exit.
  lemma DayIsExact(exitBar: nat, nBars: nat, barsPerDay: real)
    requires exitBar < nBars && barsPerDay > 0.0
    ensures var d := DayOf(exitBar, barsPerDay, Days(nBars, barsPerDay)) as real;
      d * barsPerDay <= exitBar as real < (d + 1.0) * barsPerDay
  {
    hide DayOf, Days;
    DayIsFloor(exitBar, nBars, barsPerDay);
    FloorScaled(exitBar as real, barsPerDay, DayOf(exitBar, barsPerDay, Days(nBars, barsPerDay)) as real);
  }

  lemma DayIsFloor(exitBar: nat, nBars: nat, barsPerDay: real)
    requires exitBar < nBars && barsPerDay > 0.0
    ensures DayOf(exitBar, barsPerDay, Days(nBars, barsPerDay)) == ((exitBar as real) / barsPerDay).Floor
  {
    QuotientMonotone(exitBar as real, nBars as real, barsPerDay);
  }

  lemma FloorScaled(x: real, z: real, d: real)
    requires z > 0.0 && d <= x / z < d + 1.0
    ensures d * z <= x < (d + 1.0) * z
  {
    var below, above := x / z - d, d + 1.0 - x / z;
    assert below * z == x - d * z;
    assert above * z == (d + 1.0) * z - x;
  }

  // The net profit of the records among ts that close on day d.
  function NetOn(ts: seq<TradeRecord>, d: nat, barsPerDay: real, days: nat): real
    requires barsPerDay > 0.0 && days > 0
  {
    if ts == [] then 0.0
    else
      var last := ts[|ts| - 1];
      NetOn(ts[..|ts| - 1], d, barsPerDay, days)
      + if DayOf(last.exitBar, barsPerDay, days) == d then last.netPnl else 0.0
  }

  method DailyPnl(trades: seq<TradeRecord>, nBars: nat, barsPerDay: real) returns (daily: array<real>)
    requires barsPerDay > 0.0
    ensures fresh(daily) && daily.Length == Days(nBars, barsPerDay)
    ensures forall d :: 0 <= d < daily.Length ==> daily[d] == NetOn(trades, d, barsPerDay, daily.Length)
    ensures SumReals(daily[..]) == SumNet(trades)
  {
    var days := Days(nBars, barsPerDay);
    daily := new real[days](_ => 0.0);
    for i := 0 to |trades|
      invariant forall d :: 0 <= d < days ==> daily[d] == NetOn(trades[..i], d, barsPerDay, days)
    {
      var t := trades[i];
      var d := DayOf(t.exitBar, barsPerDay, days);
      assert trades[..i + 1][..i] == trades[..i];
      daily[d] := daily[d] + t.netPnl;
    }
    assert trades[..|trades|] == trades;
    DaysAddUp(trades, daily[..], barsPerDay);
  }

  // Every record is counted on exactly one day.
  lemma {:induction false} DaysAddUp(ts: seq<TradeRecord>, daily: seq<real>, barsPerDay: real)
    requires barsPerDay > 0.0 && |daily| > 0
    requires forall d :: 0 <= d < |daily| ==> daily[d] == NetOn(ts, d, barsPerDay, |daily|)
    ensures SumReals(daily) == SumNet(ts)
    decreases |ts|
  {
    if ts == [] {
      SumOfZeros(daily);
    } else {
      var n := |ts| - 1;
      var d, net := DayOf(ts[n].exitBar, barsPerDay, |daily|), ts[n].netPnl;
      var before := daily[d := daily[d] - net];
      DaysAddUp(ts[..n], before, barsPerDay);
      SumOfUpdate(before, d, net);
      assert before[d := before[d] + net] == daily;
      assert ts == ts[..n] + [ts[n]];
      SumNetAppend(ts[..n], [ts[n]]);
    }
  }

  lemma {:induction false} SumOfZeros(s: seq<real>)
    requires forall i :: 0 <= i < |s| ==> s[i] == 0.0
    ensures SumReals(s) == 0.0
  {
    if s != [] {
      SumOfZeros(s[..|s| - 1]);
    }
  }

  lemma {:induction false} SumOfUpdate(s: seq<real>, i: nat, x: real)
    requires i < |s|
    ensures SumReals(s[i := s[i] + x]) == SumReals(s) + x
  {
    var n := |s| - 1;
    if i < n {
      SumOfUpdate(s[..n], i, x);
      assert s[i := s[i] + x][..n] == s[..n][i := s[i] + x];
    } else {
      assert s[i := s[i] + x][..n] == s[..n];
    }
  }
}

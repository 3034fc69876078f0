// backtest/engine.py: the trades of one fold.
//
// The source runs one loop over the bars with a flag, an entry and a capital that it
// updates as it goes. Trips describes the same trades by looking ahead instead: find
// the bar that opens, the bar that closes it, the one partial exit between them, book
// the round trip, and go on behind it. The loop is proved to produce exactly these.
module Backtest {
  import opened Numbers
  import opened Wrappers

  const EXIT := 0
  const PARTIAL_EXIT := 2

  // Prices, signal and the spread volatility of the recent bars (None when there are
  // fewer than five samples); longSignal is the code of Signal.LONG_SPREAD.
  datatype Row = Row(signal: int, isWarm: bool, closeY: real, closeX: real, zscore: real, beta: real,
                     ts: int, reason: string, spreadVol: Option<real>)

  datatype Config = Config(
    longSignal: int, feeTaker: real, slippageBps: real, fundingAnnual: real, volTarget: real, kelly: real,
    maxLeverage: real, minPosition: real, barsPerDay: real, partialExitPct: real)

  datatype Entry = Entry(bar: nat, ts: int, sig: int, zscore: real, beta: real,
                         priceY: real, priceX: real, qtyY: real, qtyX: real)

  datatype TradeRecord = TradeRecord(
    fold: int, split: string, entryBar: nat, exitBar: nat, entryTs: int, exitTs: int, isLong: bool,
    entryZscore: real, exitZscore: real, hedgeRatio: real, qtyY: real, qtyX: real,
    entryPriceY: real, entryPriceX: real, exitPriceY: real, exitPriceX: real,
    grossPnl: real, fees: real, slippage: real, fundingCost: real, netPnl: real,
    barsHeld: int, exitReason: string, isPartial: bool)

  datatype Fold = Fold(cfg: Config, index: int, split: string, rows: seq<Row>)

  // A bar on which a flat book may open a position.
  predicate Asks(r: Row) {
    r.isWarm && r.signal != EXIT && r.signal != PARTIAL_EXIT
  }

  // Such bars can be sized, and days counted.
  predicate Sane(f: Fold) {
    f.cfg.barsPerDay != 0.0 && forall i :: 0 <= i < |f.rows| && Asks(f.rows[i]) ==> f.rows[i].closeY != 0.0
  }

  // The volatility of the spread over the recent bars, or two per cent of the price.
  function SpreadVol(r: Row): real {
    if r.spreadVol.Some? && r.spreadVol.value >= 0.00000001 then r.spreadVol.value else r.closeY * 0.02
  }

  // _compute_position_size, before rounding to six digits.
  function PositionSize(cfg: Config, r: Row, capital: real): (real, real)
    requires r.closeY != 0.0
  {
    var qtyY := Quantity(Target(cfg, capital), Ceiling(cfg, capital), SpreadVol(r), r.closeY, cfg.kelly);
    (qtyY, qtyY * r.beta)
  }

  function Target(cfg: Config, capital: real): real {
    capital * cfg.volTarget
  }

  function Ceiling(cfg: Config, capital: real): real {
    capital * cfg.maxLeverage
  }

  function Quantity(target: real, cap: real, vol: real, price: real, kelly: real): real
    requires price != 0.0
  {
    var notional := Min(target / Max(vol / price, 0.000001), cap) * kelly;
    notional / price
  }

  function EntryAt(f: Fold, i: nat, capital: real): Entry
    requires Sane(f) && i < |f.rows| && Asks(f.rows[i])
  {
    var r := f.rows[i];
    var (qtyY, qtyX) := PositionSize(f.cfg, r, capital);
    Entry(i, r.ts, r.signal, r.zscore, r.beta, r.closeY, r.closeX, qtyY, qtyX)
  }

  function Notional(e: Entry): real {
    e.qtyY * e.priceY + e.qtyX * e.priceX
  }

  // _build_trade_record, before rounding to four digits.
  function BuildRecord(f: Fold, e: Entry, exitBar: nat, exitTs: int, exitY: real, exitX: real, exitZ: real,
                       reason: string, isPartial: bool): TradeRecord
    requires f.cfg.barsPerDay != 0.0
  {
    var cfg := f.cfg;
    var barsHeld := exitBar - e.bar;
    var isLong := e.sig == cfg.longSignal;
    var pnlY := if isLong then (exitY - e.priceY) * e.qtyY else (e.priceY - exitY) * e.qtyY;
    var pnlX := if isLong then (e.priceX - exitX) * e.qtyX else (exitX - e.priceX) * e.qtyX;
    var gross := pnlY + pnlX;
    var notional := Notional(e);
    var fees := notional * cfg.feeTaker * 2.0;
    var slippage := notional * (cfg.slippageBps / 10000.0) * 2.0;
    var days := (barsHeld as real) / cfg.barsPerDay;
    var funding := notional * cfg.fundingAnnual * days / 365.0;
    TradeRecord(f.index, f.split, e.bar, exitBar, e.ts, exitTs, isLong, e.zscore, exitZ, e.beta, e.qtyY, e.qtyX,
                e.priceY, e.priceX, exitY, exitX, gross, fees, slippage, funding,
                gross - fees - slippage - funding, barsHeld, reason, isPartial)
  }

  function Sized(e: Entry, factor: real): Entry {
    e.(qtyY := e.qtyY * factor, qtyX := e.qtyX * factor)
  }

  function PartialRecord(f: Fold, e: Entry, i: nat): TradeRecord
    requires Sane(f) && i < |f.rows|
  {
    var r := f.rows[i];
    BuildRecord(f, Sized(e, f.cfg.partialExitPct), i, r.ts, r.closeY, r.closeX, r.zscore, "partial_exit", true)
  }

  // What is left in the position after the partial exit.
  function Remaining(f: Fold, e: Entry): Entry {
    Sized(e, 1.0 - f.cfg.partialExitPct)
  }

  function ExitRecord(f: Fold, e: Entry, i: nat): TradeRecord
    requires Sane(f) && i < |f.rows|
  {
    var r := f.rows[i];
    BuildRecord(f, e, i, r.ts, r.closeY, r.closeX, r.zscore, r.reason, false)
  }

  function FoldEndRecord(f: Fold, e: Entry): TradeRecord
    requires Sane(f) && f.rows != []
  {
    var r := f.rows[|f.rows| - 1];
    BuildRecord(f, e, |f.rows| - 1, r.ts, r.closeY, r.closeX, r.zscore, "fold_end", false)
  }

  function SumNet(ts: seq<TradeRecord>): real {
    if ts == [] then 0.0 else ts[0].netPnl + SumNet(ts[1..])
  }

  lemma {:induction false} SumNetAppend(a: seq<TradeRecord>, b: seq<TradeRecord>)
    ensures SumNet(a + b) == SumNet(a) + SumNet(b)
  {
    if a == [] {
      assert a + b == b;
    } else {
      assert (a + b)[0] == a[0] && (a + b)[1..] == a[1..] + b;
      SumNetAppend(a[1..], b);
    }
  }

  // --- Trades by looking ahead --------------------------------------------------

  // A flat book with this capital is opened at bar i.
  predicate Opens(f: Fold, i: nat, capital: real)
    requires Sane(f) && i < |f.rows|
  {
    var r := f.rows[i];
    Asks(r) && !(EntryAt(f, i, capital).qtyY * r.closeY < f.cfg.minPosition)
  }

  predicate Warm(f: Fold, i: nat, signal: int)
    requires i < |f.rows|
  {
    f.rows[i].isWarm && f.rows[i].signal == signal
  }

  // The first opening at or after i, or the number of bars.
  function FindOpen(f: Fold, i: nat, capital: real): (j: nat)
    requires Sane(f) && i <= |f.rows|
    ensures i <= j <= |f.rows|
    ensures j < |f.rows| ==> Asks(f.rows[j]) && Opens(f, j, capital)
    ensures forall k :: i <= k < j ==> !Opens(f, k, capital)
    decreases |f.rows| - i
  {
    if i == |f.rows| || Opens(f, i, capital) then i else FindOpen(f, i + 1, capital)
  }

  // The first warm bar in i..end-1 with the given signal, or end.
  function FindSignal(f: Fold, i: nat, end: nat, signal: int): (j: nat)
    requires i <= end <= |f.rows|
    ensures i <= j <= end
    ensures j < end ==> Warm(f, j, signal)
    ensures forall k :: i <= k < j ==> !Warm(f, k, signal)
    decreases end - i
  {
    if i == end || Warm(f, i, signal) then i else FindSignal(f, i + 1, end, signal)
  }

  function FindClose(f: Fold, i: nat): nat
    requires i <= |f.rows|
  {
    FindSignal(f, i, |f.rows|, EXIT)
  }

  // The records of a position opened with entry e whose partial exit is at bar
  // partial (none if that is close) and whose exit is at bar close (the fold end if
  // there is none).
  function Closing(f: Fold, e: Entry, close: nat): TradeRecord
    requires Sane(f) && f.rows != [] && close <= |f.rows|
  {
    if close < |f.rows| then ExitRecord(f, e, close) else FoldEndRecord(f, e)
  }

  function TripRecords(f: Fold, e: Entry, partial: nat, close: nat): seq<TradeRecord>
    requires Sane(f) && f.rows != [] && partial <= close <= |f.rows|
  {
    if partial < close then [PartialRecord(f, e, partial), Closing(f, Remaining(f, e), close)]
    else [Closing(f, e, close)]
  }

  // The round trip opened at bar i.
  function Trip(f: Fold, i: nat, capital: real): seq<TradeRecord>
    requires Sane(f) && i < |f.rows| && Asks(f.rows[i])
  {
    var close := FindClose(f, i + 1);
    TripRecords(f, EntryAt(f, i, capital), FindSignal(f, i + 1, close, PARTIAL_EXIT), close)
  }

  function Trips(f: Fold, i: nat, capital: real): seq<seq<TradeRecord>>
    requires Sane(f)
    decreases |f.rows| - i
  {
    if i >= |f.rows| then []
    else
      var open := FindOpen(f, i, capital);
      if open == |f.rows| then []
      else
        var trip := Trip(f, open, capital);
        [trip] + Trips(f, FindClose(f, open + 1) + 1, capital + SumNet(trip))
  }

  function Flatten<T>(ss: seq<seq<T>>): seq<T> {
    if ss == [] then [] else ss[0] + Flatten(ss[1..])
  }

  function Trades(f: Fold, i: nat, capital: real): seq<TradeRecord>
    requires Sane(f)
  {
    Flatten(Trips(f, i, capital))
  }

  // --- The loop ------------------------------------------------------------------

  // The trades still to come when the loop stands at bar i with this state.
  ghost function ToCome(f: Fold, i: nat, open: Option<Entry>, partialDone: bool, capital: real): seq<TradeRecord>
    requires Sane(f) && i <= |f.rows| && (open.Some? ==> f.rows != [])
  {
    match open
    case None => Trades(f, i, capital)
    case Some(e) =>
      var close := FindClose(f, i);
      var partial := if partialDone then close else FindSignal(f, i, close, PARTIAL_EXIT);
      var records := TripRecords(f, e, partial, close);
      records + Trades(f, close + 1, capital + SumNet(records))
  }

  lemma TripsSkip(f: Fold, i: nat, capital: real)
    requires Sane(f) && i < |f.rows| && !Opens(f, i, capital)
    ensures Trades(f, i, capital) == Trades(f, i + 1, capital)
  {
    if i + 1 == |f.rows| {
      assert FindOpen(f, i + 1, capital) == |f.rows|;
    }
  }

  lemma TripsOpen(f: Fold, i: nat, capital: real)
    requires Sane(f) && i < |f.rows| && Opens(f, i, capital)
    ensures Trades(f, i, capital) == ToCome(f, i + 1, Some(EntryAt(f, i, capital)), false, capital)
  {
    hide EntryAt, TripRecords, Opens, FindSignal, Trips, SumNet, ToCome;
    assert FindOpen(f, i, capital) == i;
    var trip := Trip(f, i, capital);
    TripsUnfold(f, i, capital);
    var rest := Trips(f, FindClose(f, i + 1) + 1, capital + SumNet(trip));
    assert ([trip] + rest)[1..] == rest;
    ToComeOpen(f, i + 1, EntryAt(f, i, capital), false, capital);
  }

  lemma OpenStays(f: Fold, i: nat, e: Entry, partialDone: bool, capital: real)
    requires Sane(f) && i < |f.rows| && !Warm(f, i, EXIT) && (partialDone || !Warm(f, i, PARTIAL_EXIT))
    ensures ToCome(f, i, Some(e), partialDone, capital) == ToCome(f, i + 1, Some(e), partialDone, capital)
  {
    hide EntryAt, PartialRecord, Closing, Remaining, Warm, Trips;
  }

  lemma ToComeOpen(f: Fold, i: nat, e: Entry, partialDone: bool, capital: real)
    requires Sane(f) && i <= |f.rows| && f.rows != []
    ensures var close := FindClose(f, i);
      var partial := if partialDone then close else FindSignal(f, i, close, PARTIAL_EXIT);
      var records := TripRecords(f, e, partial, close);
      ToCome(f, i, Some(e), partialDone, capital) == records + Trades(f, close + 1, capital + SumNet(records))
  {
    hide Trades, TripRecords, SumNet, FindSignal;
  }

  // The partial exit comes first and the rest of the position is closed later.
  lemma PartialThenClosing(f: Fold, e: Entry, partial: nat, close: nat)
    requires Sane(f) && partial < close <= |f.rows|
    ensures var p, last := PartialRecord(f, e, partial), TripRecords(f, Remaining(f, e), close, close);
      && TripRecords(f, e, partial, close) == [p] + last
      && SumNet([p] + last) == p.netPnl + SumNet(last)
  {
    hide PartialRecord, Closing, Remaining;
    var p, last := PartialRecord(f, e, partial), Closing(f, Remaining(f, e), close);
    assert [p, last] == [p] + [last];
    assert ([p] + [last])[1..] == [last];
  }

  lemma CloseBehindPartial(f: Fold, i: nat)
    requires i < |f.rows| && Warm(f, i, PARTIAL_EXIT)
    ensures i < FindClose(f, i) == FindClose(f, i + 1) <= |f.rows|
    ensures FindSignal(f, i, FindClose(f, i), PARTIAL_EXIT) == i
  {
    assert !Warm(f, i, EXIT);
  }

  lemma OpenTakesPartial(f: Fold, i: nat, e: Entry, capital: real)
    requires Sane(f) && i < |f.rows| && Warm(f, i, PARTIAL_EXIT)
    ensures var p := PartialRecord(f, e, i);
      ToCome(f, i, Some(e), false, capital)
      == [p] + ToCome(f, i + 1, Some(Remaining(f, e)), true, capital + p.netPnl)
  {
    hide EntryAt, PartialRecord, TripRecords, Remaining, Warm, Trades, FindClose, FindSignal, SumNet, ToCome;
    var p, close := PartialRecord(f, e, i), FindClose(f, i);
    CloseBehindPartial(f, i);
    PartialThenClosing(f, e, i, close);
    ToComeOpen(f, i, e, false, capital);
    ToComeOpen(f, i + 1, Remaining(f, e), true, capital + p.netPnl);
    var last := TripRecords(f, Remaining(f, e), close, close);
    assert capital + (p.netPnl + SumNet(last)) == capital + p.netPnl + SumNet(last);
    var rest := Trades(f, close + 1, capital + p.netPnl + SumNet(last));
    assert [p] + last + rest == [p] + (last + rest);
  }

  lemma OpenCloses(f: Fold, i: nat, e: Entry, partialDone: bool, capital: real)
    requires Sane(f) && i < |f.rows| && Warm(f, i, EXIT)
    ensures var t := ExitRecord(f, e, i);
      ToCome(f, i, Some(e), partialDone, capital) == [t] + ToCome(f, i + 1, None, false, capital + t.netPnl)
  {
    hide EntryAt, PartialRecord, ExitRecord, Remaining, Trades;
    assert FindClose(f, i) == i;
    assert SumNet([ExitRecord(f, e, i)]) == ExitRecord(f, e, i).netPnl;
  }

  lemma OpenEndsWithFold(f: Fold, e: Entry, partialDone: bool, capital: real)
    requires Sane(f) && f.rows != []
    ensures ToCome(f, |f.rows|, Some(e), partialDone, capital) == [FoldEndRecord(f, e)]
  {
    assert Trips(f, |f.rows| + 1, capital + SumNet([FoldEndRecord(f, e)])) == [];
  }

  method SimulateTrades(f: Fold, startingCapital: real) returns (trades: seq<TradeRecord>)
    requires Sane(f)
    ensures trades == Trades(f, 0, startingCapital)
  {
    hide EntryAt, PartialRecord, ExitRecord, FoldEndRecord, Remaining, Trips, Flatten, Trades, ToCome, BuildRecord,
      PositionSize;
    trades := [];
    var inTrade := false;
    var entry: Option<Entry> := None;
    var capital := startingCapital;
    var partialDone := false;
    ToComeFlat(f, 0, capital);
    for i := 0 to |f.rows|
      invariant inTrade == entry.Some? && (inTrade ==> i > 0) && (!inTrade ==> !partialDone)
      invariant trades + ToCome(f, i, entry, partialDone, capital) == Trades(f, 0, startingCapital)
    {
      var row := f.rows[i];
      ghost var before := trades;
      ToComeFlat(f, i, capital);
      ToComeFlat(f, i + 1, capital);
      if !row.isWarm {
        if inTrade {
          OpenStays(f, i, entry.value, partialDone, capital);
        } else {
          TripsSkip(f, i, capital);
        }
        continue;
      }
      if !inTrade && row.signal != EXIT && row.signal != PARTIAL_EXIT {
        var e := EntryAt(f, i, capital);
        if e.qtyY * row.closeY < f.cfg.minPosition {
          TripsSkip(f, i, capital);
          continue;
        }
        TripsOpen(f, i, capital);
        entry := Some(e);
        inTrade := true;
        partialDone := false;
      } else if inTrade && row.signal == PARTIAL_EXIT && !partialDone {
        OpenTakesPartial(f, i, entry.value, capital);
        var p := PartialRecord(f, entry.value, i);
        trades := trades + [p];
        capital := capital + p.netPnl;
        partialDone := true;
        entry := Some(Remaining(f, entry.value));
        assert before + ([p] + ToCome(f, i + 1, entry, true, capital))
            == trades + ToCome(f, i + 1, entry, true, capital);
      } else if inTrade && row.signal == EXIT {
        OpenCloses(f, i, entry.value, partialDone, capital);
        var t := ExitRecord(f, entry.value, i);
        trades := trades + [t];
        capital := capital + t.netPnl;
        inTrade := false;
        entry := None;
        partialDone := false;
        assert before + ([t] + ToCome(f, i + 1, None, false, capital))
            == trades + ToCome(f, i + 1, None, false, capital);
      } else if inTrade {
        OpenStays(f, i, entry.value, partialDone, capital);
      } else {
        TripsSkip(f, i, capital);
      }
    }
    if inTrade {
      OpenEndsWithFold(f, entry.value, partialDone, capital);
      trades := trades + [FoldEndRecord(f, entry.value)];
    } else {
      ToComeFlat(f, |f.rows|, capital);
      NoBarsNoTrades(f, capital);
    }
  }

  lemma ToComeFlat(f: Fold, i: nat, capital: real)
    requires Sane(f) && i <= |f.rows|
    ensures ToCome(f, i, None, false, capital) == Trades(f, i, capital)
  {
  }

  lemma NoBarsNoTrades(f: Fold, capital: real)
    requires Sane(f)
    ensures Trades(f, |f.rows|, capital) == []
  {
  }

  // --- What the trades are worth ---------------------------------------------------

  // The quantities of a round trip that a partial exit divides.
  datatype Totals = Totals(qtyY: real, qtyX: real, fees: real, slippage: real, funding: real, gross: real, net: real)

  function RecordTotals(r: TradeRecord): Totals {
    Totals(r.qtyY, r.qtyX, r.fees, r.slippage, r.fundingCost, r.grossPnl, r.netPnl)
  }

  function Added(a: Totals, b: Totals): Totals {
    Totals(a.qtyY + b.qtyY, a.qtyX + b.qtyX, a.fees + b.fees, a.slippage + b.slippage, a.funding + b.funding,
           a.gross + b.gross, a.net + b.net)
  }

  function TotalsOf(ts: seq<TradeRecord>): Totals {
    if ts == [] then Totals(0.0, 0.0, 0.0, 0.0, 0.0, 0.0, 0.0)
    else
      Added(RecordTotals(ts[0]), TotalsOf(ts[1..]))
  }

  lemma TotalsOfFew(a: TradeRecord, b: TradeRecord)
    ensures TotalsOf([a]) == RecordTotals(a)
    ensures TotalsOf([a, b]) == Added(RecordTotals(a), RecordTotals(b))
  {
    assert [b][1..] == [] && [a][1..] == [];
    assert TotalsOf([b]) == Added(RecordTotals(b), TotalsOf([]));
    assert [a, b][1..] == [b];
  }

  // What an unsplit position of this entry is charged and earns when it is closed at
  // the given prices after the given number of bars.
  function Whole(cfg: Config, e: Entry, exitY: real, exitX: real, bars: real): Totals
    requires cfg.barsPerDay != 0.0
  {
    var long, charges := LongProfit(e, exitY, exitX), Charge(e, cfg.feeTaker);
    var slippage, funding := Charge(e, cfg.slippageBps / 10000.0), Funding(cfg, e, bars);
    var gross := if e.sig == cfg.longSignal then long else -long;
    Totals(e.qtyY, e.qtyX, charges, slippage, funding, gross, gross - charges - slippage - funding)
  }

  function LongProfit(e: Entry, exitY: real, exitX: real): real {
    (exitY - e.priceY) * e.qtyY - (exitX - e.priceX) * e.qtyX
  }

  function Charge(e: Entry, rate: real): real {
    Notional(e) * rate * 2.0
  }

  function Funding(cfg: Config, e: Entry, bars: real): real
    requires cfg.barsPerDay != 0.0
  {
    Notional(e) * (cfg.fundingAnnual / 365.0) * (bars / cfg.barsPerDay)
  }

  // One exit or a partial one and then the exit, in order, inside the fold.
  lemma TripShape(f: Fold, i: nat, capital: real)
    requires Sane(f) && i < |f.rows| && Asks(f.rows[i])
    ensures var t := Trip(f, i, capital);
      && (|t| == 1 || (|t| == 2 && t[0].isPartial && t[0].exitBar > i))
      && !t[|t| - 1].isPartial
      && (forall k :: 0 <= k < |t| ==> t[k].entryBar == i && i <= t[k].exitBar < |f.rows|)
      && (|t| == 2 ==> t[0].exitBar < t[1].exitBar || FindClose(f, i + 1) == |f.rows|)
      && t[|t| - 1].exitBar == (if FindClose(f, i + 1) < |f.rows| then FindClose(f, i + 1) else |f.rows| - 1)
      && (t[|t| - 1].exitReason == "fold_end" || FindClose(f, i + 1) < |f.rows|)
  {
    hide PositionSize;
  }

  lemma RecordIsWhole(f: Fold, e: Entry, bar: nat, ts: int, y: real, x: real, z: real, reason: string, isPartial: bool)
    requires f.cfg.barsPerDay != 0.0
    ensures var r := BuildRecord(f, e, bar, ts, y, x, z, reason, isPartial);
      && RecordTotals(r) == Whole(f.cfg, e, y, x, (bar - e.bar) as real)
      && r.exitPriceY == y && r.exitPriceX == x && r.barsHeld == bar - e.bar
  {
    hide Notional;
    LongOrShort(e.priceY, e.priceX, y, x, e.qtyY, e.qtyX);
    FundingScalars(Notional(e), f.cfg.fundingAnnual, ((bar - e.bar) as real) / f.cfg.barsPerDay);
  }

  lemma FundingScalars(notional: real, rate: real, days: real)
    ensures notional * rate * days / 365.0 == notional * (rate / 365.0) * days
  {
  }

  lemma LongOrShort(py: real, px: real, y: real, x: real, qy: real, qx: real)
    ensures (y - py) * qy + (px - x) * qx == (y - py) * qy - (x - px) * qx
    ensures (py - y) * qy + (x - px) * qx == -((y - py) * qy - (x - px) * qx)
  {
  }

  function Weighted(p: real, a: real, b: real): real {
    p * a + (1.0 - p) * b
  }

  // Closing the share p at one pair of prices and the rest at another adds up to
  // closing everything at the weighted prices.
  lemma SplitAddsUp(cfg: Config, e: Entry, p: real, y0: real, x0: real, h0: real, y1: real, x1: real, h1: real)
    requires cfg.barsPerDay != 0.0
    ensures Added(Whole(cfg, Sized(e, p), y0, x0, h0), Whole(cfg, Sized(e, 1.0 - p), y1, x1, h1))
         == Whole(cfg, e, Weighted(p, y0, y1), Weighted(p, x0, x1), Weighted(p, h0, h1))
  {
    hide LongProfit, Charge, Funding, Weighted;
    SplitProfit(e, p, y0, x0, y1, x1);
    SplitCharge(e, p, cfg.feeTaker);
    SplitCharge(e, p, cfg.slippageBps / 10000.0);
    SplitFunding(cfg, e, p, h0, h1);
  }

  lemma SplitProfit(e: Entry, p: real, y0: real, x0: real, y1: real, x1: real)
    ensures LongProfit(Sized(e, p), y0, x0) + LongProfit(Sized(e, 1.0 - p), y1, x1)
         == LongProfit(e, Weighted(p, y0, y1), Weighted(p, x0, x1))
    ensures Sized(e, p).qtyY + Sized(e, 1.0 - p).qtyY == e.qtyY
    ensures Sized(e, p).qtyX + Sized(e, 1.0 - p).qtyX == e.qtyX
  {
    SplitQuantity(e.qtyY, p, e.priceY, y0, y1);
    SplitQuantity(e.qtyX, p, e.priceX, x0, x1);
  }

  lemma SplitQuantity(q: real, p: real, price: real, z0: real, z1: real)
    ensures q * p + q * (1.0 - p) == q
    ensures (z0 - price) * (q * p) + (z1 - price) * (q * (1.0 - p)) == (p * z0 + (1.0 - p) * z1 - price) * q
  {
  }

  lemma SplitCharge(e: Entry, p: real, rate: real)
    ensures Charge(Sized(e, p), rate) + Charge(Sized(e, 1.0 - p), rate) == Charge(e, rate)
  {
    ShareOfCharge(e.qtyY, e.qtyX, p, e.priceY, e.priceX, rate);
  }

  lemma ShareOfCharge(qy: real, qx: real, p: real, py: real, px: real, rate: real)
    ensures (qy * p * py + qx * p * px) * rate * 2.0 + (qy * (1.0 - p) * py + qx * (1.0 - p) * px) * rate * 2.0
         == (qy * py + qx * px) * rate * 2.0
  {
  }

  lemma SplitFunding(cfg: Config, e: Entry, p: real, h0: real, h1: real)
    requires cfg.barsPerDay != 0.0
    ensures Funding(cfg, Sized(e, p), h0) + Funding(cfg, Sized(e, 1.0 - p), h1) == Funding(cfg, e, Weighted(p, h0, h1))
  {
    ShareOfFunding(e.qtyY, e.qtyX, p, e.priceY, e.priceX, cfg.fundingAnnual / 365.0, h0, h1, cfg.barsPerDay);
  }

  lemma ShareOfFunding(qy: real, qx: real, p: real, py: real, px: real, rate: real, h0: real, h1: real, perDay: real)
    requires perDay != 0.0
    ensures (qy * p * py + qx * p * px) * rate * (h0 / perDay)
         + (qy * (1.0 - p) * py + qx * (1.0 - p) * px) * rate * (h1 / perDay)
         == (qy * py + qx * px) * rate * ((p * h0 + (1.0 - p) * h1) / perDay)
  {
    var n, d0, d1 := qy * py + qx * px, h0 / perDay, h1 / perDay;
    assert (p * h0 + (1.0 - p) * h1) / perDay == p * d0 + (1.0 - p) * d1;
    assert qy * p * py + qx * p * px == p * n;
    assert qy * (1.0 - p) * py + qx * (1.0 - p) * px == (1.0 - p) * n;
    ShareScalars(n, p, rate, d0, d1);
  }

  lemma ShareScalars(n: real, p: real, rate: real, d0: real, d1: real)
    ensures p * n * rate * d0 + (1.0 - p) * n * rate * d1 == n * rate * (p * d0 + (1.0 - p) * d1)
  {
  }

  // A split position is charged and closed exactly as the unsplit one: quantities,
  // fees and slippage add up, and funding and profit are those of the whole quantity
  // held for, and closed at, the two exits weighted by the partial share.
  lemma TripConserves(f: Fold, i: nat, capital: real)
    requires Sane(f) && i < |f.rows| && Asks(f.rows[i])
    ensures var t, p, e := Trip(f, i, capital), f.cfg.partialExitPct, EntryAt(f, i, capital);
      && 1 <= |t| <= 2
      && (|t| == 1 ==>
            TotalsOf(t) == Whole(f.cfg, e, t[0].exitPriceY, t[0].exitPriceX, t[0].barsHeld as real))
      && (|t| == 2 ==>
            TotalsOf(t) == Whole(f.cfg, e, Weighted(p, t[0].exitPriceY, t[1].exitPriceY),
                                 Weighted(p, t[0].exitPriceX, t[1].exitPriceX),
                                 Weighted(p, t[0].barsHeld as real, t[1].barsHeld as real)))
  {
    hide BuildRecord, PositionSize, Whole, Weighted, Sized, EntryAt, TotalsOf, Closing, PartialRecord, Remaining;
    var e, close, p := EntryAt(f, i, capital), FindClose(f, i + 1), f.cfg.partialExitPct;
    var partial := FindSignal(f, i + 1, close, PARTIAL_EXIT);
    if partial < close {
      var a, b := PartialRecord(f, e, partial), Closing(f, Remaining(f, e), close);
      assert Trip(f, i, capital) == [a, b];
      TotalsOfFew(a, b);
      PartialIsWhole(f, e, partial);
      ClosingIsWhole(f, Sized(e, 1.0 - p), close);
      RemainingIsSized(f, e);
      SplitAddsUp(f.cfg, e, p, a.exitPriceY, a.exitPriceX, a.barsHeld as real,
                  b.exitPriceY, b.exitPriceX, b.barsHeld as real);
    } else {
      var b := Closing(f, e, close);
      assert Trip(f, i, capital) == [b];
      TotalsOfFew(b, b);
      ClosingIsWhole(f, e, close);
    }
  }

  lemma RemainingIsSized(f: Fold, e: Entry)
    ensures Remaining(f, e) == Sized(e, 1.0 - f.cfg.partialExitPct)
  {
  }

  lemma PartialIsWhole(f: Fold, e: Entry, i: nat)
    requires Sane(f) && i < |f.rows|
    ensures var r := PartialRecord(f, e, i);
      RecordTotals(r)
      == Whole(f.cfg, Sized(e, f.cfg.partialExitPct), r.exitPriceY, r.exitPriceX, r.barsHeld as real)
  {
    hide BuildRecord, Whole;
    var r := f.rows[i];
    RecordIsWhole(f, Sized(e, f.cfg.partialExitPct), i, r.ts, r.closeY, r.closeX, r.zscore, "partial_exit", true);
  }

  lemma ClosingIsWhole(f: Fold, e: Entry, close: nat)
    requires Sane(f) && f.rows != [] && close <= |f.rows|
    ensures var r := Closing(f, e, close);
      RecordTotals(r) == Whole(f.cfg, e, r.exitPriceY, r.exitPriceX, r.barsHeld as real)
  {
    hide BuildRecord, Whole;
    var bar := if close < |f.rows| then close else |f.rows| - 1;
    var last := f.rows[bar];
    RecordIsWhole(f, e, bar, last.ts, last.closeY, last.closeX, last.zscore,
                  if close < |f.rows| then last.reason else "fold_end", false);
  }

  // Round trips do not overlap and leave no opening out: each opens at the first bar
  // behind the previous exit that opens with its capital, and that capital is the
  // starting capital plus the net profit of every earlier record.
  lemma {:induction false} TripsAreSequential(f: Fold, i: nat, capital: real, k: nat)
    requires Sane(f) && k < |Trips(f, i, capital)|
    ensures var ts := Trips(f, i, capital);
      var c := capital + SumNet(Flatten(ts[..k]));
      var from := if k == 0 then i else NextBar(f, ts[k - 1]);
      && ts[k] != [] && from <= ts[k][0].entryBar < |f.rows|
      && FindOpen(f, from, c) == ts[k][0].entryBar && ts[k] == Trip(f, ts[k][0].entryBar, c)
    decreases k
  {
    hide *;
    TripsUnfold(f, i, capital);
    var ts, open := Trips(f, i, capital), FindOpen(f, i, capital);
    var trip := Trip(f, open, capital);
    TripStarts(f, open, capital);
    if k == 0 {
      assert ts[..0] == [];
      FlattenUnfold(ts[..0]);
    } else {
      var next, c := FindClose(f, open + 1) + 1, capital + SumNet(trip);
      var rest := Trips(f, next, c);
      if next > |f.rows| {
        TripsUnfold(f, next, c);
        assert false;
      } else {
        NextIsBehindClose(f, open, capital);
        TripsAreSequential(f, next, c, k - 1);
        assert ts[k] == rest[k - 1] && (k > 1 ==> ts[k - 1] == rest[k - 2]);
        assert ts[..k] == [trip] + rest[..k - 1];
        FlattenUnfold([trip] + rest[..k - 1]);
        assert ([trip] + rest[..k - 1])[1..] == rest[..k - 1];
        SumNetAppend(trip, Flatten(rest[..k - 1]));
      }
    }
  }

  // Every record carries the name of its part of the data.
  ghost predicate Named(ts: seq<TradeRecord>, part: string) {
    forall k :: 0 <= k < |ts| ==> ts[k].split == part
  }

  lemma NamedConcat(a: seq<TradeRecord>, b: seq<TradeRecord>, part: string)
    requires Named(a, part) && Named(b, part)
    ensures Named(a + b, part)
  {
  }

  lemma {:induction false} TradesNameTheirPart(f: Fold, i: nat, capital: real)
    requires Sane(f)
    ensures Named(Trades(f, i, capital), f.split)
    decreases |f.rows| - i
  {
    hide *;
    TradesStep(f, i, capital);
    if i >= |f.rows| || FindOpen(f, i, capital) == |f.rows| {
      NothingIsNamed(f.split);
    } else {
      var open := FindOpen(f, i, capital);
      var trip := Trip(f, open, capital);
      var next, c := FindClose(f, open + 1) + 1, capital + SumNet(trip);
      TripNamesItsPart(f, open, capital);
      CloseIsBehind(f, open);
      TradesNameTheirPart(f, next, c);
      NamedConcat(trip, Trades(f, next, c), f.split);
    }
  }

  lemma TradesStep(f: Fold, i: nat, capital: real)
    requires Sane(f)
    ensures i >= |f.rows| || FindOpen(f, i, capital) == |f.rows| ==> Trades(f, i, capital) == []
    ensures i < |f.rows| && FindOpen(f, i, capital) < |f.rows| ==>
      var open := FindOpen(f, i, capital);
      var trip := Trip(f, open, capital);
      Trades(f, i, capital) == trip + Trades(f, FindClose(f, open + 1) + 1, capital + SumNet(trip))
  {
    hide Trips, Trip, FindOpen, FindClose, SumNet, Sane;
    TripsUnfold(f, i, capital);
    if i < |f.rows| && FindOpen(f, i, capital) < |f.rows| {
      var open := FindOpen(f, i, capital);
      var trip := Trip(f, open, capital);
      var rest := Trips(f, FindClose(f, open + 1) + 1, capital + SumNet(trip));
      assert ([trip] + rest)[1..] == rest;
    }
  }

  lemma NothingIsNamed(part: string)
    ensures Named([], part)
  {
  }

  lemma CloseIsBehind(f: Fold, open: nat)
    requires open < |f.rows|
    ensures open < FindClose(f, open + 1)
  {
  }

  lemma TripNamesItsPart(f: Fold, i: nat, capital: real)
    requires Sane(f) && i < |f.rows| && Asks(f.rows[i])
    ensures Named(Trip(f, i, capital), f.split)
  {
    hide PositionSize;
  }

  // A later round trip opens behind every exit of an earlier one.
  lemma {:induction false} TripsDoNotOverlap(f: Fold, i: nat, capital: real, k: nat, l: nat)
    requires Sane(f) && k < l < |Trips(f, i, capital)|
    ensures var ts := Trips(f, i, capital);
      forall a, b :: a in ts[k] && b in ts[l] ==> a.exitBar < b.entryBar
    decreases l
  {
    hide *;
    var ts := Trips(f, i, capital);
    TripsAreSequential(f, i, capital, k);
    TripsAreSequential(f, i, capital, l - 1);
    TripsAreSequential(f, i, capital, l);
    var c, d := capital + SumNet(Flatten(ts[..k])), capital + SumNet(Flatten(ts[..l]));
    var e := capital + SumNet(Flatten(ts[..l - 1]));
    TripOrder(f, ts[k][0].entryBar, c);
    TripOrder(f, ts[l - 1][0].entryBar, e);
    TripOrder(f, ts[l][0].entryBar, d);
    if k < l - 1 {
      TripsDoNotOverlap(f, i, capital, k, l - 1);
    }
  }

  lemma TripOrder(f: Fold, i: nat, capital: real)
    requires Sane(f) && i < |f.rows| && Asks(f.rows[i])
    ensures var t := Trip(f, i, capital);
      t != [] && forall r :: r in t ==> r.entryBar == i && i <= r.exitBar < NextBar(f, t)
  {
    hide PositionSize, BuildRecord;
    TripShape(f, i, capital);
  }

  lemma TripsUnfold(f: Fold, i: nat, capital: real)
    requires Sane(f)
    ensures i >= |f.rows| || FindOpen(f, i, capital) == |f.rows| ==> Trips(f, i, capital) == []
    ensures i < |f.rows| && FindOpen(f, i, capital) < |f.rows| ==>
      var open := FindOpen(f, i, capital);
      var trip := Trip(f, open, capital);
      Trips(f, i, capital) == [trip] + Trips(f, FindClose(f, open + 1) + 1, capital + SumNet(trip))
  {
    hide Trip, FindOpen;
  }

  lemma FlattenUnfold(ss: seq<seq<TradeRecord>>)
    ensures Flatten(ss) == if ss == [] then [] else ss[0] + Flatten(ss[1..])
    ensures SumNet([]) == 0.0
  {
  }

  lemma TripStarts(f: Fold, i: nat, capital: real)
    requires Sane(f) && i < |f.rows| && Asks(f.rows[i])
    ensures Trip(f, i, capital) != [] && Trip(f, i, capital)[0].entryBar == i
  {
    hide PositionSize, BuildRecord, FindOpen;
    TripShape(f, i, capital);
  }

  lemma NextIsBehindClose(f: Fold, i: nat, capital: real)
    requires Sane(f) && i < |f.rows| && Asks(f.rows[i]) && FindClose(f, i + 1) < |f.rows|
    ensures Trip(f, i, capital) != []
    ensures NextBar(f, Trip(f, i, capital)) == FindClose(f, i + 1) + 1
  {
    hide PositionSize, BuildRecord;
    TripShape(f, i, capital);
  }

  // The bar behind a round trip.
  function NextBar(f: Fold, trip: seq<TradeRecord>): nat {
    if trip == [] then 0 else trip[|trip| - 1].exitBar + 1
  }

  // With a share kelly of at most max_leverage times the capital at stake, no entry
  // is larger than that, whatever the volatility says.
  lemma EntryIsCapped(f: Fold, i: nat, capital: real)
    requires Sane(f) && i < |f.rows| && Asks(f.rows[i]) && f.cfg.kelly >= 0.0
    ensures EntryAt(f, i, capital).qtyY * f.rows[i].closeY <= f.cfg.kelly * (capital * f.cfg.maxLeverage)
    ensures EntryAt(f, i, capital).qtyX == EntryAt(f, i, capital).qtyY * f.rows[i].beta
  {
    hide SpreadVol, Quantity, Target;
    var r, cfg := f.rows[i], f.cfg;
    CapScalars(Target(cfg, capital), Ceiling(cfg, capital), SpreadVol(r), r.closeY, cfg.kelly);
  }

  lemma CapScalars(target: real, cap: real, vol: real, price: real, kelly: real)
    requires kelly >= 0.0 && price != 0.0
    ensures Quantity(target, cap, vol, price, kelly) * price <= kelly * cap
  {
    var m := Min(target / Max(vol / price, 0.000001), cap);
    assert m * kelly / price * price == m * kelly;
  }

  // The quantity that risks the target at this volatility, or spends the cap.
  predicate Targets(qty: real, target: real, cap: real, vol: real, price: real, kelly: real)
    requires price != 0.0
  {
    var share := if vol / price < 0.000001 then 0.000001 else vol / price;
    if target / share > cap then qty * price == kelly * cap
    else if vol / price >= 0.000001 then qty * vol == kelly * target
    else qty * (price * 0.000001) == kelly * target
  }

  // The volatility of the recent bars, or two per cent of the price if it is unknown or
  // below 1e-8.
  lemma SpreadVolIs(r: Row)
    ensures SpreadVol(r) == if r.spreadVol == None || r.spreadVol.value < 0.00000001 then r.closeY * 0.02
                            else r.spreadVol.value
  {
  }

  // What the size is for: an entry that the leverage does not cap carries, in money, the
  // targeted share of the capital per standard deviation of the spread, of which a
  // millionth of the price is the least that counts; a capped one is exactly as large as
  // the leverage allows. The hedge leg follows the hedge ratio.
  lemma EntryTargetsVolatility(f: Fold, i: nat, capital: real, target: real, cap: real)
    requires Sane(f) && i < |f.rows| && Asks(f.rows[i])
    requires target == capital * f.cfg.volTarget && cap == capital * f.cfg.maxLeverage
    ensures Targets(EntryAt(f, i, capital).qtyY, target, cap, SpreadVol(f.rows[i]), f.rows[i].closeY, f.cfg.kelly)
    ensures EntryAt(f, i, capital).qtyX == EntryAt(f, i, capital).qtyY * f.rows[i].beta
  {
    hide SpreadVol, Targets, Quantity;
    SizeTargets(target, cap, SpreadVol(f.rows[i]), f.rows[i].closeY, f.cfg.kelly);
    assert Target(f.cfg, capital) == target && Ceiling(f.cfg, capital) == cap;
  }

  lemma SizeTargets(target: real, cap: real, vol: real, price: real, kelly: real)
    requires price != 0.0
    ensures Targets(Quantity(target, cap, vol, price, kelly), target, cap, vol, price, kelly)
  {
    if vol / price >= 0.000001 {
      VolScalars(target, vol, price, kelly);
    } else {
      FloorScalars(target, price, kelly);
    }
    LeverageScalars(cap, price, kelly);
  }

  lemma FloorScalars(target: real, price: real, kelly: real)
    requires price != 0.0
    ensures target / 0.000001 * kelly / price * (price * 0.000001) == kelly * target
  {
    var a := target / 0.000001;
    var x := a * kelly / price;
    assert a * 0.000001 == target && x * price == a * kelly;
  }

  lemma VolScalars(target: real, vol: real, price: real, kelly: real)
    requires price != 0.0 && vol / price > 0.0
    ensures target / (vol / price) * kelly / price * vol == kelly * target
  {
    var u := vol / price;
    var a := target / u;
    var x := a * kelly / price;
    assert a * u == target && x * price == a * kelly && vol == u * price;
    Reorder(x, u, price);
    Reorder(kelly, a, u);
  }

  lemma Reorder(x: real, u: real, price: real)
    ensures x * (u * price) == (x * price) * u
  {
  }

  lemma LeverageScalars(cap: real, price: real, kelly: real)
    requires price != 0.0
    ensures cap * kelly / price * price == kelly * cap
  {
  }
}

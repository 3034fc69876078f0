// backtest/engine.py: what the trade records of a fold say, read off its bars alone.
//
// Signals are their codes here: 0 exits, 2 exits in part, anything else asks to enter.
module BacktestRecords {
  import opened Wrappers
  import opened Backtest

  // A record tells of its two bars: the prices, times and scores at which the position
  // was opened and closed, its direction and why it was closed.
  predicate TellsOfItsBars(f: Fold, r: TradeRecord) {
    && r.entryBar < |f.rows| && r.exitBar < |f.rows|
    && var a, b := f.rows[r.entryBar], f.rows[r.exitBar];
    && r.fold == f.index && r.split == f.split
    && r.entryTs == a.ts && r.entryZscore == a.zscore && r.hedgeRatio == a.beta
    && r.entryPriceY == a.closeY && r.entryPriceX == a.closeX
    && r.exitTs == b.ts && r.exitZscore == b.zscore
    && r.exitPriceY == b.closeY && r.exitPriceX == b.closeX
    && (r.isLong <==> a.signal == f.cfg.longSignal)
    && r.barsHeld == r.exitBar - r.entryBar
    && (if r.isPartial then b.isWarm && b.signal == 2 && r.exitReason == "partial_exit"
        else if r.exitReason == "fold_end" && !(b.isWarm && b.signal == 0 && r.exitBar > r.entryBar)
        then r.exitBar == |f.rows| - 1
        else b.isWarm && b.signal == 0 && r.exitBar > r.entryBar && r.exitReason == b.reason)
  }

  // And of the money: each leg earns its price move, the hedge leg the other way round;
  // fees and slippage are paid twice on the entry notional, funding by the day.
  predicate TellsOfTheMoney(f: Fold, r: TradeRecord)
    requires Sane(f) && r.entryBar < |f.rows| && r.exitBar < |f.rows|
  {
    var a, b, cfg := f.rows[r.entryBar], f.rows[r.exitBar], f.cfg;
    var notional := r.qtyY * a.closeY + r.qtyX * a.closeX;
    var days := ((r.exitBar - r.entryBar) as real) / cfg.barsPerDay;
    && (a.signal == cfg.longSignal ==>
          r.grossPnl == (b.closeY - a.closeY) * r.qtyY + (a.closeX - b.closeX) * r.qtyX)
    && (a.signal != cfg.longSignal ==>
          r.grossPnl == (a.closeY - b.closeY) * r.qtyY + (b.closeX - a.closeX) * r.qtyX)
    && r.fees == notional * cfg.feeTaker * 2.0
    && r.slippage == notional * (cfg.slippageBps / 10000.0) * 2.0
    && r.fundingCost == notional * cfg.fundingAnnual * days / 365.0
    && r.netPnl == r.grossPnl - r.fees - r.slippage - r.fundingCost
  }

  ghost predicate Tells(f: Fold, r: TradeRecord)
    requires Sane(f)
  {
    TellsOfItsBars(f, r) && TellsOfTheMoney(f, r)
  }

  ghost predicate AllTell(f: Fold, ts: seq<TradeRecord>)
    requires Sane(f)
  {
    forall k :: 0 <= k < |ts| ==> Tells(f, ts[k])
  }

  // An entry made at bar i, whatever is left of it.
  predicate MadeAt(f: Fold, e: Entry, i: nat) {
    && i < |f.rows|
    && var a := f.rows[i];
    e.bar == i && e.ts == a.ts && e.sig == a.signal && e.zscore == a.zscore && e.beta == a.beta
    && e.priceY == a.closeY && e.priceX == a.closeX
  }

  lemma EntryIsMade(f: Fold, i: nat, capital: real)
    requires Sane(f) && i < |f.rows| && Asks(f.rows[i])
    ensures MadeAt(f, EntryAt(f, i, capital), i) && MadeAt(f, Remaining(f, EntryAt(f, i, capital)), i)
  {
    hide PositionSize;
  }

  lemma SizedIsMade(f: Fold, e: Entry, i: nat, factor: real)
    requires MadeAt(f, e, i)
    ensures MadeAt(f, Sized(e, factor), i)
  {
  }

  // A record built at bar j from an entry made at bar i.
  lemma BuiltTells(f: Fold, e: Entry, i: nat, j: nat, reason: string, isPartial: bool)
    requires Sane(f) && MadeAt(f, e, i) && j < |f.rows|
    requires if isPartial then f.rows[j].isWarm && f.rows[j].signal == 2 && reason == "partial_exit"
      else if reason == "fold_end" && !(f.rows[j].isWarm && f.rows[j].signal == 0 && j > i) then j == |f.rows| - 1
      else f.rows[j].isWarm && f.rows[j].signal == 0 && j > i && reason == f.rows[j].reason
    ensures var b := f.rows[j];
      Tells(f, BuildRecord(f, e, j, b.ts, b.closeY, b.closeX, b.zscore, reason, isPartial))
  {
  }

  lemma PartialTells(f: Fold, e: Entry, i: nat, j: nat)
    requires Sane(f) && MadeAt(f, e, i) && j < |f.rows| && Warm(f, j, PARTIAL_EXIT)
    ensures Tells(f, PartialRecord(f, e, j))
  {
    SizedIsMade(f, e, i, f.cfg.partialExitPct);
    BuiltTells(f, Sized(e, f.cfg.partialExitPct), i, j, "partial_exit", true);
    hide BuildRecord, Sized, Tells, MadeAt;
  }

  lemma ClosingTells(f: Fold, e: Entry, i: nat, close: nat)
    requires Sane(f) && MadeAt(f, e, i) && i < close <= |f.rows| && (close < |f.rows| ==> Warm(f, close, EXIT))
    requires close == |f.rows| ==> forall k :: i < k < |f.rows| ==> !Warm(f, k, EXIT)
    ensures Tells(f, Closing(f, e, close))
  {
    if close < |f.rows| {
      BuiltTells(f, e, i, close, f.rows[close].reason, false);
    } else {
      assert |f.rows| - 1 > i ==> !Warm(f, |f.rows| - 1, EXIT);
      BuiltTells(f, e, i, |f.rows| - 1, "fold_end", false);
    }
    hide BuildRecord, Tells, MadeAt;
  }

  lemma TripTells(f: Fold, i: nat, capital: real)
    requires Sane(f) && i < |f.rows| && Asks(f.rows[i])
    ensures AllTell(f, Trip(f, i, capital))
  {
    hide Tells, EntryAt, PartialRecord, Closing, Remaining, MadeAt;
    var e, close := EntryAt(f, i, capital), FindClose(f, i + 1);
    var partial := FindSignal(f, i + 1, close, PARTIAL_EXIT);
    EntryIsMade(f, i, capital);
    if partial < close {
      PartialTells(f, e, i, partial);
      ClosingTells(f, Remaining(f, e), i, close);
    } else {
      ClosingTells(f, e, i, close);
    }
  }

  lemma AllTellConcat(f: Fold, a: seq<TradeRecord>, b: seq<TradeRecord>)
    requires Sane(f) && AllTell(f, a) && AllTell(f, b)
    ensures AllTell(f, a + b)
  {
    hide Tells, Sane;
  }

  // Every record of every fold does.
  lemma RecordsTell(f: Fold, i: nat, capital: real)
    requires Sane(f)
    ensures forall k :: 0 <= k < |Trades(f, i, capital)| ==>
      TellsOfItsBars(f, Trades(f, i, capital)[k]) && TellsOfTheMoney(f, Trades(f, i, capital)[k])
  {
    TradesTell(f, i, capital);
    hide TellsOfItsBars, TellsOfTheMoney, Trades, Sane;
  }

  lemma {:induction false} TradesTell(f: Fold, i: nat, capital: real)
    requires Sane(f)
    ensures AllTell(f, Trades(f, i, capital))
    decreases |f.rows| - i
  {
    hide *;
    TradesStep(f, i, capital);
    if i >= |f.rows| || FindOpen(f, i, capital) == |f.rows| {
      NothingTells(f);
    } else {
      var open := FindOpen(f, i, capital);
      var trip := Trip(f, open, capital);
      var next, c := FindClose(f, open + 1) + 1, capital + SumNet(trip);
      TripTells(f, open, capital);
      CloseIsBehind(f, open);
      TradesTell(f, next, c);
      AllTellConcat(f, trip, Trades(f, next, c));
    }
  }

  lemma NothingTells(f: Fold)
    requires Sane(f)
    ensures AllTell(f, [])
  {
  }

  // --- Which bars open and close ---------------------------------------------------

  predicate Signals(f: Fold, b: nat, signal: int)
    requires b < |f.rows|
  {
    f.rows[b].isWarm && f.rows[b].signal == signal
  }

  // A round trip closes at the first warm bar behind its opening that signals an exit, or
  // with the fold if there is none.
  lemma TripCloses(f: Fold, i: nat, capital: real)
    requires Sane(f) && i < |f.rows| && Asks(f.rows[i])
    ensures Trip(f, i, capital) != []
    ensures var t := Trip(f, i, capital);
      var last := t[|t| - 1];
      && last.exitBar < |f.rows| && !last.isPartial
      && (forall b :: i < b < last.exitBar ==> !Signals(f, b, 0))
      && ((i < last.exitBar && Signals(f, last.exitBar, 0))
          || (last.exitBar == |f.rows| - 1 && last.exitReason == "fold_end"
              && forall b :: i < b < |f.rows| ==> !Signals(f, b, 0)))
  {
    var e, close := EntryAt(f, i, capital), FindClose(f, i + 1);
    var partial := FindSignal(f, i + 1, close, PARTIAL_EXIT);
    NoneBefore(f, i + 1, |f.rows|, EXIT);
    ClosingIs(f, if partial < close then Remaining(f, e) else e, close);
    hide EntryAt, PartialRecord, Closing, Remaining, FindSignal, Signals, Asks, Sane;
  }

  // Before that it closes in part at the first warm bar that asks for it, the configured
  // share of both legs, and leaves the rest; without such a bar it closes as a whole.
  lemma TripDivides(f: Fold, i: nat, capital: real)
    requires Sane(f) && i < |f.rows| && Asks(f.rows[i])
    ensures var t, e, p := Trip(f, i, capital), EntryAt(f, i, capital), f.cfg.partialExitPct;
      || (|t| == 1 && t[0].qtyY == e.qtyY && t[0].qtyX == e.qtyX
          && forall b :: i < b <= t[0].exitBar < |f.rows| ==> !Signals(f, b, 2))
      || (|t| == 2 && i < t[0].exitBar < |f.rows| && t[0].isPartial && Signals(f, t[0].exitBar, 2)
          && t[0].exitBar <= t[1].exitBar
          && (forall b :: i < b < t[0].exitBar ==> !Signals(f, b, 2))
          && t[0].qtyY == e.qtyY * p && t[0].qtyX == e.qtyX * p
          && t[1].qtyY == e.qtyY * (1.0 - p) && t[1].qtyX == e.qtyX * (1.0 - p))
  {
    hide EntryAt, PartialRecord, Closing, Remaining, FindSignal, Signals, Asks, Sane;
    var e, close := EntryAt(f, i, capital), FindClose(f, i + 1);
    var partial := FindSignal(f, i + 1, close, PARTIAL_EXIT);
    NoneBefore(f, i + 1, |f.rows|, EXIT);
    NoneBefore(f, i + 1, close, PARTIAL_EXIT);
    PartialIs(f, e, partial, close);
    ClosingIs(f, if partial < close then Remaining(f, e) else e, close);
    if close < |f.rows| {
      NotBoth(f, close);
    }
  }

  lemma NotBoth(f: Fold, b: nat)
    requires b < |f.rows|
    ensures !(Signals(f, b, 0) && Signals(f, b, 2))
  {
  }

  lemma NoneBefore(f: Fold, i: nat, end: nat, signal: int)
    requires i <= end <= |f.rows|
    ensures var j := FindSignal(f, i, end, signal);
      && i <= j <= end
      && (j < end ==> Signals(f, j, signal))
      && (forall b :: i <= b < j ==> !Signals(f, b, signal))
  {
    forall b | i <= b < FindSignal(f, i, end, signal)
      ensures !Signals(f, b, signal)
    {
      assert !Warm(f, b, signal);
    }
  }

  lemma PartialIs(f: Fold, e: Entry, j: nat, close: nat)
    requires Sane(f) && j <= close <= |f.rows|
    ensures j < close ==>
      var r := PartialRecord(f, e, j);
      && r.exitBar == j && r.isPartial
      && r.qtyY == e.qtyY * f.cfg.partialExitPct && r.qtyX == e.qtyX * f.cfg.partialExitPct
    ensures var rest := Remaining(f, e);
      && rest.qtyY == e.qtyY * (1.0 - f.cfg.partialExitPct)
      && rest.qtyX == e.qtyX * (1.0 - f.cfg.partialExitPct)
  {
  }

  lemma ClosingIs(f: Fold, e: Entry, close: nat)
    requires Sane(f) && f.rows != [] && close <= |f.rows|
    ensures var r := Closing(f, e, close);
      && r.exitBar == (if close < |f.rows| then close else |f.rows| - 1)
      && (close == |f.rows| ==> r.exitReason == "fold_end")
      && !r.isPartial && r.qtyY == e.qtyY && r.qtyX == e.qtyX
  {
  }

  // A flat book of this capital would be opened at bar b: the bar is warm, asks for
  // neither kind of exit, and the first leg is worth the minimum.
  predicate Opening(f: Fold, b: nat, capital: real)
    requires Sane(f) && b < |f.rows|
  {
    f.rows[b].isWarm && f.rows[b].signal != 0 && f.rows[b].signal != 2
    && EntryAt(f, b, capital).qtyY * f.rows[b].closeY >= f.cfg.minPosition
  }

  lemma OpensIsOpening(f: Fold, b: nat, capital: real)
    requires Sane(f) && b < |f.rows|
    ensures Opens(f, b, capital) <==> Opening(f, b, capital)
  {
    hide EntryAt;
  }

  // Where the book is flat again with k round trips behind it, and its capital then.
  function FlatFrom(f: Fold, i: nat, ts: seq<seq<TradeRecord>>, k: nat): nat
    requires k <= |ts|
  {
    if k == 0 then i else NextBar(f, ts[k - 1])
  }

  function Earned(ts: seq<seq<TradeRecord>>, k: nat, capital: real): real
    requires k <= |ts|
  {
    capital + SumNet(Flatten(ts[..k]))
  }

  // Each round trip opens at the first bar behind the last exit that can, with the
  // starting capital and all net profits so far, and behind the last one no bar can.
  lemma NoOpeningIsMissed(f: Fold, i: nat, capital: real, k: nat)
    requires Sane(f) && k < |Trips(f, i, capital)|
    ensures var ts := Trips(f, i, capital);
      && ts[k] != [] && FlatFrom(f, i, ts, k) <= ts[k][0].entryBar < |f.rows|
      && Opening(f, ts[k][0].entryBar, Earned(ts, k, capital))
      && forall b :: FlatFrom(f, i, ts, k) <= b < ts[k][0].entryBar ==> !Opening(f, b, Earned(ts, k, capital))
  {
    hide Opening, Trips, Trip, FindOpen, FindClose, NextBar, SumNet, Flatten, Sane, Asks;
    var ts := Trips(f, i, capital);
    TripsAreSequential(f, i, capital, k);
    FirstOpening(f, FlatFrom(f, i, ts, k), Earned(ts, k, capital));
  }

  lemma NoOpeningAfterLast(f: Fold, i: nat, capital: real)
    requires Sane(f)
    ensures var ts := Trips(f, i, capital);
      forall b :: FlatFrom(f, i, ts, |ts|) <= b < |f.rows| ==> !Opening(f, b, Earned(ts, |ts|, capital))
  {
    hide *;
    var ts := Trips(f, i, capital);
    TripsEnd(f, i, capital);
    NoneIsOpening(f, FlatFrom(f, i, ts, |ts|), Earned(ts, |ts|, capital));
  }

  ghost predicate NoneOpensFrom(f: Fold, from: nat, capital: real)
    requires Sane(f)
  {
    forall b :: from <= b < |f.rows| ==> !Opens(f, b, capital)
  }

  lemma NoneIsOpening(f: Fold, from: nat, capital: real)
    requires Sane(f) && NoneOpensFrom(f, from, capital)
    ensures forall b :: from <= b < |f.rows| ==> !Opening(f, b, capital)
  {
    forall b | from <= b < |f.rows|
      ensures !Opening(f, b, capital)
    {
      OpensIsOpening(f, b, capital);
    }
    hide Opens, Opening, Sane;
  }

  lemma FirstOpening(f: Fold, i: nat, capital: real)
    requires Sane(f) && i <= |f.rows|
    ensures var j := FindOpen(f, i, capital);
      && i <= j <= |f.rows| && (j < |f.rows| ==> Opening(f, j, capital))
      && forall b :: i <= b < j ==> !Opening(f, b, capital)
  {
    var j := FindOpen(f, i, capital);
    if j < |f.rows| {
      OpensIsOpening(f, j, capital);
    }
    forall b | i <= b < j
      ensures !Opening(f, b, capital)
    {
      OpensIsOpening(f, b, capital);
    }
    hide Opens, Opening;
  }

  lemma {:induction false} TripsEnd(f: Fold, i: nat, capital: real)
    requires Sane(f)
    ensures var ts := Trips(f, i, capital);
      NoneOpensFrom(f, FlatFrom(f, i, ts, |ts|), Earned(ts, |ts|, capital))
    decreases |f.rows| - i
  {
    hide *;
    TripsUnfold(f, i, capital);
    var ts, open := Trips(f, i, capital), if i < |f.rows| then FindOpen(f, i, capital) else |f.rows|;
    if i >= |f.rows| {
      NothingEarned(f, i, capital);
      NoBarsLeft(f, i, capital);
    } else if open == |f.rows| {
      NothingEarned(f, i, capital);
      NoneOpens(f, i, capital);
    } else {
      var trip := Trip(f, open, capital);
      var next, c := FindClose(f, open + 1) + 1, capital + SumNet(trip);
      CloseIsBehind(f, open);
      TripsEnd(f, next, c);
      NextBehind(f, open, capital);
      OneMoreEarned(f, i, next, trip, Trips(f, next, c), capital);
      NoBarsLeft(f, |f.rows|, Earned(Trips(f, next, c), |Trips(f, next, c)|, c));
    }
  }

  lemma NoBarsLeft(f: Fold, i: nat, capital: real)
    requires Sane(f) && i >= |f.rows|
    ensures NoneOpensFrom(f, i, capital)
  {
  }

  lemma NothingEarned(f: Fold, i: nat, capital: real)
    ensures FlatFrom(f, i, [], 0) == i && Earned([], 0, capital) == capital
  {
  }

  lemma OneMoreEarned(f: Fold, i: nat, next: nat, trip: seq<TradeRecord>, rest: seq<seq<TradeRecord>>, capital: real)
    ensures Earned([trip] + rest, |[trip] + rest|, capital) == Earned(rest, |rest|, capital + SumNet(trip))
    ensures FlatFrom(f, i, [trip] + rest, |[trip] + rest|)
         == if rest == [] then NextBar(f, trip) else FlatFrom(f, next, rest, |rest|)
    ensures rest == [] ==> FlatFrom(f, next, rest, |rest|) == next
  {
    hide Flatten, SumNet, NextBar;
    var ts := [trip] + rest;
    assert ts[..|ts|] == ts;
    assert rest[..|rest|] == rest;
    assert ts[1..] == rest;
    FlattenUnfold(ts);
    SumNetAppend(trip, Flatten(rest));
  }

  lemma NoneOpens(f: Fold, i: nat, capital: real)
    requires Sane(f) && i <= |f.rows| && FindOpen(f, i, capital) == |f.rows|
    ensures NoneOpensFrom(f, i, capital)
  {
    hide Opens, Sane;
  }

  lemma NextBehind(f: Fold, i: nat, capital: real)
    requires Sane(f) && i < |f.rows| && Asks(f.rows[i])
    ensures var next := FindClose(f, i + 1) + 1;
      NextBar(f, Trip(f, i, capital)) == if next <= |f.rows| then next else |f.rows|
  {
    hide PositionSize, BuildRecord;
    TripShape(f, i, capital);
  }
}

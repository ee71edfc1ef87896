/** `_backtest_strategy`: the loop over bars, the forced liquidation and the
    report built from the trade list and the equity curve. */
module Backtest {
  import opened Common
  import opened Simulator
  import opened Metrics

  /** Why `_backtest_strategy` produces no report: the total return
      divides by a zero initial capital. */
  datatype Error = ZeroInitialCapital

  /** The dictionary `_backtest_strategy` returns. */
  datatype Report = Report(
    initialCapital: real,
    finalValue: real,
    totalReturn: real,
    totalTrades: nat,
    winningTrades: nat,
    losingTrades: nat,
    winRate: real,
    maxDrawdown: real,
    sharpeRatio: Sharpe,
    trades: seq<Trade>)

  /** The report of a finished run. */
  function Summary(f: Sim, initialCapital: real): Report
    requires initialCapital != 0.0 && NonZero(f.equity)
  {
    var winning, losing := |Winning(f.trades)|, |Losing(f.trades)|;
    Report(initialCapital, f.capital, TotalReturn(f.capital, initialCapital),
           winning + losing, winning, losing, WinRate(winning, losing),
           MaxDrawdown(f.equity), SharpeRatio(f.equity), LastTrades(f.trades))
  }

  /** With a non-zero initial capital no equity value is zero, so every
      ratio of the report is defined. */
  lemma EquityNonZero(closes: seq<real>, positions: seq<Option<int>>, initialCapital: real)
    requires AllPositive(closes) && |positions| == |closes| && initialCapital != 0.0
    ensures NonZero(Simulate(closes, positions, initialCapital).equity)
  {
    ForcedLiquidation(closes, positions, initialCapital);
    EquitySign(closes, positions, initialCapital, |closes|);
  }

  /** What `_backtest_strategy` returns for a close column and the position
      column of a strategy; a zero initial capital is the division error of
      the total return. */
  function Outcome(closes: seq<real>, positions: seq<Option<int>>, initialCapital: real): (r: Result<Report, Error>)
    requires AllPositive(closes) && |positions| == |closes|
    ensures r.Failure? <==> initialCapital == 0.0
    ensures r.Failure? ==> r.error == ZeroInitialCapital
    ensures r.Success? ==> r.value.initialCapital == initialCapital
  {
    if initialCapital == 0.0 then Failure(ZeroInitialCapital)
    else
      EquityNonZero(closes, positions, initialCapital);
      Success(Summary(Simulate(closes, positions, initialCapital), initialCapital))
  }

  /** The body of the loop over rows: the buy rule, else the sell rule,
      then the bar's equity, on the loop's own variables. */
  method Bar(capital: real, shares: real, inPosition: bool, entryPrice: real,
             trades: seq<Trade>, equity: seq<real>, bar: nat, price: real, position: Option<int>)
      returns (capital': real, shares': real, inPosition': bool, entryPrice': real,
               trades': seq<Trade>, equity': seq<real>)
    requires price > 0.0 && (inPosition ==> entryPrice > 0.0)
    ensures Sim(capital', shares', inPosition', entryPrice', trades', equity')
         == Step(Sim(capital, shares, inPosition, entryPrice, trades, equity), bar, price, position)
  {
    ghost var before := Sim(capital, shares, inPosition, entryPrice, trades, equity);
    ghost var after := Step(before, bar, price, position);
    capital', shares', inPosition', entryPrice', trades' := capital, shares, inPosition, entryPrice, trades;
    if position.Some? && position.value > 0 && !inPosition && capital > 0.0 {
      StepBuys(before, bar, price, position);
      shares' := capital / price;
      capital' := 0.0;
      inPosition' := true;
      entryPrice' := price;
      trades' := trades + [Trade(Buy, bar, price, shares', None)];
    } else if position.Some? && position.value < 0 && inPosition && shares > 0.0 {
      StepSells(before, bar, price, position);
      capital' := shares * price;
      inPosition' := false;
      var pnl := (price - entryPrice) / entryPrice * 100.0;
      trades' := trades + [Trade(Sell, bar, price, shares, Some(pnl))];
      shares' := 0.0;
    } else {
      StepIdles(before, bar, price, position);
    }
    assert capital' == after.capital;
    assert shares' == after.shares;
    assert inPosition' == after.inPosition;
    assert entryPrice' == after.entryPrice;
    assert trades' == after.trades;
    var currentEquity := if inPosition' then capital' + shares' * price else capital';
    assert currentEquity == Worth(after, price);
    StepEquity(before, bar, price, position);
    equity' := equity + [currentEquity];
    assert equity' == after.equity;
  }

  /** The loop over rows of `_backtest_strategy`: the state it leaves is
      that of the specification after every bar. */
  method RunBars(closes: seq<real>, positions: seq<Option<int>>, initialCapital: real)
      returns (capital: real, shares: real, inPosition: bool, entryPrice: real,
               trades: seq<Trade>, equity: seq<real>)
    requires AllPositive(closes) && |positions| == |closes|
    ensures Sim(capital, shares, inPosition, entryPrice, trades, equity)
         == Replay(closes, positions, initialCapital, |closes|)
  {
    capital, shares, inPosition, entryPrice := initialCapital, 0.0, false, 0.0;
    trades, equity := [], [];
    var i := 0;
    while i < |closes|
      invariant 0 <= i <= |closes|
      invariant Sim(capital, shares, inPosition, entryPrice, trades, equity)
             == Replay(closes, positions, initialCapital, i)
    {
      capital, shares, inPosition, entryPrice, trades, equity :=
        Bar(capital, shares, inPosition, entryPrice, trades, equity, i, closes[i], positions[i]);
      i := i + 1;
    }
  }

  /** `_backtest_strategy`: the bars, the forced sale of a position still
      open, then the report. */
  method BacktestStrategy(closes: seq<real>, positions: seq<Option<int>>, initialCapital: real)
      returns (result: Result<Report, Error>)
    requires AllPositive(closes) && |positions| == |closes|
    ensures result == Outcome(closes, positions, initialCapital)
  {
    var capital, shares, inPosition, entryPrice, trades, equity := RunBars(closes, positions, initialCapital);
    if inPosition {
      var finalPrice := closes[|closes| - 1];
      capital := shares * finalPrice;
      trades := trades + [Trade(Sell, |closes| - 1, finalPrice, shares, None)];
    }
    var finished := Sim(capital, shares, inPosition, entryPrice, trades, equity);
    assert finished == Simulate(closes, positions, initialCapital);
    if initialCapital == 0.0 {
      return Failure(ZeroInitialCapital);
    }
    EquityNonZero(closes, positions, initialCapital);
    result := Success(Summary(finished, initialCapital));
  }

  /** A round trip's pnl is positive exactly when it sold above its buy
      price, and negative exactly when it sold below. */
  lemma PnlSign(entry: real, exit: real)
    requires entry > 0.0
    ensures Pnl(entry, exit) > 0.0 <==> exit > entry
    ensures Pnl(entry, exit) < 0.0 <==> exit < entry
  {
    DivCompare(exit - entry, entry, 0.0);
  }

  /** A record counts as a winner exactly when it is a Sell driven by the
      position column at a price above that of the Buy it closes, and as a
      loser exactly when that Sell is below it; the forced final Sell is
      neither, whatever its price. */
  lemma ScoredTrades(closes: seq<real>, positions: seq<Option<int>>, initialCapital: real, k: nat)
    requires AllPositive(closes) && |positions| == |closes|
    requires k < |Simulate(closes, positions, initialCapital).trades|
    ensures var r, t := Replay(closes, positions, initialCapital, |closes|), Simulate(closes, positions, initialCapital).trades;
            && (Wins(t[k]) <==> t[k].side == Sell && 0 < k < |r.trades| && t[k].price > t[k - 1].price)
            && (Loses(t[k]) <==> t[k].side == Sell && 0 < k < |r.trades| && t[k].price < t[k - 1].price)
  {
    SellPnl(closes, positions, initialCapital, k);
    var t := Simulate(closes, positions, initialCapital).trades;
    if t[k].side == Sell {
      PnlSign(t[k - 1].price, t[k].price);
    }
  }

  /** Record k is a Sell among the first m records (those driven by the
      position column) at a price above that of the Buy it closes. */
  predicate WinningSell(t: seq<Trade>, m: nat, k: int) {
    0 < k < m && k < |t| && t[k].side == Sell && t[k].price > t[k - 1].price
  }

  /** Record k is such a Sell at a price below that of its Buy. */
  predicate LosingSell(t: seq<Trade>, m: nat, k: int) {
    0 < k < m && k < |t| && t[k].side == Sell && t[k].price < t[k - 1].price
  }

  /** Counting winners and losers through a characterisation of each
      position of the list. */
  lemma CountScored(t: seq<Trade>, m: nat)
    requires forall k :: 0 <= k < |t| ==> (Wins(t[k]) <==> WinningSell(t, m, k))
    requires forall k :: 0 <= k < |t| ==> (Loses(t[k]) <==> LosingSell(t, m, k))
    ensures |Winning(t)| == |set k | 0 <= k < |t| && WinningSell(t, m, k)|
    ensures |Losing(t)| == |set k | 0 <= k < |t| && LosingSell(t, m, k)|
  {
    FilterCounts(t);
    assert WinIndices(t) == set k | 0 <= k < |t| && WinningSell(t, m, k);
    assert LossIndices(t) == set k | 0 <= k < |t| && LosingSell(t, m, k);
  }

  /** The reported numbers of winning and losing trades count exactly the
      Sells driven by the position column whose price is above (below) that
      of the Buy they close. */
  lemma ReportWinners(closes: seq<real>, positions: seq<Option<int>>, initialCapital: real)
    requires AllPositive(closes) && |positions| == |closes| && initialCapital != 0.0
    ensures var rep, m, t := Outcome(closes, positions, initialCapital).value,
                             |Replay(closes, positions, initialCapital, |closes|).trades|,
                             Simulate(closes, positions, initialCapital).trades;
            && rep.winningTrades == |set k | 0 <= k < |t| && WinningSell(t, m, k)|
            && rep.losingTrades == |set k | 0 <= k < |t| && LosingSell(t, m, k)|
  {
    var m := |Replay(closes, positions, initialCapital, |closes|).trades|;
    var t := Simulate(closes, positions, initialCapital).trades;
    forall k | 0 <= k < |t|
      ensures (Wins(t[k]) <==> WinningSell(t, m, k)) && (Loses(t[k]) <==> LosingSell(t, m, k))
    {
      ScoredTrades(closes, positions, initialCapital, k);
    }
    CountScored(t, m);
  }

  /** The winners and losers of a report never outnumber the records, and
      its win rate is a fraction that is 0 with no winner and 1 with no loser. */
  lemma ReportCounts(closes: seq<real>, positions: seq<Option<int>>, initialCapital: real)
    requires AllPositive(closes) && |positions| == |closes| && initialCapital != 0.0
    ensures var rep, f := Outcome(closes, positions, initialCapital).value, Simulate(closes, positions, initialCapital);
            && rep.totalTrades == rep.winningTrades + rep.losingTrades <= |f.trades|
            && 0.0 <= rep.winRate <= 1.0
            && (rep.winRate == 0.0 <==> rep.winningTrades == 0)
            && (rep.winRate == 1.0 <==> rep.winningTrades > 0 && rep.losingTrades == 0)
            && |rep.trades| <= 10 && f.trades == f.trades[..|f.trades| - |rep.trades|] + rep.trades
  {
    WinLossPartition(Simulate(closes, positions, initialCapital).trades);
  }

  /** A strategy that never trades reports its initial capital back, with no
      return, no trades, no drawdown and a Sharpe ratio of 0. */
  lemma IdleReport(closes: seq<real>, positions: seq<Option<int>>, initialCapital: real)
    requires AllPositive(closes) && |positions| == |closes| && initialCapital != 0.0
    requires Simulate(closes, positions, initialCapital).trades == []
    ensures var rep := Outcome(closes, positions, initialCapital).value;
            && rep.finalValue == initialCapital && rep.totalReturn == 0.0
            && rep.totalTrades == 0 && rep.winRate == 0.0
            && rep.maxDrawdown == 0.0 && rep.sharpeRatio == Zero && rep.trades == []
  {
    var f := Simulate(closes, positions, initialCapital);
    IdleRun(closes, positions, initialCapital);
    EquityNonZero(closes, positions, initialCapital);
    FlatDrawdown(f.equity);
    FlatSharpe(f.equity);
  }

  /** With a positive initial capital the reported drawdown lies in [0, 100)
      and is 0 exactly when the equity curve never falls. */
  lemma ReportDrawdown(closes: seq<real>, positions: seq<Option<int>>, initialCapital: real)
    requires AllPositive(closes) && |positions| == |closes| && initialCapital > 0.0
    ensures var rep, f := Outcome(closes, positions, initialCapital).value, Simulate(closes, positions, initialCapital);
            && 0.0 <= rep.maxDrawdown < 100.0
            && (rep.maxDrawdown == 0.0 <==> NonDecreasing(f.equity))
  {
    var f := Simulate(closes, positions, initialCapital);
    ForcedLiquidation(closes, positions, initialCapital);
    EquitySign(closes, positions, initialCapital, |closes|);
    assert AllPositive(f.equity);
    DrawdownBounds(f.equity);
  }

  /** The final value is the cash after the last record: the initial capital
      without trades, the proceeds of the last Sell otherwise, and the total
      return is positive exactly when that beats a positive initial capital. */
  lemma ReportValue(closes: seq<real>, positions: seq<Option<int>>, initialCapital: real)
    requires AllPositive(closes) && |positions| == |closes| && initialCapital != 0.0
    ensures var rep, f := Outcome(closes, positions, initialCapital).value, Simulate(closes, positions, initialCapital);
            && rep.finalValue == CashBefore(f.trades, |f.trades|, initialCapital)
            && (rep.totalReturn == 0.0 <==> rep.finalValue == initialCapital)
            && (initialCapital > 0.0 ==> (rep.totalReturn > 0.0 <==> rep.finalValue > initialCapital))
  {
    FinalValue(closes, positions, initialCapital);
  }
}

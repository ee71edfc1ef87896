# TradeMate strategy backtester in Dafny

This project models the backtesting engine of TradeMate, the `StrategyTester`
class of `backend/strategy_tester.py`. Given a symbol's daily closes, a request
names one of three strategies and its parameters:

- `moving_average` is a crossover of two rolling means of the close.
- `momentum` uses the percentage change of the close over a period, with a fixed ±2% threshold.
- `rsi` uses a 14-bar relative strength index with oversold and overbought thresholds.

Each strategy turns its indicator into a signal in {-1, 0, 1}. The signal's
first difference is the position column. A Flat/Long machine then walks the
bars:

- A positive position puts all the cash into shares.
- A negative position sells all the shares.
- One equity value is recorded per bar.
- A position still open after the last bar is sold at the last close.

The report gives the final value, the total return, the win/loss counts and
the win rate, the maximum drawdown of the equity curve, a Sharpe ratio and the
last ten trade records. `test_strategy` wraps this with:

- a guard requiring 60 bars of history;
- the choice of strategy;
- defaults for missing parameter keys;
- tagging the report with the request.

Modules, one file each:

- `Common` (`common.dfy`): `Option`, which stands for a pandas NaN; `Result`; the NaN-aware comparisons; sums and means.
- `Indicators` (`indicators.dfy`): rolling means, moving averages, momentum and RSI (source lines 15-30, 49).
- `Signals` (`signals.dfy`): the three strategies, the signal masks and the position column (lines 32-71).
- `Simulator` (`simulator.dfy`): the bar-by-bar machine as pure functions `Step`, `Replay`, `Liquidate` and `Simulate`, with the invariants it keeps (lines 73-127).
- `Metrics` (`metrics.dfy`): win/loss classification, win rate, total return, running peak and drawdown, returns, sample variance, Sharpe ratio and the last ten trades (lines 129-158).
- `Backtest` (`backtest.dfy`): `_backtest_strategy` as an imperative method, plus the report it returns and the lemmas about that report.
  - `Bar` is one loop iteration.
  - `RunBars` is the `for` loop.
  - `BacktestStrategy` is the loop, then the liquidation, then the metrics.
  - Each is proved equal to the pure specification in `Simulator` and `Metrics`.
- `Tester` (`tester.dfy`): `test_strategy`.

Several lemmas are views of one definition rather than independent
properties: `Indicators.RsiAt` unfolds `Rsi` at one bar, and
`Simulator.StepBuys`, `StepSells`, `StepIdles` and `StepEquity` are the
three cases and the equity append of `Step`. They are listed in the table
because the loop method `Backtest.Bar` and the invariant proofs are built
on them. The substantive properties are in the invariant lemmas
(`ReplayLedger`, `ForcedLiquidation`, `SellPnl`), the characterisations
(`RsiDefined`, `DrawdownBounds`, `SharpeValueZero`, `ScoredTrades`,
`ReportWinners`) and the loop proofs (`RunBars`, `BacktestStrategy`).

Design points that follow the code:

- **No pnl on the forced sell.** The final sell forced after the loop (lines 119-127) carries no `pnl`. `t.get('pnl', 0)` therefore makes it neither a winner nor a loser, whatever its price. `Backtest.ScoredTrades` states this.
- **Sell beats buy.** Both masks assign to the same `Signal` column, buy first and sell second. Where both hold, the sell wins (`Signals.Mask`). For RSI this happens when `oversold > overbought`.
- **NaN comparisons.** Every comparison with NaN is false. So a missing moving average, momentum or RSI gives signal 0, and a missing position (bar 0) trades nothing.
- **Flat RSI window.** If the close does not move over 14 bars, the gain and loss means are both 0. `rs` is then NaN and so is the RSI. If the loss mean is 0 and the gain mean is not, `rs` is infinite and the RSI is exactly 100.
- **Rolling windows.** A rolling window of 0 yields only NaN. A negative moving-average window is the `ValueError` pandas raises. The short window is checked first.
- **Zero initial capital.** The total return divides by the initial capital, so a zero initial capital fails.

## Model

| member | source | states |
|---|---|---|
| Indicators.RollingMean | backend/strategy_tester.py:18-19 | the rolling mean has one entry per bar |
| Indicators.RollingMeanWarmUp | backend/strategy_tester.py:18-19 | a rolling mean of window w is defined at bar i exactly when w >= 1 and the window is full (i >= w-1) |
| Indicators.RollingMeanSlide | backend/strategy_tester.py:18-19 | moving the window one bar changes the mean by (new close - dropped close)/w |
| Indicators.RollingMeanBounds | backend/strategy_tester.py:18-19 | a defined rolling mean lies between the least and greatest value of its window |
| Indicators.CalculateMovingAverages | backend/strategy_tester.py:15-20 | both moving-average columns have one entry per bar |
| Indicators.Momentum | backend/strategy_tester.py:49 | the momentum column has one entry per bar |
| Indicators.MomentumCrossing | backend/strategy_tester.py:49 | momentum above t (below -t) holds exactly when the bar `period` earlier exists and the close is above (1+t) (below (1-t)) times that close |
| Indicators.Gains | backend/strategy_tester.py:25-26 | gains are non-negative and positive exactly where the close rose |
| Indicators.Losses | backend/strategy_tester.py:25-27 | losses are non-negative and positive exactly where the close fell |
| Indicators.RsiValue | backend/strategy_tester.py:28-29 | the RSI is defined exactly when both means are defined and not both zero; it lies in [0, 100]; with a positive loss it equals 100·gain/(gain+loss) |
| Indicators.RsiColumn | backend/strategy_tester.py:28-29 | the RSI column pairs the gain and loss means bar by bar and has one entry per bar |
| Indicators.Rsi | backend/strategy_tester.py:22-30 | the RSI column has one entry per bar |
| Indicators.RsiAt | backend/strategy_tester.py:26-29 | the RSI of a bar is RsiValue of the rolling gain and loss means at that bar |
| Indicators.MeanZeroIff | backend/strategy_tester.py:26-27 | a full window of non-negative moves has mean 0 exactly when every move in it is 0 |
| Indicators.RsiMoves | backend/strategy_tester.py:25-29 | a full window in which the close moves at least once has a defined RSI |
| Indicators.RsiFlat | backend/strategy_tester.py:25-29 | a full window in which the close never moves has RSI NaN |
| Indicators.RsiWarmUp | backend/strategy_tester.py:26-29 | before the rolling window is full the RSI is NaN |
| Indicators.RsiRange | backend/strategy_tester.py:28-29 | every defined RSI value lies in [0, 100] |
| Indicators.RsiPresence | backend/strategy_tester.py:25-29 | the RSI is defined exactly when the window is full and the close moved within it |
| Indicators.NoLossValue | backend/strategy_tester.py:28-29 | a zero loss mean with a positive gain mean gives RSI exactly 100 |
| Indicators.RsiDefined | backend/strategy_tester.py:22-30 | the RSI lies in [0, 100] whenever defined, and is defined exactly when the window is full and the close moved within it |
| Indicators.RsiSaturates | backend/strategy_tester.py:27-29 | a full window with no fall and at least one rise has RSI exactly 100 |
| Signals.Positions | backend/strategy_tester.py:42 | the position column has one entry per bar |
| Signals.PositionsMeaning | backend/strategy_tester.py:42 | the position is NaN exactly at bar 0; elsewhere it lies in [-2, 2] and is positive (negative) exactly when the signal rose (fell) |
| Signals.RestorePositions | backend/strategy_tester.py:42 | summing the position column up from the first signal gives back the signal column, so the difference loses only the first value |
| Signals.Mask | backend/strategy_tester.py:35-39 | the definition of one bar's signal from a buy and a sell mask, the later sell assignment winning; its meaning per strategy is stated by `MovingAverageSignalRule`, `MomentumSignalRule` and `RsiSignalRule` |
| Signals.MovingAverageSignals | backend/strategy_tester.py:32-44 | one signal per bar |
| Signals.MovingAverageSignalRule | backend/strategy_tester.py:35-39 | signal 1 exactly when short MA > long MA, -1 exactly when short MA < long MA, and 0 before both windows are full |
| Signals.MomentumSignals | backend/strategy_tester.py:46-58 | one signal per bar |
| Signals.MomentumSignalRule | backend/strategy_tester.py:49-55 | signal 1 exactly when the close exceeds 1.02 times the close `period` bars earlier, -1 exactly when it is below 0.98 times it, and neither when that bar does not exist |
| Signals.RsiSignals | backend/strategy_tester.py:60-71 | one signal per bar |
| Signals.RsiSignalRule | backend/strategy_tester.py:62-68 | signal -1 exactly when RSI > overbought, 1 exactly when RSI < oversold and not overbought, and 0 in the 14-bar warm-up and after 14 bars without any move |
| Simulator.Start | backend/strategy_tester.py:75-80 | the definition of the state before the loop (flat, all cash, no records, no equity); `ReplayBook`, `ReplayLedger` and `IdleRun` state what follows from it |
| Simulator.BuyFires | backend/strategy_tester.py:87 | the buy condition (rising position, flat, positive cash); `StepBuys` states what a firing buy does |
| Simulator.SellFires | backend/strategy_tester.py:100 | the sell condition, tried only when no buy fires (falling position, long, positive shares); `StepSells` states what a firing sell does |
| Simulator.Pnl | backend/strategy_tester.py:104 | the definition of a round trip's percentage profit; its sign is stated by `Backtest.PnlSign` and its use in the records by `SellPnl` |
| Simulator.Worth | backend/strategy_tester.py:115 | the definition of the book's value at a price; `EquityIsWorth` and `EquityOfBar` state that each equity value is this worth |
| Simulator.Step | backend/strategy_tester.py:83-116 | one loop iteration; its cases are `StepBuys` / `StepSells` / `StepIdles`, its equity value is `StepEquity`, and `Backtest.Bar` is proved equal to it |
| Simulator.Liquidate | backend/strategy_tester.py:118-127 | the forced sale of an open position at the last close; `ForcedLiquidation` states its effect on the equity, the records and the cash |
| Simulator.Simulate | backend/strategy_tester.py:75-127 | the whole run, every bar then the liquidation; `ForcedLiquidation`, `FinalValue`, `SellPnl` and `EquitySign` state its properties |
| Simulator.Replay | backend/strategy_tester.py:82-116 | after n bars there are exactly n equity values, and an open position has a positive entry price |
| Simulator.StepBuys | backend/strategy_tester.py:87-97 | a firing buy moves all cash into cash/price shares, opens the position at that price and appends one Buy record |
| Simulator.StepSells | backend/strategy_tester.py:100-112 | a firing sell turns the shares into cash at the price, closes the position and appends one Sell record with pnl (price-entry)/entry·100 |
| Simulator.StepIdles | backend/strategy_tester.py:86-112 | when neither rule fires, cash, shares, flag, entry price and records are unchanged |
| Simulator.StepEquity | backend/strategy_tester.py:114-116 | each bar appends exactly one equity value, the worth of the book at that bar's close |
| Simulator.StepExtends | backend/strategy_tester.py:82-116 | one bar keeps all earlier equity values and records and adds at most one record |
| Simulator.ReplayPrefix | backend/strategy_tester.py:82-116 | later bars never rewrite the equity values or records of earlier bars |
| Simulator.ReplayLedger | backend/strategy_tester.py:75-116 | after every bar: records alternate Buy/Sell; the flag is set exactly after a Buy; each record was taken at its bar's close on a matching position, in bar order; each Sell closes the preceding Buy with its shares and pnl; each Buy spends all the cash available; money is conserved |
| Simulator.ReplayShape | backend/strategy_tester.py:87-112 | the records alternate Buy, Sell, ... and a position is open exactly when their number is odd |
| Simulator.ReplayBook | backend/strategy_tester.py:87-112 | while long, cash is 0 and shares are positive; while flat, shares are 0 and cash is the initial capital before any trade and positive after one |
| Simulator.EquityOfBar | backend/strategy_tester.py:115 | the equity of bar i is shares·close while long after that bar and the cash otherwise |
| Simulator.EquityIsWorth | backend/strategy_tester.py:115-116 | the equity of bar i is the book's worth after bar i at its close |
| Simulator.BuyBarEquity | backend/strategy_tester.py:87-116 | on a bar where a buy fires, the recorded equity equals the cash held just before it |
| Simulator.ForcedLiquidation | backend/strategy_tester.py:118-127 | the equity curve has one value per bar and is untouched by the liquidation; the final records alternate, are even in number and end with a Sell; an open position is sold at the last close with no pnl and its value becomes the cash |
| Simulator.FinalValue | backend/strategy_tester.py:87-129 | every Buy spent all the cash available, and the final cash is the proceeds of the last record (the initial capital if none) |
| Simulator.SellPnl | backend/strategy_tester.py:92-127 | a Buy carries no pnl; a Sell follows its Buy with the same shares and carries the round trip's pnl, except the forced final Sell, which carries none |
| Simulator.EquitySign | backend/strategy_tester.py:75-116 | with positive initial capital every equity value is positive; otherwise nothing is ever bought and every equity value is the initial capital |
| Simulator.IdleRun | backend/strategy_tester.py:75-129 | a run without trades keeps the initial capital as final cash and as every equity value |
| Metrics.Winning | backend/strategy_tester.py:133 | the winners are records of the list with positive pnl |
| Metrics.Wins | backend/strategy_tester.py:133 | the winner test, a missing pnl counting as 0; `Winning`, `FilterCounts` and `Backtest.ScoredTrades` build on it |
| Metrics.Losing | backend/strategy_tester.py:134 | the losers are records of the list with negative pnl |
| Metrics.Loses | backend/strategy_tester.py:134 | the loser test, a missing pnl counting as 0; `Losing`, `FilterCounts` and `Backtest.ScoredTrades` build on it |
| Metrics.FilterCounts | backend/strategy_tester.py:133-134 | the winner (loser) list has exactly as many records as there are positions of the trade list holding a winning (losing) record, so the filters drop none |
| Metrics.WinLossPartition | backend/strategy_tester.py:133-135 | winners, losers and records without a sign add up to the number of records, and records without pnl are never counted |
| Metrics.WinRate | backend/strategy_tester.py:136 | the win rate lies in [0, 1], is 0 exactly when there is no winner, and is 1 exactly when there are winners and no loser |
| Metrics.TotalReturn | backend/strategy_tester.py:130 | the return is 0 exactly when the final value equals the initial capital; with positive capital it is positive exactly when the final value is larger |
| Metrics.MaxOf | backend/strategy_tester.py:140 | the maximum is an element of the series and no element exceeds it |
| Metrics.MinOf | backend/strategy_tester.py:142 | the minimum is an element of the series and no element is below it |
| Metrics.Peaks | backend/strategy_tester.py:140 | the running maximum has one value per equity value; `PeakAt` states which value it is |
| Metrics.PeakAt | backend/strategy_tester.py:140 | the running maximum at bar i is one of the first i+1 equity values and is at least each of them |
| Metrics.Drawdowns | backend/strategy_tester.py:141 | one drawdown per equity value |
| Metrics.DrawdownAt | backend/strategy_tester.py:140-141 | for a positive curve each drawdown lies in (-100, 0] and is 0 exactly at a new running high |
| Metrics.MaxDrawdown | backend/strategy_tester.py:139-142 | 0 for an empty curve, otherwise the absolute value of the deepest drawdown; its range and zero case are stated by `DrawdownBounds` and `FlatDrawdown` |
| Metrics.DrawdownBounds | backend/strategy_tester.py:139-142 | for a positive curve the maximum drawdown lies in [0, 100) and is 0 exactly when the curve never falls |
| Metrics.FlatDrawdown | backend/strategy_tester.py:139-142 | a constant curve has maximum drawdown 0 |
| Metrics.Returns | backend/strategy_tester.py:145 | the returns after dropping the leading NaN number one fewer than the equity values |
| Metrics.SquaredDeviations | backend/strategy_tester.py:146 | each squared deviation is non-negative and zero exactly at a value equal to the mean |
| Metrics.SampleVariance | backend/strategy_tester.py:146 | the sample variance with `ddof = 1`; `VarianceZeroIff` states its sign and its zero case |
| Metrics.VarianceZeroIff | backend/strategy_tester.py:146 | the sample variance is non-negative and is zero exactly when all returns are equal |
| Metrics.SharpeRatio | backend/strategy_tester.py:145-146 | a non-zero Sharpe ratio comes from at least two returns with positive variance, and carries their mean and sample variance |
| Metrics.SharpeZeroIff | backend/strategy_tester.py:145-146 | the `std() > 0` test fails (result `Zero`) exactly when there are fewer than two returns or all returns are equal |
| Metrics.SharpeValueZero | backend/strategy_tester.py:145-146 | the reported Sharpe ratio is 0 exactly when there are fewer than two returns, all returns are equal, or their mean is 0 |
| Metrics.ZeroMeanSharpe | backend/strategy_tester.py:145-146 | the curve 100, 110, 99 takes the `std() > 0` branch (returns 0.1 and -0.1, variance 0.02) and still has Sharpe ratio 0, so `Zero` is not the only zero value |
| Metrics.FlatSharpe | backend/strategy_tester.py:145-146 | a constant equity curve has Sharpe ratio 0 |
| Metrics.LastTrades | backend/strategy_tester.py:158 | the reported records are the last min(n, 10) records of the list, in order |
| Backtest.EquityNonZero | backend/strategy_tester.py:139-146 | with a non-zero initial capital no equity value is zero, so the drawdown and return ratios are defined |
| Backtest.Summary | backend/strategy_tester.py:129-159 | the report of a finished run; `ReportCounts`, `ReportWinners`, `ReportDrawdown` and `ReportValue` state what its fields hold |
| Backtest.Outcome | backend/strategy_tester.py:73-159 | the backtest fails exactly when the initial capital is zero, and a report echoes the initial capital |
| Backtest.Bar | backend/strategy_tester.py:83-116 | one iteration of the loop on the six loop variables is exactly one `Step` of the machine |
| Backtest.RunBars | backend/strategy_tester.py:75-116 | the loop over all bars ends in the state `Replay` gives after the last bar |
| Backtest.BacktestStrategy | backend/strategy_tester.py:73-159 | the imperative backtest returns exactly `Outcome`: the simulated run, its liquidation and its report |
| Backtest.PnlSign | backend/strategy_tester.py:104 | a pnl is positive exactly when the exit is above the entry and negative exactly when below |
| Backtest.ScoredTrades | backend/strategy_tester.py:104-134 | a record is a winner (loser) exactly when it is a Sell driven by the position column at a price above (below) the Buy it closes; the forced final Sell never counts |
| Backtest.CountScored | backend/strategy_tester.py:133-135 | if each winner (loser) of a list is exactly a Sell among the first m records priced above (below) the record before it, the filter lengths count those Sells |
| Backtest.ReportWinners | backend/strategy_tester.py:104-153 | the reported winning (losing) trades are exactly the number of Sells driven by the position column at a price above (below) the Buy they close |
| Backtest.ReportCounts | backend/strategy_tester.py:133-158 | total trades = winners + losers, at most the number of records; the win rate properties; at most ten reported records, the tail of the list |
| Backtest.IdleReport | backend/strategy_tester.py:129-158 | without trades the report shows the initial capital back, return 0, no trades, win rate 0, drawdown 0, Sharpe ratio 0 and no records |
| Backtest.ReportDrawdown | backend/strategy_tester.py:139-142 | with positive capital the reported drawdown lies in [0, 100) and is 0 exactly when the equity curve never falls |
| Backtest.ReportValue | backend/strategy_tester.py:129-130 | the final value is the cash after the last record, and the return's sign compares it with the initial capital |
| Tester.PositionColumn | backend/strategy_tester.py:181-196 | a position column has one entry per bar; the column fails exactly for an unknown strategy name or a negative moving-average window |
| Tester.TestOutcome | backend/strategy_tester.py:173-207 | a successful result carries the strategy name, the symbol, the parameters and the initial capital used (10000 by default) |
| Tester.TestStrategy | backend/strategy_tester.py:161-210 | the imperative `test_strategy` returns exactly `TestOutcome` |
| Tester.TestSucceeds | backend/strategy_tester.py:177-200 | a request succeeds exactly with at least 60 bars, a known strategy, non-negative moving-average windows and non-zero capital; each failing check gives its own error, in the order the code checks them |
| Tester.DefaultsApply | backend/strategy_tester.py:182-199 | for any request, leaving out any subset of the keys gives the same outcome as giving exactly those keys their defaults 10, 30, 10, 30, 70 and 10000 |
| Tester.OwnKeysOnly | backend/strategy_tester.py:181-199 | a strategy's outcome depends only on its own keys and the initial capital |

## Left out

- Fetching the history (strategy_tester.py:175, `DataFetcher`) is I/O. The close column is a parameter of `Tester.TestStrategy`, assumed positive as market prices are.
- Floating point is modelled as exact reals, and rounding is not modelled. Infinities and NaN arithmetic are modelled only where the RSI meets them, in `Indicators.RsiValue`: an infinite `rs` (a zero loss mean with a positive gain mean) gives RSI 100, and 0/0 gives NaN. Every other NaN, such as a rolling-window warm-up or the first `diff`, is modelled as `Option.None`.
- Tester.Parameters: holds only the six keys read at lines 182-199. Any other key of the caller's dictionary, which line 205 echoes back, is not carried in `StrategyReport.parameters`.
- Metrics.SharpeRatio: the square root and the factor sqrt(252) are not modelled, because Dafny reals have no square root. The result keeps the mean and the sample variance (ddof 1) of the returns, and the zero case `returns.std() > 0` is kept exactly.
- The date index of each record is modelled as the bar number.
- Exception messages and the outer wrapping into "Error testing strategy" (lines 178, 196, 209-210) are modelled as `Tester.TestError` values without text. `Backtest.Error` holds the zero-capital division error of the total return, and `Tester.TestError` wraps it beside the errors of `test_strategy` and the negative-window error of pandas.
- Non-numeric or non-integer parameter values are not modelled. Windows and the momentum period are integers, and RSI thresholds and the capital are reals.
- An `initial_capital` given as an int and the int/float distinction of `capital` are not modelled.
- pandas internals (`df.copy()`, column storage, `iterrows`) are not modelled. Each column is a sequence indexed by bar.
- `StrategyTester.__init__` only creates the data fetcher, so it is left out with the I/O.
- `backend/data_fetcher.py`, `backend/price_predictor.py`, `backend/main.py` and the frontend are not part of this model.

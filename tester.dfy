/** `test_strategy`: the guard on the amount of history, the choice of the
    strategy and of its parameters from the request, the backtest, and the
    report tagged with the request. */
module Tester {
  import opened Common
  import opened Signals
  import opened Backtest

  /** The fewest bars of history a backtest accepts. */
  const MinimumBars: nat := 60

  const DefaultShortPeriod: int := 10
  const DefaultLongPeriod: int := 30
  const DefaultMomentumPeriod: int := 10
  const DefaultOversold: real := 30.0
  const DefaultOverbought: real := 70.0
  const DefaultInitialCapital: real := 10000.0

  /** The request's parameter dictionary: a key that is absent is `None`
      and falls back to its default. */
  datatype Parameters = Parameters(
    shortPeriod: Option<int>,
    longPeriod: Option<int>,
    period: Option<int>,
    oversold: Option<real>,
    overbought: Option<real>,
    initialCapital: Option<real>)

  /** Why `test_strategy` produces no report: too little history, an
      unknown strategy name, a negative moving-average window (the error
      pandas raises for it), or a failure of the backtest itself. */
  datatype TestError =
    | InsufficientData(symbol: string, minimum: nat)
    | UnknownStrategy(name: string)
    | NegativeWindow(window: int)
    | BacktestFailed(cause: Error)

  /** The backtest report with the strategy, the symbol and the parameters
      it was run with. */
  datatype StrategyReport = StrategyReport(
    report: Report,
    strategy: string,
    symbol: string,
    parameters: Parameters)

  /** The position column of the named strategy, with each parameter taken
      from the request or its default; a negative moving-average window is
      the error pandas raises for it (the short window is checked first),
      and a name other than the three is an unknown strategy. */
  function PositionColumn(strategyType: string, parameters: Parameters, closes: seq<real>)
      : (r: Result<seq<Option<int>>, TestError>)
    requires AllPositive(closes)
    ensures r.Success? ==> |r.value| == |closes|
    ensures r.Failure? <==>
              (strategyType !in {"moving_average", "momentum", "rsi"}
               || (strategyType == "moving_average"
                   && (parameters.shortPeriod.GetOr(DefaultShortPeriod) < 0
                       || parameters.longPeriod.GetOr(DefaultLongPeriod) < 0)))
  {
    if strategyType == "moving_average" then
      var short := parameters.shortPeriod.GetOr(DefaultShortPeriod);
      var long := parameters.longPeriod.GetOr(DefaultLongPeriod);
      if short < 0 then Failure(NegativeWindow(short))
      else if long < 0 then Failure(NegativeWindow(long))
      else Success(Positions(MovingAverageSignals(closes, short, long)))
    else if strategyType == "momentum" then
      Success(Positions(MomentumSignals(closes, parameters.period.GetOr(DefaultMomentumPeriod))))
    else if strategyType == "rsi" then
      Success(Positions(RsiSignals(closes, parameters.oversold.GetOr(DefaultOversold),
                                   parameters.overbought.GetOr(DefaultOverbought))))
    else Failure(UnknownStrategy(strategyType))
  }

  /** What `test_strategy` returns for a symbol whose history is `closes`. */
  function TestOutcome(symbol: string, strategyType: string, parameters: Parameters, closes: seq<real>)
      : (r: Result<StrategyReport, TestError>)
    requires AllPositive(closes)
    ensures r.Success? ==>
              && r.value.strategy == strategyType && r.value.symbol == symbol
              && r.value.parameters == parameters
              && r.value.report.initialCapital == parameters.initialCapital.GetOr(DefaultInitialCapital)
  {
    if |closes| < MinimumBars then Failure(InsufficientData(symbol, MinimumBars))
    else
      match PositionColumn(strategyType, parameters, closes)
      case Failure(e) => Failure(e)
      case Success(positions) =>
        match Outcome(closes, positions, parameters.initialCapital.GetOr(DefaultInitialCapital))
        case Failure(e) => Failure(BacktestFailed(e))
        case Success(report) => Success(StrategyReport(report, strategyType, symbol, parameters))
  }

  /** `test_strategy` on the history fetched for the symbol. */
  method TestStrategy(symbol: string, strategyType: string, parameters: Parameters, closes: seq<real>)
      returns (result: Result<StrategyReport, TestError>)
    requires AllPositive(closes)
    ensures result == TestOutcome(symbol, strategyType, parameters, closes)
  {
    if |closes| < MinimumBars {
      return Failure(InsufficientData(symbol, MinimumBars));
    }
    var column := PositionColumn(strategyType, parameters, closes);
    if column.Failure? {
      return Failure(column.error);
    }
    var initialCapital := parameters.initialCapital.GetOr(DefaultInitialCapital);
    var results := BacktestStrategy(closes, column.value, initialCapital);
    if results.Failure? {
      return Failure(BacktestFailed(results.error));
    }
    result := Success(StrategyReport(results.value, strategyType, symbol, parameters));
  }

  /** A request succeeds exactly when there are at least 60 bars, the
      strategy is one of the three, its moving-average windows (if it has
      them) are not negative and the initial capital is not zero; the error
      otherwise is that of the first of these checks to fail. */
  lemma TestSucceeds(symbol: string, strategyType: string, parameters: Parameters, closes: seq<real>)
    requires AllPositive(closes)
    ensures var r := TestOutcome(symbol, strategyType, parameters, closes);
            && (r.Success? <==>
                  |closes| >= MinimumBars
                  && strategyType in {"moving_average", "momentum", "rsi"}
                  && (strategyType == "moving_average" ==>
                        parameters.shortPeriod.GetOr(DefaultShortPeriod) >= 0
                        && parameters.longPeriod.GetOr(DefaultLongPeriod) >= 0)
                  && parameters.initialCapital.GetOr(DefaultInitialCapital) != 0.0)
            && (|closes| < MinimumBars ==> r == Failure(InsufficientData(symbol, MinimumBars)))
            && (|closes| >= MinimumBars && strategyType !in {"moving_average", "momentum", "rsi"} ==>
                  r == Failure(UnknownStrategy(strategyType)))
            && (|closes| >= MinimumBars && strategyType == "moving_average"
                && parameters.shortPeriod.GetOr(DefaultShortPeriod) < 0 ==>
                  r == Failure(NegativeWindow(parameters.shortPeriod.GetOr(DefaultShortPeriod))))
            && (|closes| >= MinimumBars && strategyType == "moving_average"
                && parameters.shortPeriod.GetOr(DefaultShortPeriod) >= 0
                && parameters.longPeriod.GetOr(DefaultLongPeriod) < 0 ==>
                  r == Failure(NegativeWindow(parameters.longPeriod.GetOr(DefaultLongPeriod))))
            && (|closes| >= MinimumBars && PositionColumn(strategyType, parameters, closes).Success?
                && parameters.initialCapital.GetOr(DefaultInitialCapital) == 0.0 ==>
                  r == Failure(BacktestFailed(ZeroInitialCapital)))
  {
  }

  /** The request with every absent key given its default value. */
  function Filled(p: Parameters): Parameters {
    Parameters(Some(p.shortPeriod.GetOr(DefaultShortPeriod)), Some(p.longPeriod.GetOr(DefaultLongPeriod)),
               Some(p.period.GetOr(DefaultMomentumPeriod)), Some(p.oversold.GetOr(DefaultOversold)),
               Some(p.overbought.GetOr(DefaultOverbought)), Some(p.initialCapital.GetOr(DefaultInitialCapital)))
  }

  /** Defaults apply key by key: leaving out any subset of the keys of a
      request is the same as giving those keys their defaults (10, 30, 10,
      30, 70 and 10000) and keeping the others. */
  lemma DefaultsApply(symbol: string, strategyType: string, p: Parameters, closes: seq<real>)
    requires AllPositive(closes)
    ensures var a, b := TestOutcome(symbol, strategyType, p, closes), TestOutcome(symbol, strategyType, Filled(p), closes);
            && a.Success? == b.Success?
            && (a.Success? ==> a.value.report == b.value.report)
            && (a.Failure? ==> a.error == b.error)
  {
  }

  /** Each strategy reads only its own keys: the momentum period does not
      affect the moving-average and RSI strategies (the RSI period is fixed
      at 14), and the thresholds and windows of the others do not affect the
      momentum strategy. */
  lemma OwnKeysOnly(symbol: string, strategyType: string, p: Parameters, q: Parameters, closes: seq<real>)
    requires AllPositive(closes)
    requires p.initialCapital == q.initialCapital
    requires strategyType == "moving_average" ==> p.shortPeriod == q.shortPeriod && p.longPeriod == q.longPeriod
    requires strategyType == "momentum" ==> p.period == q.period
    requires strategyType == "rsi" ==> p.oversold == q.oversold && p.overbought == q.overbought
    ensures var a, b := TestOutcome(symbol, strategyType, p, closes), TestOutcome(symbol, strategyType, q, closes);
            && a.Success? == b.Success?
            && (a.Success? ==> a.value.report == b.value.report)
            && (a.Failure? ==> a.error == b.error)
  {
  }
}

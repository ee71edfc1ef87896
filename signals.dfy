/** The three strategies: each turns indicator columns into a per-bar signal
    in {-1, 0, 1}, and the position column is that signal's first difference. */
module Signals {
  import opened Common
  import opened Indicators

  /** 1 asks to be long, -1 asks to be out, 0 has no opinion. */
  type Signal = s: int | -1 <= s <= 1

  /** The momentum threshold, fixed in the source: 2% over the period. */
  const MomentumThreshold: real := 0.02

  /** `_rsi_strategy` calls `_calculate_rsi` without a period, so its default
      of 14 bars always applies. */
  const RsiPeriod: nat := 14

  /** `Signal = 0`, then `Signal[buy] = 1`, then `Signal[sell] = -1`: where both
      masks hold, the later assignment wins. */
  function Mask(buy: bool, sell: bool): Signal {
    if sell then -1 else if buy then 1 else 0
  }

  /** `Signal.diff()`: undefined at the first bar, the change of signal since
      the previous bar elsewhere. */
  function Positions(signal: seq<Signal>): (r: seq<Option<int>>)
    ensures |r| == |signal|
  {
    seq(|signal|, i requires 0 <= i < |signal| =>
      if i == 0 then None else Some(signal[i] as int - signal[i - 1] as int))
  }

  /** The first position is missing, so no trade can happen at bar 0; later
      positions lie in [-2, 2] and are positive exactly when the signal rose
      (a rise from -1 to 0 included) and negative exactly when it fell. */
  lemma PositionsMeaning(signal: seq<Signal>, i: nat)
    requires i < |signal|
    ensures i == 0 <==> Positions(signal)[i].None?
    ensures i > 0 ==> -2 <= Positions(signal)[i].value <= 2
    ensures i > 0 ==> (Positions(signal)[i].value > 0 <==> signal[i - 1] < signal[i])
    ensures i > 0 ==> (Positions(signal)[i].value < 0 <==> signal[i - 1] > signal[i])
  {
  }

  /** Running sum of the position column from a starting signal (`cumsum`),
      the inverse of the first difference. */
  function Restore(start: int, position: seq<Option<int>>): (r: seq<int>)
    ensures |r| == |position|
  {
    if position == [] then []
    else
      var prev := Restore(start, position[..|position| - 1]);
      prev + [if prev == [] then start else prev[|prev| - 1] + position[|position| - 1].GetOr(0)]
  }

  /** Summing the positions back up from the first signal gives back the whole
      signal column: the position column loses nothing but its first value. */
  lemma {:induction false} RestorePositions(signal: seq<Signal>)
    requires signal != []
    ensures Restore(signal[0], Positions(signal)) == signal
  {
    var n := |signal|;
    if n > 1 {
      var front := signal[..n - 1];
      assert Positions(signal)[..n - 1] == Positions(front);
      RestorePositions(front);
    }
  }

  /** `_moving_average_strategy`: long while the short average is above the
      long one, out while it is below. */
  function MovingAverageSignals(closes: seq<real>, shortPeriod: nat, longPeriod: nat): (r: seq<Signal>)
    ensures |r| == |closes|
  {
    var ma := CalculateMovingAverages(closes, shortPeriod, longPeriod);
    seq(|closes|, i requires 0 <= i < |closes| =>
      Mask(Greater(ma.short[i], ma.long[i]), Less(ma.short[i], ma.long[i])))
  }

  /** The crossover rule, and no signal before both windows are full. */
  lemma MovingAverageSignalRule(closes: seq<real>, shortPeriod: nat, longPeriod: nat, i: nat)
    requires i < |closes|
    ensures var s, l := RollingMean(closes, shortPeriod)[i], RollingMean(closes, longPeriod)[i];
            && (MovingAverageSignals(closes, shortPeriod, longPeriod)[i] == 1 <==> Greater(s, l))
            && (MovingAverageSignals(closes, shortPeriod, longPeriod)[i] == -1 <==> Less(s, l))
    ensures shortPeriod == 0 || longPeriod == 0 || i + 1 < shortPeriod || i + 1 < longPeriod
            ==> MovingAverageSignals(closes, shortPeriod, longPeriod)[i] == 0
  {
    RollingMeanWarmUp(closes, shortPeriod, i);
    RollingMeanWarmUp(closes, longPeriod, i);
  }

  /** `_momentum_strategy`: long while momentum exceeds +2%, out while it is
      below -2%. */
  function MomentumSignals(closes: seq<real>, period: int): (r: seq<Signal>)
    requires AllPositive(closes)
    ensures |r| == |closes|
  {
    var m := Momentum(closes, period);
    seq(|closes|, i requires 0 <= i < |closes| =>
      Mask(Above(m[i], MomentumThreshold), Below(m[i], -MomentumThreshold)))
  }

  /** The momentum rule in terms of prices: buy once the close is more than
      1.02 times the close `period` bars before, sell once it is below 0.98
      times it, and nothing where that earlier bar does not exist. */
  lemma MomentumSignalRule(closes: seq<real>, period: int, i: nat)
    requires AllPositive(closes) && i < |closes|
    ensures MomentumSignals(closes, period)[i] == 1
        <==> 0 <= i - period < |closes| && closes[i] > 1.02 * closes[i - period]
    ensures MomentumSignals(closes, period)[i] == -1
        <==> 0 <= i - period < |closes| && closes[i] < 0.98 * closes[i - period]
  {
    MomentumCrossing(closes, period, i, MomentumThreshold);
    if 0 <= i - period < |closes| {
      var a, b := closes[i], closes[i - period];
      assert a > 1.02 * b ==> !(a < 0.98 * b);
    }
  }

  /** `_rsi_strategy`: long while the 14-bar RSI is below `oversold`, out while
      it is above `overbought`. */
  function RsiSignals(closes: seq<real>, oversold: real, overbought: real): (r: seq<Signal>)
    ensures |r| == |closes|
  {
    var rsi := Rsi(closes, RsiPeriod);
    seq(|closes|, i requires 0 <= i < |closes| =>
      Mask(Below(rsi[i], oversold), Above(rsi[i], overbought)))
  }

  /** The RSI rule: an overbought reading sells even if it is also oversold
      (possible when the thresholds are crossed), and a bar whose RSI is NaN,
      in the warm-up or after 14 bars without any move of the close, has no
      signal. */
  lemma RsiSignalRule(closes: seq<real>, oversold: real, overbought: real, i: nat)
    requires i < |closes|
    ensures var rsi := Rsi(closes, RsiPeriod)[i];
            && (RsiSignals(closes, oversold, overbought)[i] == -1 <==> Above(rsi, overbought))
            && (RsiSignals(closes, oversold, overbought)[i] == 1
                <==> Below(rsi, oversold) && !Above(rsi, overbought))
    ensures i + 1 < RsiPeriod ==> RsiSignals(closes, oversold, overbought)[i] == 0
    ensures (forall j :: i + 1 - RsiPeriod <= j <= i && 1 <= j ==> closes[j] == closes[j - 1])
            ==> RsiSignals(closes, oversold, overbought)[i] == 0
  {
    RsiDefined(closes, RsiPeriod, i);
  }
}

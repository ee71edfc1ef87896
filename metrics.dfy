/** The statistics `_backtest_strategy` computes from the trade list and the
    equity curve: total return, winners and losers, win rate, maximum drawdown
    and the Sharpe ratio (up to its square roots). */
module Metrics {
  import opened Common
  import opened Simulator

  /** `t.get('pnl', 0) > 0`: a trade without pnl counts as 0. */
  predicate Wins(t: Trade) {
    t.pnl.Some? && t.pnl.value > 0.0
  }

  /** `t.get('pnl', 0) < 0`. */
  predicate Loses(t: Trade) {
    t.pnl.Some? && t.pnl.value < 0.0
  }

  /** `[t for t in trades if t.get('pnl', 0) > 0]`. */
  function Winning(trades: seq<Trade>): (r: seq<Trade>)
    ensures forall j :: 0 <= j < |r| ==> Wins(r[j]) && r[j] in trades
  {
    if trades == [] then []
    else
      var front := Winning(trades[..|trades| - 1]);
      var last := trades[|trades| - 1];
      if Wins(last) then front + [last] else front
  }

  /** `[t for t in trades if t.get('pnl', 0) < 0]`. */
  function Losing(trades: seq<Trade>): (r: seq<Trade>)
    ensures forall j :: 0 <= j < |r| ==> Loses(r[j]) && r[j] in trades
  {
    if trades == [] then []
    else
      var front := Losing(trades[..|trades| - 1]);
      var last := trades[|trades| - 1];
      if Loses(last) then front + [last] else front
  }

  /** The positions of the winning records in the list. */
  function WinIndices(trades: seq<Trade>): set<int> {
    set k | 0 <= k < |trades| && Wins(trades[k])
  }

  /** The positions of the losing records in the list. */
  function LossIndices(trades: seq<Trade>): set<int> {
    set k | 0 <= k < |trades| && Loses(trades[k])
  }

  /** Whether a position of an extended list is a winner or loser depends
      only on the record at that position. */
  lemma IndicesAppend(trades: seq<Trade>)
    requires trades != []
    ensures var n, front := |trades|, trades[..|trades| - 1];
            && WinIndices(trades) == WinIndices(front) + (if Wins(trades[n - 1]) then {n - 1} else {})
            && LossIndices(trades) == LossIndices(front) + (if Loses(trades[n - 1]) then {n - 1} else {})
            && n - 1 !in WinIndices(front) && n - 1 !in LossIndices(front)
  {
    var front := trades[..|trades| - 1];
    assert forall k :: 0 <= k < |front| ==> front[k] == trades[k];
  }

  /** The filters keep every winner (loser) of the list: their lengths are
      the number of positions holding a winning (losing) record. */
  lemma {:induction false} FilterCounts(trades: seq<Trade>)
    ensures |Winning(trades)| == |WinIndices(trades)|
    ensures |Losing(trades)| == |LossIndices(trades)|
  {
    if trades != [] {
      FilterCounts(trades[..|trades| - 1]);
      IndicesAppend(trades);
    }
  }

  /** The number of records for which a trade without pnl or with a zero pnl
      counts as neither a winner nor a loser. */
  function Unscored(trades: seq<Trade>): nat {
    if trades == [] then 0
    else Unscored(trades[..|trades| - 1]) + if Wins(trades[|trades| - 1]) || Loses(trades[|trades| - 1]) then 0 else 1
  }

  /** Winners, losers and unscored records partition the trade list; in
      particular there are never more winners plus losers than records, and
      a list without any pnl has neither. */
  lemma {:induction false} WinLossPartition(trades: seq<Trade>)
    ensures |Winning(trades)| + |Losing(trades)| + Unscored(trades) == |trades|
    ensures (forall k :: 0 <= k < |trades| ==> trades[k].pnl.None?) ==> |Winning(trades)| == |Losing(trades)| == 0
  {
    if trades != [] {
      var front := trades[..|trades| - 1];
      WinLossPartition(front);
      assert forall k :: 0 <= k < |front| ==> front[k] == trades[k];
    }
  }

  /** `len(winning) / total_trades if total_trades > 0 else 0`. */
  function WinRate(winning: nat, losing: nat): (r: real)
    ensures 0.0 <= r <= 1.0
    ensures r == 0.0 <==> winning == 0
    ensures r == 1.0 <==> winning > 0 && losing == 0
  {
    if winning + losing > 0 then
      var w, n := winning as real, (winning + losing) as real;
      DivCompare(w, n, 1.0);
      w / n
    else 0.0
  }

  /** `(final_value - initial_capital) / initial_capital * 100`; a zero
      initial capital is a division error in the source. */
  function TotalReturn(finalValue: real, initialCapital: real): (r: real)
    requires initialCapital != 0.0
    ensures r == 0.0 <==> finalValue == initialCapital
    ensures initialCapital > 0.0 ==> (r > 0.0 <==> finalValue > initialCapital)
  {
    var d := finalValue - initialCapital;
    ReturnSign(d, initialCapital);
    d / initialCapital * 100.0
  }

  lemma ReturnSign(d: real, c: real)
    requires c != 0.0
    ensures d / c * 100.0 == 0.0 <==> d == 0.0
    ensures c > 0.0 ==> (d / c * 100.0 > 0.0 <==> d > 0.0)
  {
    if c > 0.0 {
      DivCompare(d, c, 0.0);
    } else {
      assert d / c == (-d) / (-c);
      DivCompare(-d, -c, 0.0);
    }
  }

  predicate NonZero(s: seq<real>) {
    forall i :: 0 <= i < |s| ==> s[i] != 0.0
  }

  function MaxOf(s: seq<real>): (r: real)
    requires |s| > 0
    ensures r in s && forall j :: 0 <= j < |s| ==> s[j] <= r
  {
    if |s| == 1 then s[0]
    else
      var m := MaxOf(s[..|s| - 1]);
      assert forall j :: 0 <= j < |s| - 1 ==> s[..|s| - 1][j] == s[j];
      if s[|s| - 1] > m then s[|s| - 1] else m
  }

  function MinOf(s: seq<real>): (r: real)
    requires |s| > 0
    ensures r in s && forall j :: 0 <= j < |s| ==> r <= s[j]
  {
    if |s| == 1 then s[0]
    else
      var m := MinOf(s[..|s| - 1]);
      assert forall j :: 0 <= j < |s| - 1 ==> s[..|s| - 1][j] == s[j];
      if s[|s| - 1] < m then s[|s| - 1] else m
  }

  /** `np.maximum.accumulate`: the highest equity value so far. */
  function Peaks(equity: seq<real>): (r: seq<real>)
    ensures |r| == |equity|
  {
    seq(|equity|, i requires 0 <= i < |equity| => MaxOf(equity[..i + 1]))
  }

  lemma PeakAt(equity: seq<real>, i: nat)
    requires i < |equity|
    ensures Peaks(equity)[i] in equity[..i + 1]
    ensures forall j :: 0 <= j <= i ==> equity[j] <= Peaks(equity)[i]
  {
    var m := MaxOf(equity[..i + 1]);
    assert forall j :: 0 <= j <= i ==> equity[..i + 1][j] == equity[j];
  }

  /** `(equity - running_max) / running_max * 100`: the percentage by which
      each value lies below the highest value before it. */
  function Drawdowns(equity: seq<real>): (r: seq<real>)
    requires NonZero(equity)
    ensures |r| == |equity|
  {
    var peaks := Peaks(equity);
    seq(|equity|, i requires 0 <= i < |equity| =>
      PeakAt(equity, i);
      (equity[i] - peaks[i]) / peaks[i] * 100.0)
  }

  function Abs(x: real): real {
    if x < 0.0 then -x else x
  }

  /** `abs(np.min(drawdown)) if len(drawdown) > 0 else 0`. */
  function MaxDrawdown(equity: seq<real>): real
    requires NonZero(equity)
  {
    if |equity| == 0 then 0.0 else Abs(MinOf(Drawdowns(equity)))
  }

  predicate NonDecreasing(s: seq<real>) {
    forall i, j :: 0 <= i <= j < |s| ==> s[i] <= s[j]
  }

  /** On a positive curve each drawdown figure lies in (-100, 0], and it is 0
      exactly when the value is a new high. */
  lemma DrawdownAt(equity: seq<real>, i: nat)
    requires AllPositive(equity) && i < |equity|
    ensures NonZero(equity)
    ensures -100.0 < Drawdowns(equity)[i] <= 0.0
    ensures Drawdowns(equity)[i] == 0.0 <==> forall j :: 0 <= j <= i ==> equity[j] <= equity[i]
  {
    PeakAt(equity, i);
    var p, e := Peaks(equity)[i], equity[i];
    assert p > 0.0;
    assert Drawdowns(equity)[i] == (e - p) / p * 100.0;
    DivCompare(e - p, p, 0.0);
    DivCompare(e - p, p, -1.0);
    assert (e - p) / p == 0.0 ==> e == p by {
      assert ((e - p) / p) * p == e - p;
    }
  }

  /** With positive equity the maximum drawdown lies within [0, 100), and it
      is exactly 0 when, and only when, the curve never falls. */
  lemma DrawdownBounds(equity: seq<real>)
    requires AllPositive(equity)
    ensures NonZero(equity)
    ensures 0.0 <= MaxDrawdown(equity) < 100.0
    ensures MaxDrawdown(equity) == 0.0 <==> NonDecreasing(equity)
  {
    if |equity| > 0 {
      var d := Drawdowns(equity);
      var m := MinOf(d);
      var k :| 0 <= k < |d| && d[k] == m;
      DrawdownAt(equity, k);
      if NonDecreasing(equity) {
        forall i | 0 <= i < |equity| ensures d[i] == 0.0 {
          DrawdownAt(equity, i);
        }
      }
      if m == 0.0 {
        forall i, j | 0 <= i <= j < |equity| ensures equity[i] <= equity[j] {
          DrawdownAt(equity, j);
        }
      }
    }
  }

  /** A flat curve, of either sign, has no drawdown. */
  lemma FlatDrawdown(equity: seq<real>)
    requires NonZero(equity)
    requires forall i :: 0 <= i < |equity| ==> equity[i] == equity[0]
    ensures MaxDrawdown(equity) == 0.0
  {
    if |equity| > 0 {
      var d := Drawdowns(equity);
      forall i | 0 <= i < |equity| ensures d[i] == 0.0 {
        PeakAt(equity, i);
        assert Peaks(equity)[i] == equity[i];
      }
      var m := MinOf(d);
      assert m in d;
    }
  }

  /** `pct_change().dropna()` of the equity curve: the relative change from
      each value to the next. */
  function Returns(equity: seq<real>): (r: seq<real>)
    requires NonZero(equity)
    ensures |r| == if |equity| == 0 then 0 else |equity| - 1
  {
    if |equity| == 0 then []
    else seq(|equity| - 1, i requires 0 <= i < |equity| - 1 => equity[i + 1] / equity[i] - 1.0)
  }

  /** The product of two reals, named so that squares are reasoned about
      through the sign lemmas below rather than by the solver's non-linear
      arithmetic. */
  function Times(a: real, b: real): real {
    a * b
  }

  lemma SameSignProduct(a: real, b: real)
    requires (a > 0.0 && b > 0.0) || (a < 0.0 && b < 0.0)
    ensures Times(a, b) > 0.0
  {
  }

  /** A square is never negative and is positive away from zero. */
  lemma Square(x: real)
    ensures Times(x, x) >= 0.0
    ensures x != 0.0 ==> Times(x, x) > 0.0
  {
    if x != 0.0 {
      SameSignProduct(x, x);
    } else {
      assert Times(x, x) == 0.0;
    }
  }

  /** The squared distance of each value from `m`. */
  function SquaredDeviations(r: seq<real>, m: real): (d: seq<real>)
    ensures |d| == |r|
    ensures forall i :: 0 <= i < |d| ==> d[i] >= 0.0 && (d[i] == 0.0 <==> r[i] == m)
  {
    var d := seq(|r|, i requires 0 <= i < |r| => Times(r[i] - m, r[i] - m));
    assert forall i :: 0 <= i < |r| ==> d[i] >= 0.0 && (d[i] == 0.0 <==> r[i] == m) by {
      forall i | 0 <= i < |r| ensures d[i] >= 0.0 && (d[i] == 0.0 <==> r[i] == m) {
        Square(r[i] - m);
      }
    }
    d
  }

  /** The sample variance (`ddof = 1`), the square of `Series.std()`. */
  function SampleVariance(r: seq<real>): real
    requires |r| >= 2
  {
    Sum(SquaredDeviations(r, Mean(r))) / (|r| - 1) as real
  }

  lemma Quotient(a: real, n: real)
    requires n > 0.0
    ensures a >= 0.0 ==> a / n >= 0.0
    ensures a / n == 0.0 <==> a == 0.0
  {
    DivCompare(a, n, 0.0);
  }

  /** The sample variance is never negative and is zero exactly when all
      values are equal. */
  lemma VarianceZeroIff(r: seq<real>)
    requires |r| >= 2
    ensures SampleVariance(r) >= 0.0
    ensures SampleVariance(r) == 0.0 <==> forall i :: 0 <= i < |r| ==> r[i] == r[0]
  {
    var m := Mean(r);
    var d := SquaredDeviations(r, m);
    SumZeroIff(d);
    Quotient(Sum(d), (|r| - 1) as real);
    if forall i :: 0 <= i < |r| ==> r[i] == r[0] {
      MeanBounds(r, r[0], r[0]);
    }
  }

  /** The Sharpe ratio up to its square roots: `mean / std * sqrt(252)`,
      kept as the mean and the sample variance of the returns it is computed
      from, or 0 where `std` is 0 or NaN (fewer than two returns). */
  datatype Sharpe = Zero | Annualized(mean: real, variance: real)

  function SharpeRatio(equity: seq<real>): (s: Sharpe)
    requires NonZero(equity)
    ensures s.Annualized? ==>
              |Returns(equity)| >= 2 && s.variance > 0.0 && s.mean == Mean(Returns(equity)) && s.variance == SampleVariance(Returns(equity))
  {
    var r := Returns(equity);
    if |r| >= 2 && SampleVariance(r) > 0.0 then Annualized(Mean(r), SampleVariance(r)) else Zero
  }

  /** The `std() > 0` test fails, so the result is `Zero`, exactly when the
      curve has fewer than three values or grows by the same factor at every
      step, a flat curve included. A zero mean return with a positive
      variance also gives a ratio of 0, through the other branch: see
      `SharpeValueZero`. */
  lemma SharpeZeroIff(equity: seq<real>)
    requires NonZero(equity)
    ensures var r := Returns(equity);
            SharpeRatio(equity) == Zero <==> |r| < 2 || forall i :: 0 <= i < |r| ==> r[i] == r[0]
  {
    var r := Returns(equity);
    if |r| >= 2 {
      VarianceZeroIff(r);
    }
  }

  /** The reported number `mean / std * sqrt(252)`, or 0: it is 0 exactly
      when the result is `Zero` or carries a zero mean, since the divisor is
      positive in the `Annualized` case. */
  predicate ValueZero(s: Sharpe) {
    s.Zero? || s.mean == 0.0
  }

  /** The Sharpe ratio is 0 exactly when there are fewer than two returns,
      all returns are equal, or their mean is 0. */
  lemma SharpeValueZero(equity: seq<real>)
    requires NonZero(equity)
    ensures var r := Returns(equity);
            ValueZero(SharpeRatio(equity)) <==>
              |r| < 2 || (forall i :: 0 <= i < |r| ==> r[i] == r[0]) || Mean(r) == 0.0
  {
    SharpeZeroIff(equity);
  }

  /** A curve that rises by 10% and falls back by 10% has returns 0.1 and
      -0.1: the variance is positive, so the `Annualized` branch is taken, and
      the ratio is 0 all the same. */
  lemma ZeroMeanSharpe()
    ensures NonZero([100.0, 110.0, 99.0])
    ensures SharpeRatio([100.0, 110.0, 99.0]) == Annualized(0.0, 0.02)
    ensures ValueZero(SharpeRatio([100.0, 110.0, 99.0]))
  {
    var e := [100.0, 110.0, 99.0];
    assert Returns(e) == [0.1, -0.1];
    assert [0.1, -0.1][..1] == [0.1] && [0.1][..0] == [];
    assert Sum([0.1, -0.1]) == 0.0;
    var d := SquaredDeviations([0.1, -0.1], 0.0);
    assert d == [0.01, 0.01];
    assert d[..1] == [0.01] && [0.01][..0] == [];
    assert Sum(d) == 0.02;
  }

  /** A flat equity curve, such as that of a strategy that never trades, has
      a Sharpe ratio of 0. */
  lemma FlatSharpe(equity: seq<real>)
    requires NonZero(equity)
    requires forall i :: 0 <= i < |equity| ==> equity[i] == equity[0]
    ensures SharpeRatio(equity) == Zero
  {
    var r := Returns(equity);
    forall i | 0 <= i < |r| ensures r[i] == 0.0 {
      assert equity[i + 1] == equity[i];
    }
    SharpeZeroIff(equity);
  }

  /** `trades[-10:] if trades else []`: the most recent ten records, in order. */
  function LastTrades(trades: seq<Trade>): (r: seq<Trade>)
    ensures |r| == if |trades| < 10 then |trades| else 10
    ensures trades == trades[..|trades| - |r|] + r
  {
    if |trades| <= 10 then trades else trades[|trades| - 10..]
  }
}

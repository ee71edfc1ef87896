/** Technical indicators over the close column: rolling moving averages,
    percent-change momentum and the relative strength index. Every column is
    aligned with the price bars; an entry before the warm-up window is full
    is `None`. */
module Indicators {
  import opened Common

  function Max(a: real, b: real): real {
    if a >= b then a else b
  }

  /** `rolling(window=w).mean()` over `xs`: entry i is the mean of the w values
      ending at bar i. pandas leaves it NaN until the window is full and, for
      w = 0, everywhere (the mean of no values). */
  function RollingMean(xs: seq<real>, w: nat): (r: seq<Option<real>>)
    ensures |r| == |xs|
  {
    seq(|xs|, i requires 0 <= i < |xs| =>
      if 1 <= w <= i + 1 then Some(Mean(xs[i + 1 - w..i + 1])) else None)
  }

  /** The first w - 1 entries are missing and every later one is present. */
  lemma RollingMeanWarmUp(xs: seq<real>, w: nat, i: nat)
    requires i < |xs|
    ensures RollingMean(xs, w)[i].Some? <==> 1 <= w && w - 1 <= i
  {
  }

  /** The running-sum recurrence by which a rolling mean is updated: moving
      one bar on adds the newest value and drops the oldest, each weighted 1/w. */
  lemma RollingMeanSlide(xs: seq<real>, w: nat, i: nat)
    requires 1 <= w && w - 1 <= i && i + 1 < |xs|
    ensures RollingMean(xs, w)[i].Some? && RollingMean(xs, w)[i + 1].Some?
    ensures RollingMean(xs, w)[i + 1].value
         == RollingMean(xs, w)[i].value + (xs[i + 1] - xs[i + 1 - w]) / w as real
  {
    var lo, n := i + 1 - w, w as real;
    SumSlide(xs, lo, i + 1);
    var a, b := Sum(xs[lo..i + 1]), Sum(xs[lo + 1..i + 2]);
    assert |xs[lo..i + 1]| == w && |xs[lo + 1..i + 2]| == w;
    assert RollingMean(xs, w)[i] == Some(a / n);
    assert RollingMean(xs, w)[i + 1] == Some(b / n);
    DivSum(a, xs[i + 1] - xs[lo], n);
  }

  /** A defined moving average lies between the smallest and the largest close
      of its window; over a flat window it is that close. */
  lemma RollingMeanBounds(xs: seq<real>, w: nat, i: nat, lo: real, hi: real)
    requires 1 <= w && w - 1 <= i < |xs|
    requires forall j :: i + 1 - w <= j <= i ==> lo <= xs[j] <= hi
    ensures RollingMean(xs, w)[i].Some?
    ensures lo <= RollingMean(xs, w)[i].value <= hi
  {
    var win := xs[i + 1 - w..i + 1];
    assert forall k :: 0 <= k < |win| ==> win[k] == xs[i + 1 - w + k];
    MeanBounds(win, lo, hi);
  }

  /** The two moving-average columns added by the moving-average strategy. */
  datatype MovingAverages = MovingAverages(short: seq<Option<real>>, long: seq<Option<real>>)

  function CalculateMovingAverages(closes: seq<real>, shortPeriod: nat, longPeriod: nat): (r: MovingAverages)
    ensures |r.short| == |closes| && |r.long| == |closes|
  {
    MovingAverages(RollingMean(closes, shortPeriod), RollingMean(closes, longPeriod))
  }

  /** `pct_change(periods=p)`: the relative change of the close against the
      close p bars earlier (later, for negative p); missing where that bar
      lies outside the series. */
  function Momentum(closes: seq<real>, p: int): (r: seq<Option<real>>)
    requires AllPositive(closes)
    ensures |r| == |closes|
  {
    seq(|closes|, i requires 0 <= i < |closes| =>
      if 0 <= i - p < |closes| then Some(closes[i] / closes[i - p] - 1.0) else None)
  }

  /** Momentum exceeds a threshold t exactly when the close has grown by more
      than the factor 1 + t over the period, and falls below -t exactly when it
      has shrunk below the factor 1 - t. */
  lemma MomentumCrossing(closes: seq<real>, p: int, i: nat, t: real)
    requires AllPositive(closes) && i < |closes|
    ensures Above(Momentum(closes, p)[i], t)
        <==> 0 <= i - p < |closes| && closes[i] > (1.0 + t) * closes[i - p]
    ensures Below(Momentum(closes, p)[i], -t)
        <==> 0 <= i - p < |closes| && closes[i] < (1.0 - t) * closes[i - p]
  {
    if 0 <= i - p < |closes| {
      var a, b := closes[i], closes[i - p];
      DivCompare(a, b, 1.0 + t);
      DivCompare(a, b, 1.0 - t);
    }
  }

  /** Day-over-day rises of the close (`delta.where(delta > 0, 0)`); the first
      bar has no delta, and NaN > 0 is false, so it gets 0. */
  function Gains(closes: seq<real>): (r: seq<real>)
    ensures |r| == |closes|
    ensures forall i :: 0 <= i < |r| ==> r[i] >= 0.0
    ensures forall i :: 1 <= i < |r| ==> (r[i] > 0.0 <==> closes[i - 1] < closes[i])
  {
    seq(|closes|, i requires 0 <= i < |closes| =>
      if i == 0 then 0.0 else Max(closes[i] - closes[i - 1], 0.0))
  }

  /** Day-over-day falls of the close (`-delta.where(delta < 0, 0)`), 0 at the
      first bar for the same reason. */
  function Losses(closes: seq<real>): (r: seq<real>)
    ensures |r| == |closes|
    ensures forall i :: 0 <= i < |r| ==> r[i] >= 0.0
    ensures forall i :: 1 <= i < |r| ==> (r[i] > 0.0 <==> closes[i - 1] > closes[i])
  {
    seq(|closes|, i requires 0 <= i < |closes| =>
      if i == 0 then 0.0 else Max(closes[i - 1] - closes[i], 0.0))
  }

  /** `100 - 100 / (1 + gain / loss)` under floating-point division: a zero
      loss with a positive gain makes the ratio infinite and the RSI 100, while
      a zero loss with a zero gain makes it 0/0, NaN. */
  function RsiValue(gain: Option<real>, loss: Option<real>): (r: Option<real>)
    requires gain.Some? ==> gain.value >= 0.0
    requires loss.Some? ==> loss.value >= 0.0
    ensures r.Some? <==> gain.Some? && loss.Some? && gain.value + loss.value > 0.0
    ensures r.Some? ==> 0.0 <= r.value <= 100.0
    ensures r.Some? && loss.Some? && loss.value > 0.0
            ==> r.value == 100.0 * gain.value / (gain.value + loss.value)
  {
    if gain.None? || loss.None? then None
    else if loss.value == 0.0 then (if gain.value > 0.0 then Some(100.0) else None)
    else
      var g, l := gain.value, loss.value;
      RsiAlgebra(g, l);
      assert 100.0 * g / (g + l) <= 100.0 by {
        DivCompare(100.0 * g, g + l, 100.0);
      }
      Some(100.0 - 100.0 / (1.0 + g / l))
  }

  lemma RsiAlgebra(g: real, l: real)
    requires g >= 0.0 && l > 0.0
    ensures 1.0 + g / l > 0.0
    ensures 100.0 - 100.0 / (1.0 + g / l) == 100.0 * g / (g + l)
  {
    var q := g / l;
    assert q * l == g;
    var d := 1.0 + q;
    assert d * l == l + g;
    var e := 100.0 / d;
    assert e * d == 100.0;
    assert e * (g + l) == 100.0 * l by {
      assert e * (g + l) == e * (d * l);
      assert e * (d * l) == (e * d) * l;
    }
    var f := 100.0 * g / (g + l);
    assert f * (g + l) == 100.0 * g;
    assert (100.0 - e) * (g + l) == 100.0 * g;
    Cancel(100.0 - e, f, g + l);
  }

  /** `_calculate_rsi`: the RSI over the rolling means of gains and losses. */
  function Rsi(closes: seq<real>, period: nat): (r: seq<Option<real>>)
    ensures |r| == |closes|
  {
    var g, l := RollingMean(Gains(closes), period), RollingMean(Losses(closes), period);
    NonNegativeMeans(Gains(closes), period);
    NonNegativeMeans(Losses(closes), period);
    RsiColumn(g, l)
  }

  /** The RSI of each bar from the average gain and loss at that bar. */
  function RsiColumn(g: seq<Option<real>>, l: seq<Option<real>>): (r: seq<Option<real>>)
    requires |g| == |l|
    requires forall i :: 0 <= i < |g| && g[i].Some? ==> g[i].value >= 0.0
    requires forall i :: 0 <= i < |l| && l[i].Some? ==> l[i].value >= 0.0
    ensures |r| == |g|
  {
    seq(|g|, i requires 0 <= i < |g| => RsiValue(g[i], l[i]))
  }

  lemma NonNegativeMeans(xs: seq<real>, w: nat)
    requires forall j :: 0 <= j < |xs| ==> xs[j] >= 0.0
    ensures forall i :: 0 <= i < |xs| && RollingMean(xs, w)[i].Some? ==> RollingMean(xs, w)[i].value >= 0.0
  {
    forall i | 0 <= i < |xs| {
      NonNegativeMean(xs, w, i);
    }
  }

  lemma NonNegativeMean(xs: seq<real>, w: nat, i: nat)
    requires i < |xs|
    requires forall j :: 0 <= j < |xs| ==> xs[j] >= 0.0
    ensures var m := RollingMean(xs, w)[i]; m.Some? ==> m.value >= 0.0
  {
    if 1 <= w <= i + 1 {
      var win := xs[i + 1 - w..i + 1];
      SumZeroIff(win);
    }
  }

  /** A defined mean of non-negative values is zero exactly when each value
      of the window is zero. */
  lemma MeanZeroIff(xs: seq<real>, w: nat, i: nat)
    requires 1 <= w && w - 1 <= i < |xs|
    requires forall j :: 0 <= j < |xs| ==> xs[j] >= 0.0
    ensures RollingMean(xs, w)[i].Some?
    ensures RollingMean(xs, w)[i].value == 0.0 <==> forall j :: i + 1 - w <= j <= i ==> xs[j] == 0.0
  {
    var win := xs[i + 1 - w..i + 1];
    assert forall k :: 0 <= k < |win| ==> win[k] == xs[i + 1 - w + k];
    SumZeroIff(win);
    assert forall j :: i + 1 - w <= j <= i ==> xs[j] == win[j - (i + 1 - w)];
  }

  lemma RsiAt(closes: seq<real>, period: nat, i: nat)
    requires i < |closes|
    ensures var g, l := RollingMean(Gains(closes), period)[i], RollingMean(Losses(closes), period)[i];
            && (g.Some? ==> g.value >= 0.0) && (l.Some? ==> l.value >= 0.0)
            && Rsi(closes, period)[i] == RsiValue(g, l)
  {
    NonNegativeMean(Gains(closes), period, i);
    NonNegativeMean(Losses(closes), period, i);
  }

  /** A full window in which the close moves has a defined RSI. */
  lemma RsiMoves(closes: seq<real>, period: nat, i: nat, j: nat)
    requires 1 <= period && period - 1 <= i < |closes|
    requires i + 1 - period <= j <= i && 1 <= j && closes[j] != closes[j - 1]
    ensures Rsi(closes, period)[i].Some?
  {
    var G, L := Gains(closes), Losses(closes);
    RsiAt(closes, period, i);
    MeanZeroIff(G, period, i);
    MeanZeroIff(L, period, i);
    assert G[j] > 0.0 || L[j] > 0.0;
  }

  /** A full window in which the close never moves has no RSI. */
  lemma RsiFlat(closes: seq<real>, period: nat, i: nat)
    requires 1 <= period && period - 1 <= i < |closes|
    requires forall j :: i + 1 - period <= j <= i && 1 <= j ==> closes[j] == closes[j - 1]
    ensures Rsi(closes, period)[i].None?
  {
    var G, L := Gains(closes), Losses(closes);
    RsiAt(closes, period, i);
    forall j | i + 1 - period <= j <= i ensures G[j] == 0.0 && L[j] == 0.0 {
      if j >= 1 {
        assert closes[j] == closes[j - 1];
      }
    }
    MeanZeroIff(G, period, i);
    MeanZeroIff(L, period, i);
  }

  /** Before the window is full there is no RSI. */
  lemma RsiWarmUp(closes: seq<real>, period: nat, i: nat)
    requires i < |closes| && !(1 <= period && period - 1 <= i)
    ensures Rsi(closes, period)[i].None?
  {
    RsiAt(closes, period, i);
    RollingMeanWarmUp(Gains(closes), period, i);
  }

  /** Any RSI value lies within [0, 100]. */
  lemma RsiRange(closes: seq<real>, period: nat, i: nat)
    requires i < |closes|
    ensures var r := Rsi(closes, period)[i]; r.Some? ==> 0.0 <= r.value <= 100.0
  {
    RsiAt(closes, period, i);
  }

  /** The RSI is defined exactly when the window is full and the close moved
      at least once inside it. */
  lemma RsiPresence(closes: seq<real>, period: nat, i: nat)
    requires i < |closes|
    ensures Rsi(closes, period)[i].Some?
        <==> 1 <= period && period - 1 <= i
             && exists j :: i + 1 - period <= j <= i && 1 <= j && closes[j] != closes[j - 1]
  {
    if 1 <= period && period - 1 <= i {
      if exists j :: i + 1 - period <= j <= i && 1 <= j && closes[j] != closes[j - 1] {
        var j :| i + 1 - period <= j <= i && 1 <= j && closes[j] != closes[j - 1];
        RsiMoves(closes, period, i, j);
      } else {
        RsiFlat(closes, period, i);
      }
    } else {
      RsiWarmUp(closes, period, i);
    }
  }

  /** The RSI lies within [0, 100]; it is defined exactly when both windows are
      full and the close moved at least once inside the window. */
  lemma RsiDefined(closes: seq<real>, period: nat, i: nat)
    requires i < |closes|
    ensures var r := Rsi(closes, period)[i]; r.Some? ==> 0.0 <= r.value <= 100.0
    ensures Rsi(closes, period)[i].Some?
        <==> 1 <= period && period - 1 <= i
             && exists j :: i + 1 - period <= j <= i && 1 <= j && closes[j] != closes[j - 1]
  {
    RsiRange(closes, period, i);
    RsiPresence(closes, period, i);
  }

  /** A window in which the close never falls has an average loss of 0. */
  lemma NoLossWindow(closes: seq<real>, period: nat, i: nat)
    requires 1 <= period && period - 1 <= i < |closes|
    requires forall j :: i + 1 - period <= j <= i && 1 <= j ==> closes[j - 1] <= closes[j]
    ensures RollingMean(Losses(closes), period)[i] == Some(0.0)
  {
    var L := Losses(closes);
    forall j | i + 1 - period <= j <= i ensures L[j] == 0.0 {
      if j >= 1 {
        assert closes[j - 1] <= closes[j];
      }
    }
    MeanZeroIff(L, period, i);
  }

  /** A window in which the close rises once has a positive average gain. */
  lemma GainWindow(closes: seq<real>, period: nat, i: nat, j: nat)
    requires 1 <= period && period - 1 <= i < |closes|
    requires i + 1 - period <= j <= i && 1 <= j && closes[j - 1] < closes[j]
    ensures RollingMean(Gains(closes), period)[i].Some?
    ensures RollingMean(Gains(closes), period)[i].value > 0.0
  {
    var G := Gains(closes);
    MeanZeroIff(G, period, i);
    NonNegativeMean(G, period, i);
    assert G[j] > 0.0;
  }

  /** With no loss and a positive gain, `rs` is infinite and the RSI is 100. */
  lemma NoLossValue(gain: Option<real>, loss: Option<real>)
    requires gain.Some? && gain.value > 0.0 && loss == Some(0.0)
    ensures RsiValue(gain, loss) == Some(100.0)
  {
  }

  /** A window in which the close never falls but rises at least once has an
      RSI of exactly 100 rather than a numeric fault. */
  lemma RsiSaturates(closes: seq<real>, period: nat, i: nat)
    requires 1 <= period && period - 1 <= i < |closes|
    requires forall j :: i + 1 - period <= j <= i && 1 <= j ==> closes[j - 1] <= closes[j]
    requires exists j :: i + 1 - period <= j <= i && 1 <= j && closes[j - 1] < closes[j]
    ensures Rsi(closes, period)[i] == Some(100.0)
  {
    var j :| i + 1 - period <= j <= i && 1 <= j && closes[j - 1] < closes[j];
    var gain, loss := RollingMean(Gains(closes), period)[i], RollingMean(Losses(closes), period)[i];
    assert loss == Some(0.0) by { NoLossWindow(closes, period, i); }
    assert gain.Some? && gain.value > 0.0 by { GainWindow(closes, period, i, j); }
    assert Rsi(closes, period)[i] == RsiValue(gain, loss) by { RsiAt(closes, period, i); }
    NoLossValue(gain, loss);
  }
}

/** Values shared by every stage of the backtesting pipeline: the optional
    value that stands for a pandas NaN, and sums and means over exact reals. */
module Common {

  /** A column entry that may be missing: `None` is what pandas shows as NaN
      (a rolling window that is not full yet, a difference at the first bar). */
  datatype Option<+T> = None | Some(value: T) {
    function GetOr(default: T): T {
      match this
      case Some(v) => v
      case None => default
    }
  }

  /** A computation that either produces a value or fails with an error. */
  datatype Result<+R, +E> = Success(value: R) | Failure(error: E)

  /** `x > b` on a column entry: any comparison with NaN is false. */
  predicate Above(x: Option<real>, b: real) {
    x.Some? && x.value > b
  }

  /** `x < b` on a column entry: any comparison with NaN is false. */
  predicate Below(x: Option<real>, b: real) {
    x.Some? && x.value < b
  }

  /** `a > b` between two column entries, false when either is NaN. */
  predicate Greater(a: Option<real>, b: Option<real>) {
    a.Some? && b.Some? && a.value > b.value
  }

  /** `a < b` between two column entries, false when either is NaN. */
  predicate Less(a: Option<real>, b: Option<real>) {
    a.Some? && b.Some? && a.value < b.value
  }

  /** Every price (or equity value) of the series is strictly positive. */
  predicate AllPositive(s: seq<real>) {
    forall i :: 0 <= i < |s| ==> s[i] > 0.0
  }

  function Sum(s: seq<real>): real {
    if s == [] then 0.0 else Sum(s[..|s| - 1]) + s[|s| - 1]
  }

  function Mean(s: seq<real>): real
    requires |s| > 0
  {
    Sum(s) / |s| as real
  }

  /** A sum over a window that slides one place to the right loses its first
      element and gains the next one. */
  lemma {:induction false} SumSlide(s: seq<real>, lo: nat, hi: nat)
    requires lo < hi < |s|
    ensures Sum(s[lo + 1..hi + 1]) == Sum(s[lo..hi]) - s[lo] + s[hi]
  {
    assert s[lo + 1..hi + 1][..hi - lo - 1] == s[lo + 1..hi];
    SumFront(s[lo..hi]);
    assert s[lo..hi][1..] == s[lo + 1..hi];
  }

  /** Peeling the first element off a sum. */
  lemma {:induction false} SumFront(s: seq<real>)
    requires |s| > 0
    ensures Sum(s) == s[0] + Sum(s[1..])
  {
    if |s| > 1 {
      SumFront(s[..|s| - 1]);
      assert s[..|s| - 1][1..] == s[1..][..|s| - 2];
    }
  }

  /** A sum of terms each within [lo, hi] lies within [n*lo, n*hi]. */
  lemma {:induction false} SumBounds(s: seq<real>, lo: real, hi: real)
    requires forall i :: 0 <= i < |s| ==> lo <= s[i] <= hi
    ensures |s| as real * lo <= Sum(s) <= |s| as real * hi
  {
    if s != [] {
      SumBounds(s[..|s| - 1], lo, hi);
    }
  }

  /** A sum of non-negative terms is zero exactly when every term is zero. */
  lemma {:induction false} SumZeroIff(s: seq<real>)
    requires forall i :: 0 <= i < |s| ==> s[i] >= 0.0
    ensures Sum(s) >= 0.0
    ensures Sum(s) == 0.0 <==> forall i :: 0 <= i < |s| ==> s[i] == 0.0
  {
    if s != [] {
      SumZeroIff(s[..|s| - 1]);
      assert forall i :: 0 <= i < |s| - 1 ==> s[..|s| - 1][i] == s[i];
    }
  }

  /** The mean of values within [lo, hi] lies within [lo, hi]. */
  lemma MeanBounds(s: seq<real>, lo: real, hi: real)
    requires |s| > 0
    requires forall i :: 0 <= i < |s| ==> lo <= s[i] <= hi
    ensures lo <= Mean(s) <= hi
  {
    SumBounds(s, lo, hi);
    var n := |s| as real;
    assert n * lo <= Sum(s) <= n * hi;
    assert Mean(s) * n == Sum(s);
  }

  /** Cancelling a non-zero common factor. */
  lemma Cancel(x: real, y: real, c: real)
    requires c != 0.0 && x * c == y * c
    ensures x == y
  {
    assert (x - y) * c == 0.0;
  }

  /** Division by a non-zero divisor distributes over a sum. */
  lemma DivSum(a: real, d: real, n: real)
    requires n != 0.0
    ensures (a + d) / n == a / n + d / n
  {
    assert (a / n) * n == a && (d / n) * n == d;
    Cancel((a + d) / n, a / n + d / n, n);
  }

  /** Comparing a quotient by a positive divisor is comparing the dividend. */
  lemma DivCompare(a: real, b: real, c: real)
    requires b > 0.0
    ensures a / b > c <==> a > c * b
    ensures a / b < c <==> a < c * b
  {
    assert (a / b) * b == a;
  }

  /** Spending all cash on shares at a positive price: the shares are worth
      the cash back at that price, and there are some when there was cash. */
  lemma AllIn(cash: real, price: real)
    requires price > 0.0
    ensures (cash / price) * price == cash
    ensures cash > 0.0 ==> cash / price > 0.0
  {
  }

  lemma PositiveProduct(a: real, b: real)
    requires a > 0.0 && b > 0.0
    ensures a * b > 0.0
  {
  }
}

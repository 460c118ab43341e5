/** The maximum drawdown of a backtest: one pass over the equity curve against a definition over all pairs of days. */
module BacktestResult {
  import opened Wrappers

  /** The percentage lost from a peak; a zero peak is a division by zero. */
  function Drop(peak: real, equity: real): real
    requires peak != 0.0
  {
    (peak - equity) / peak * 100.0
  }

  function Peak(curve: seq<real>): real
    requires curve != []
  {
    if |curve| == 1 then curve[0]
    else
      var earlier := Peak(curve[..|curve| - 1]);
      if curve[|curve| - 1] > earlier then curve[|curve| - 1] else earlier
  }

  lemma {:induction false} PeakIsGreatest(curve: seq<real>)
    requires curve != []
    ensures Peak(curve) in curve && forall x :: x in curve ==> x <= Peak(curve)
  {
    if |curve| > 1 {
      var n := |curve| - 1;
      PeakIsGreatest(curve[..n]);
      assert curve == curve[..n] + [curve[n]];
    }
  }

  /** Some peak on the way through the first n entries is exactly zero. */
  ghost predicate ZeroPeak(curve: seq<real>, n: nat)
    requires n <= |curve|
  {
    exists j :: 1 < j <= n && Peak(curve[..j]) == 0.0
  }

  /** The drop from the peak so far to the j-th equity. */
  function DropAt(curve: seq<real>, j: nat): real
    requires j < |curve| && Peak(curve[..j + 1]) != 0.0
  {
    Drop(Peak(curve[..j + 1]), curve[j])
  }

  /** The largest of zero and the first n entries' drops from the running peak, the first entry being the initial
      balance. */
  ghost predicate LargestDrop(d: real, curve: seq<real>, n: nat)
    requires n <= |curve| && !ZeroPeak(curve, n)
  {
    && d >= 0.0
    && (forall j :: 1 <= j < n ==> DropAt(curve, j) <= d)
    && (d == 0.0 || exists j :: 1 <= j < n && d == DropAt(curve, j))
  }

  /** The drop between two days, the first of positive equity. */
  ghost predicate PairDrop(curve: seq<real>, i: nat, j: nat, d: real) {
    i <= j < |curve| && curve[i] > 0.0 && d == Drop(curve[i], curve[j])
  }

  /** The maximum drawdown: the largest of zero and the drops over all pairs of days. */
  ghost predicate MaxDrawdown(d: real, curve: seq<real>) {
    && d >= 0.0
    && (forall i: nat, j: nat, e: real :: PairDrop(curve, i, j, e) ==> e <= d)
    && (d == 0.0 || exists i: nat, j: nat :: PairDrop(curve, i, j, d))
  }

  lemma DivisionUnique(n: real, d: real, q: real)
    requires d != 0.0 && q * d == n
    ensures n / d == q
  {
  }

  lemma DropFromPeak(peak: real, equity: real)
    requires peak != 0.0
    ensures Drop(peak, equity) == (1.0 - equity / peak) * 100.0
  {
    var q := equity / peak;
    assert q * peak == equity;
    assert (1.0 - q) * peak == peak - q * peak;
    DivisionUnique(peak - equity, peak, 1.0 - q);
  }

  /** A drop of d percent from a peak leaves the rest of the peak. */
  lemma DropIsShare(peak: real, equity: real)
    requires peak != 0.0
    ensures peak * (100.0 - Drop(peak, equity)) == 100.0 * equity
  {
    var q := (peak - equity) / peak;
    assert q * peak == peak - equity;
    assert peak * (100.0 - q * 100.0) == 100.0 * peak - 100.0 * (q * peak);
  }

  lemma Quotient(a: real, b: real, x: real)
    requires 0.0 < a <= b && x >= 0.0
    ensures x / b <= x / a
  {
    var q := x / b;
    assert q >= 0.0 && q * b == x;
    Scaled(q, a, b);
    assert q * a <= x;
    Divided(q, a, x);
  }

  lemma Scaled(q: real, a: real, b: real)
    requires 0.0 < a <= b && q >= 0.0
    ensures q * a <= q * b
  {
  }

  lemma Divided(q: real, a: real, x: real)
    requires a > 0.0 && q * a <= x
    ensures q <= x / a
  {
  }

  /** From a higher peak the drop to a non-negative equity is larger. */
  lemma HigherPeakLargerDrop(low: real, high: real, equity: real)
    requires 0.0 < low <= high && equity >= 0.0
    ensures Drop(low, equity) <= Drop(high, equity)
  {
    DropFromPeak(low, equity);
    DropFromPeak(high, equity);
    Quotient(low, high, equity);
    hide Drop;
  }

  lemma DropFromItself(x: real)
    requires x != 0.0
    ensures Drop(x, x) == 0.0
  {
  }

  lemma PositivePeaks(curve: seq<real>, j: nat)
    requires 0 < j <= |curve| && curve[0] > 0.0
    ensures Peak(curve[..j]) > 0.0
  {
    PeakIsGreatest(curve[..j]);
    assert curve[..j][0] == curve[0] && curve[..j][0] in curve[..j];
  }

  /** Main result: with a positive initial balance and no negative equity, the one-pass result is the maximum over all
      pairs. */
  lemma OnePassIsMaximum(curve: seq<real>, d: real)
    requires curve != [] && curve[0] > 0.0 && forall x :: x in curve ==> x >= 0.0
    ensures !ZeroPeak(curve, |curve|)
    ensures LargestDrop(d, curve, |curve|) <==> MaxDrawdown(d, curve)
  {
    forall j | 0 < j <= |curve|
      ensures Peak(curve[..j]) > 0.0
    {
      PositivePeaks(curve, j);
    }
    if LargestDrop(d, curve, |curve|) {
      LargestIsMaximum(curve, d);
    }
    if MaxDrawdown(d, curve) {
      MaximumIsLargest(curve, d);
    }
  }

  lemma PairBelowPeak(curve: seq<real>, i: nat, j: nat, d: real)
    requires PairDrop(curve, i, j, d) && curve[j] >= 0.0 && Peak(curve[..j + 1]) > 0.0
    ensures d <= DropAt(curve, j)
  {
    PeakIsGreatest(curve[..j + 1]);
    assert curve[..j + 1][i] == curve[i] && curve[..j + 1][i] in curve[..j + 1];
    hide Drop;
    HigherPeakLargerDrop(curve[i], Peak(curve[..j + 1]), curve[j]);
  }

  /** The drop at a day is the drop between two days. */
  lemma PeakIsPair(curve: seq<real>, j: nat) returns (i: nat)
    requires j < |curve| && Peak(curve[..j + 1]) > 0.0
    ensures PairDrop(curve, i, j, DropAt(curve, j))
  {
    PeakIsGreatest(curve[..j + 1]);
    i :| 0 <= i <= j && curve[..j + 1][i] == Peak(curve[..j + 1]);
    hide Drop;
  }

  lemma LargestIsMaximum(curve: seq<real>, d: real)
    requires curve != [] && forall x :: x in curve ==> x >= 0.0
    requires forall j :: 0 < j <= |curve| ==> Peak(curve[..j]) > 0.0
    requires !ZeroPeak(curve, |curve|) && LargestDrop(d, curve, |curve|)
    ensures MaxDrawdown(d, curve)
  {
    forall i: nat, j: nat, e: real | PairDrop(curve, i, j, e)
      ensures e <= d
    {
      assert curve[j] in curve;
      PairBelowPeak(curve, i, j, e);
      if j == 0 {
        DropFromItself(curve[0]);
      }
    }
    if d != 0.0 {
      var j :| 1 <= j < |curve| && d == DropAt(curve, j);
      var i := PeakIsPair(curve, j);
    }
  }

  lemma MaximumIsLargest(curve: seq<real>, d: real)
    requires curve != [] && forall x :: x in curve ==> x >= 0.0
    requires forall j :: 0 < j <= |curve| ==> Peak(curve[..j]) > 0.0
    requires !ZeroPeak(curve, |curve|) && MaxDrawdown(d, curve)
    ensures LargestDrop(d, curve, |curve|)
  {
    forall j | 1 <= j < |curve|
      ensures DropAt(curve, j) <= d
    {
      var i := PeakIsPair(curve, j);
    }
    if d != 0.0 {
      var i: nat, j: nat :| PairDrop(curve, i, j, d);
      assert curve[j] in curve;
      PairBelowPeak(curve, i, j, d);
      var k := PeakIsPair(curve, j);
      if j == 0 {
        DropFromItself(curve[0]);
      }
    }
  }

  /** A negative equity breaks it: falling below zero after a rise loses a larger share of the lower day before than of
      the peak, and one pass only sees the peak. */
  lemma NegativeEquityUnderstated(low: real, high: real, x: real)
    requires 0.0 < low < high && x < 0.0
    ensures var curve, d := [low, high, x], Drop(high, x);
      && !ZeroPeak(curve, 3) && LargestDrop(d, curve, 3)
      && PairDrop(curve, 0, 2, Drop(low, x)) && Drop(low, x) > d
      && !MaxDrawdown(d, curve)
  {
    var curve := [low, high, x];
    assert curve[..1] == [low] && curve[..2] == [low, high] && curve[..3] == curve;
    assert [low, high][..1] == [low];
    assert Peak([low]) == low && Peak([low, high]) == high && Peak(curve) == high;
    DropFromItself(high);
    HigherPeakSmallerDrop(low, high, x);
    hide Drop, Peak;
    assert DropAt(curve, 1) == 0.0 && DropAt(curve, 2) == Drop(high, x);
    assert PairDrop(curve, 0, 2, Drop(low, x));
  }

  /** From a higher peak the drop to a negative equity is smaller, and always positive. */
  lemma HigherPeakSmallerDrop(low: real, high: real, x: real)
    requires 0.0 < low < high && x < 0.0
    ensures 0.0 < Drop(high, x) < Drop(low, x)
  {
    DropFromPeak(low, x);
    DropFromPeak(high, x);
    var q, r := x / low, x / high;
    assert q * low == x && r * high == x;
    NegativeQuotients(q, r, low, high, x);
    hide Drop;
  }

  lemma NegativeQuotients(q: real, r: real, low: real, high: real, x: real)
    requires 0.0 < low < high && x < 0.0 && q * low == x && r * high == x
    ensures q < r < 0.0
  {
    Positive(-q, low);
    Positive(-r, high);
    assert (high - low) * -r == -r * high - -r * low;
    Product(high - low, -r);
    assert (r - q) * low == r * low - q * low;
    Positive(r - q, low);
  }

  lemma Product(a: real, b: real)
    requires a > 0.0 && b > 0.0
    ensures a * b > 0.0
  {
  }

  lemma Positive(q: real, k: real)
    requires k > 0.0 && q * k > 0.0
    ensures q > 0.0
  {
  }

  /** One pass over the curve gives the maximum over all pairs. */
  ghost predicate OnePassRight(curve: seq<real>, d: real) {
    !ZeroPeak(curve, |curve|) && (LargestDrop(d, curve, |curve|) <==> MaxDrawdown(d, curve))
  }

  /** Curves that start above zero and never fall below the given level. */
  ghost predicate AtLeast(curve: seq<real>, level: real) {
    curve != [] && curve[0] > 0.0 && forall x :: x in curve ==> x >= level
  }

  /** Main result: for curves that start above zero and keep to some level, one pass is always right exactly when that
      level is not negative. */
  lemma OnePassRightIff(level: real)
    ensures (forall curve, d :: AtLeast(curve, level) ==> OnePassRight(curve, d)) <==> level >= 0.0
  {
    if level >= 0.0 {
      forall curve, d | AtLeast(curve, level)
        ensures OnePassRight(curve, d)
      {
        OnePassIsMaximum(curve, d);
      }
    } else {
      NegativeEquityUnderstated(1.0, 2.0, level);
      hide Drop;
      assert AtLeast([1.0, 2.0, level], level) && !OnePassRight([1.0, 2.0, level], Drop(2.0, level));
    }
  }

  class BacktestResult {
    const initialBalance: real
    var equityCurve: seq<real>
    var finalBalance: real
    var totalReturn: real
    var maxDrawdown: real

    constructor (initialBalance: real)
      ensures this.initialBalance == finalBalance == initialBalance
      ensures equityCurve == [] && totalReturn == 0.0 && maxDrawdown == 0.0
    {
      this.initialBalance, finalBalance := initialBalance, initialBalance;
      equityCurve, totalReturn, maxDrawdown := [], 0.0, 0.0;
    }

    method RecordEquity(equity: real)
      modifies this`equityCurve
      ensures equityCurve == old(equityCurve) + [equity]
    {
      equityCurve := equityCurve + [equity];
    }

    /** The metrics of a non-empty curve; the calculation fails exactly when a running peak is zero, and the drawdown
        is then left as it was. */
    method CalculateMetrics() returns (ok: bool)
      modifies this`finalBalance, this`totalReturn, this`maxDrawdown
      ensures equityCurve == [] ==>
          ok && finalBalance == old(finalBalance) && totalReturn == old(totalReturn) && maxDrawdown == old(maxDrawdown)
      ensures equityCurve != [] ==>
          && finalBalance == equityCurve[|equityCurve| - 1]
          && (ok <==> !ZeroPeak([initialBalance] + equityCurve, 1 + |equityCurve|))
          && (if ok then LargestDrop(maxDrawdown, [initialBalance] + equityCurve, 1 + |equityCurve|) else maxDrawdown == old(maxDrawdown))
          && (initialBalance > 0.0 ==> (1.0 + totalReturn / 100.0) * initialBalance == finalBalance)
          && (initialBalance <= 0.0 ==> totalReturn == old(totalReturn))
    {
      if equityCurve == [] {
        return true;
      }
      finalBalance := equityCurve[|equityCurve| - 1];
      if initialBalance > 0.0 {
        totalReturn := (finalBalance - initialBalance) / initialBalance * 100.0;
        ReturnScales(finalBalance, initialBalance);
      }
      var worst := OnePass();
      if worst.None? {
        return false;
      }
      maxDrawdown := worst.value;
      return true;
    }

    method OnePass() returns (worst: Option<real>)
      ensures worst.None? <==> ZeroPeak([initialBalance] + equityCurve, 1 + |equityCurve|)
      ensures worst.Some? ==> LargestDrop(worst.value, [initialBalance] + equityCurve, 1 + |equityCurve|)
    {
      hide Drop, Peak;
      ghost var curve := [initialBalance] + equityCurve;
      var peak, maxDd := initialBalance, 0.0;
      PeakOfOne(curve);
      for k := 0 to |equityCurve|
        invariant peak == Peak(curve[..k + 1]) && !ZeroPeak(curve, k + 1)
        invariant LargestDrop(maxDd, curve, k + 1)
      {
        var equity := equityCurve[k];
        PeakStep(curve, k + 1);
        if equity > peak {
          peak := equity;
        }
        if peak == 0.0 {
          return None;
        }
        var drawdown := Drop(peak, equity);
        ExtendLargest(curve, k + 1, maxDd);
        if drawdown > maxDd {
          maxDd := drawdown;
        }
      }
      return Some(maxDd);
    }
  }

  lemma PeakOfOne(curve: seq<real>)
    requires curve != []
    ensures Peak(curve[..1]) == curve[0]
  {
  }

  lemma PeakStep(curve: seq<real>, k: nat)
    requires 1 <= k < |curve|
    ensures Peak(curve[..k + 1]) == if curve[k] > Peak(curve[..k]) then curve[k] else Peak(curve[..k])
  {
    assert curve[..k + 1][..k] == curve[..k];
  }

  /** One more equity: the largest drop so far, or the new one. */
  lemma ExtendLargest(curve: seq<real>, k: nat, d: real)
    requires 1 <= k < |curve| && !ZeroPeak(curve, k) && LargestDrop(d, curve, k) && Peak(curve[..k + 1]) != 0.0
    ensures !ZeroPeak(curve, k + 1)
    ensures var e := DropAt(curve, k); LargestDrop(if e > d then e else d, curve, k + 1)
  {
    hide Drop, Peak;
  }

  lemma ReturnScales(final: real, initial: real)
    requires initial > 0.0
    ensures (1.0 + (final - initial) / initial * 100.0 / 100.0) * initial == final
  {
    var r := (final - initial) / initial;
    assert r * 100.0 / 100.0 == r;
    assert r * initial == final - initial;
    assert (1.0 + r) * initial == initial + r * initial;
  }
}

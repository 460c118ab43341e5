/** Exponential averages, the MACD line and the relative strength index over exact prices. */
module Indicators {
  import opened Wrappers

  // ---- Means and mixtures ----

  function Sum(s: seq<real>): real {
    if s == [] then 0.0 else Sum(s[..|s| - 1]) + s[|s| - 1]
  }

  function Mean(s: seq<real>): real
    requires s != []
  {
    Sum(s) / |s| as real
  }

  function Mix(m: real, x: real, y: real): real {
    x * m + y * (1.0 - m)
  }

  ghost predicate Between(s: seq<real>, low: real, high: real) {
    forall x :: x in s ==> low <= x <= high
  }

  function Line(a: real, b: real, x: real): real {
    a * x + b
  }

  /** Every price scaled by a and shifted by b. */
  function Affine(s: seq<real>, a: real, b: real): seq<real> {
    seq(|s|, i requires 0 <= i < |s| => Line(a, b, s[i]))
  }

  function Times(n: nat, x: real): real {
    n as real * x
  }

  lemma TimesNext(n: nat, x: real)
    ensures Times(n + 1, x) == Times(n, x) + x
  {
    assert (n + 1) as real == n as real + 1.0;
  }

  lemma {:induction false} SumBetween(s: seq<real>, low: real, high: real)
    requires Between(s, low, high)
    ensures Times(|s|, low) <= Sum(s) <= Times(|s|, high)
  {
    if s != [] {
      hide Times;
      var n := |s| - 1;
      assert forall x :: x in s[..n] ==> x in s;
      SumBetween(s[..n], low, high);
      assert s[n] in s;
      TimesNext(n, low);
      TimesNext(n, high);
    }
  }

  lemma MeanBetween(s: seq<real>, low: real, high: real)
    requires s != [] && Between(s, low, high)
    ensures low <= Mean(s) <= high
  {
    SumBetween(s, low, high);
    QuotientBetween(Sum(s), |s|, low, high);
  }

  lemma QuotientBetween(x: real, n: nat, low: real, high: real)
    requires n > 0 && Times(n, low) <= x <= Times(n, high)
    ensures low <= x / n as real <= high
  {
  }

  lemma MixBetween(m: real, x: real, y: real, low: real, high: real)
    requires 0.0 <= m <= 1.0 && low <= x <= high && low <= y <= high
    ensures low <= Mix(m, x, y) <= high
  {
    MixedBetween(m, 1.0 - m, x, y, low, high);
  }

  lemma MixedBetween(m: real, n: real, x: real, y: real, low: real, high: real)
    requires 0.0 <= m && 0.0 <= n && m + n == 1.0 && low <= x <= high && low <= y <= high
    ensures low <= Weighted(m, x) + Weighted(n, y) <= high
  {
    Scale(m, low, x);
    Scale(m, x, high);
    Scale(n, low, y);
    Scale(n, y, high);
    Weights(m, n, low);
    Weights(m, n, high);
    hide Weighted;
  }

  function Weighted(m: real, x: real): real {
    x * m
  }

  lemma Weights(m: real, n: real, x: real)
    requires m + n == 1.0
    ensures Weighted(m, x) + Weighted(n, x) == x
  {
    assert x * (m + n) == x * m + x * n;
  }

  lemma Scale(m: real, x: real, y: real)
    requires 0.0 <= m && x <= y
    ensures Weighted(m, x) <= Weighted(m, y)
  {
  }

  lemma MixAffine(m: real, x: real, y: real, a: real, b: real)
    ensures Mix(m, Line(a, b, x), Line(a, b, y)) == Line(a, b, Mix(m, x, y))
  {
    assert (a * x + b) * m == a * x * m + b * m;
    assert (a * y + b) * (1.0 - m) == a * y * (1.0 - m) + b * (1.0 - m);
    assert b * m + b * (1.0 - m) == b;
    assert a * (x * m + y * (1.0 - m)) == a * x * m + a * y * (1.0 - m);
  }

  lemma {:induction false} SumAffine(s: seq<real>, a: real, b: real)
    ensures Sum(Affine(s, a, b)) == a * Sum(s) + Times(|s|, b)
  {
    if s == [] {
    } else {
      var n := |s| - 1;
      SumAffine(s[..n], a, b);
      assert Affine(s, a, b)[..n] == Affine(s[..n], a, b);
      TimesNext(n, b);
      Distribute(a, Sum(s[..n]), s[n]);
    }
  }

  lemma Distribute(a: real, x: real, y: real)
    ensures a * (x + y) == a * x + a * y
  {
  }

  lemma MeanAffine(s: seq<real>, a: real, b: real)
    requires s != []
    ensures Mean(Affine(s, a, b)) == Line(a, b, Mean(s))
  {
    SumAffine(s, a, b);
    DivideLine(Sum(s), |s|, a, b);
  }

  lemma DivideLine(x: real, n: nat, a: real, b: real)
    requires n > 0
    ensures (a * x + Times(n, b)) / n as real == Line(a, b, x / n as real)
  {
    var k, q := n as real, x / n as real;
    assert q * k == x;
    assert (a * q + b) * k == a * (q * k) + b * k;
  }

  // ---- Exponential average ----

  function Multiplier(period: nat): real {
    2.0 / (period as real + 1.0)
  }

  lemma MultiplierIsWeight(period: nat)
    requires period >= 1
    ensures 0.0 <= Multiplier(period) <= 1.0
  {
  }

  /** The average at a bar: the plain mean of the first period, then each price mixed into the previous average. */
  function Ema(prices: seq<real>, period: nat, k: nat): real
    requires 1 <= period <= k + 1 && k < |prices|
  {
    if k == period - 1 then Mean(prices[..period])
    else Mix(Multiplier(period), prices[k], Ema(prices, period, k - 1))
  }

  /** The average stays within any bounds of the prices up to its bar. */
  lemma {:induction false} EmaBetween(prices: seq<real>, period: nat, k: nat, low: real, high: real)
    requires 1 <= period <= k + 1 && k < |prices| && Between(prices[..k + 1], low, high)
    ensures low <= Ema(prices, period, k) <= high
  {
    hide Mix, Multiplier;
    assert forall x :: x in prices[..k] ==> x in prices[..k + 1];
    if k == period - 1 {
      MeanBetween(prices[..period], low, high);
    } else {
      EmaBetween(prices, period, k - 1, low, high);
      MultiplierIsWeight(period);
      assert prices[..k + 1][k] in prices[..k + 1];
      MixBetween(Multiplier(period), prices[k], Ema(prices, period, k - 1), low, high);
    }
  }

  /** Scaling and shifting the prices scales and shifts the average. */
  lemma {:induction false} EmaAffine(prices: seq<real>, period: nat, k: nat, a: real, b: real)
    requires 1 <= period <= k + 1 && k < |prices|
    ensures Ema(Affine(prices, a, b), period, k) == Line(a, b, Ema(prices, period, k))
  {
    hide Mix, Multiplier, Line;
    if k == period - 1 {
      assert Affine(prices, a, b)[..period] == Affine(prices[..period], a, b);
      MeanAffine(prices[..period], a, b);
    } else {
      EmaAffine(prices, period, k - 1, a, b);
      MixAffine(Multiplier(period), prices[k], Ema(prices, period, k - 1), a, b);
    }
  }

  lemma MeanTimes(s: seq<real>)
    requires s != []
    ensures Mean(s) * |s| as real == Sum(s)
  {
  }

  lemma MixTimes(n: real, d: real, x: real, y: real)
    requires d > 0.0
    ensures d * Mix(n / d, x, y) == n * x + (d - n) * y
  {
    var m := n / d;
    assert m * d == n;
    assert d * (x * m) == m * d * x;
    assert d * (y * (1.0 - m)) == d * y - m * d * y;
  }

  /** What the average weighs: over the first period every price alike, later a price twice and the average before it
      period less one times, out of period and one. */
  lemma EmaWeights(prices: seq<real>, period: nat, k: nat)
    requires 1 <= period <= k + 1 && k < |prices|
    ensures k == period - 1 ==> period as real * Ema(prices, period, k) == Sum(prices[..period])
    ensures k >= period ==>
      (period as real + 1.0) * Ema(prices, period, k) == 2.0 * prices[k] + (period as real - 1.0) * Ema(prices, period, k - 1)
  {
    if k == period - 1 {
      MeanTimes(prices[..period]);
      hide Mean;
      assert |prices[..period]| == period;
    } else {
      MixTimes(2.0, period as real + 1.0, prices[k], Ema(prices, period, k - 1));
      hide Mix;
    }
  }

  ghost predicate EmaList(result: seq<Option<real>>, prices: seq<real>, period: nat)
    requires period >= 1
  {
    && |result| == |prices|
    && forall k :: 0 <= k < |prices| ==>
         result[k] == if |prices| < period || k < period - 1 then None else Some(Ema(prices, period, k))
  }

  method CalculateEma(prices: seq<real>, period: nat) returns (result: seq<Option<real>>)
    requires period >= 1
    ensures EmaList(result, prices, period)
  {
    hide Mix, Multiplier, Mean;
    if |prices| < period {
      return seq(|prices|, _ => None);
    }
    var multiplier := Multiplier(period);
    result := seq(period - 1, _ => None) + [Some(Mean(prices[..period]))];
    for i := period to |prices|
      invariant |result| == i
      invariant forall k :: 0 <= k < i ==> result[k] == if k < period - 1 then None else Some(Ema(prices, period, k))
    {
      result := result + [Some(Mix(multiplier, prices[i], result[i - 1].value))];
    }
  }

  /** The MACD line, where both averages exist. */
  method CalculateMacdLine(prices: seq<real>, fastPeriod: nat, slowPeriod: nat) returns (line: seq<Option<real>>)
    requires fastPeriod >= 1 && slowPeriod >= 1
    ensures |line| == |prices|
    ensures forall k :: 0 <= k < |prices| ==>
        if |prices| < slowPeriod || |prices| < fastPeriod || k < slowPeriod - 1 || k < fastPeriod - 1 then line[k] == None
        else line[k] == Some(Ema(prices, fastPeriod, k) - Ema(prices, slowPeriod, k))
  {
    hide Ema;
    if |prices| < slowPeriod {
      return seq(|prices|, _ => None);
    }
    var fast := CalculateEma(prices, fastPeriod);
    var slow := CalculateEma(prices, slowPeriod);
    line := [];
    for i := 0 to |prices|
      invariant |line| == i
      invariant forall k :: 0 <= k < i ==>
          line[k] == if fast[k].None? || slow[k].None? then None else Some(fast[k].value - slow[k].value)
    {
      line := line + [if fast[i].None? || slow[i].None? then None else Some(fast[i].value - slow[i].value)];
    }
  }

  /** The MACD line does not see a shift of all prices, and scales with them. */
  lemma MacdShiftInvariant(prices: seq<real>, fastPeriod: nat, slowPeriod: nat, k: nat, a: real, b: real)
    requires 1 <= fastPeriod <= k + 1 && 1 <= slowPeriod <= k + 1 && k < |prices|
    ensures Ema(Affine(prices, a, b), fastPeriod, k) - Ema(Affine(prices, a, b), slowPeriod, k) ==
            a * (Ema(prices, fastPeriod, k) - Ema(prices, slowPeriod, k))
  {
    EmaAffine(prices, fastPeriod, k, a, b);
    EmaAffine(prices, slowPeriod, k, a, b);
    hide Ema;
    Distribute(a, Ema(prices, fastPeriod, k), -Ema(prices, slowPeriod, k));
  }

  // ---- Relative strength ----

  function Gains(prices: seq<real>): seq<real> {
    seq(if prices == [] then 0 else |prices| - 1, i requires 0 <= i < |prices| - 1 =>
        if prices[i + 1] > prices[i] then prices[i + 1] - prices[i] else 0.0)
  }

  function Losses(prices: seq<real>): seq<real> {
    seq(if prices == [] then 0 else |prices| - 1, i requires 0 <= i < |prices| - 1 =>
        if prices[i + 1] > prices[i] then 0.0 else prices[i] - prices[i + 1])
  }

  /** The smoothed average of the first i changes. */
  function Smoothed(changes: seq<real>, period: nat, i: nat): real
    requires 1 <= period <= i <= |changes|
  {
    if i == period then Mean(changes[..period])
    else Mix(1.0 / period as real, changes[i - 1], Smoothed(changes, period, i - 1))
  }

  function Rsi(gain: real, loss: real): real
    requires loss == 0.0 || gain / loss != -1.0
  {
    if loss == 0.0 then 100.0 else 100.0 - 100.0 / (1.0 + gain / loss)
  }

  lemma StepIsMix(average: real, change: real, period: nat)
    requires period >= 1
    ensures (average * (period as real - 1.0) + change) / period as real == Mix(1.0 / period as real, change, average)
  {
    var p := period as real;
    var r := 1.0 / p;
    assert r * p == 1.0;
    Undivide(average * (p - 1.0) + change, p, r);
    assert (average * (p - 1.0) + change) * r == average * (p * r) - average * r + change * r;
  }

  lemma Undivide(x: real, p: real, r: real)
    requires p > 0.0 && r * p == 1.0
    ensures x / p == x * r
  {
    assert x * r * p == x * (r * p);
  }

  lemma {:induction false} SmoothedNonNegative(changes: seq<real>, period: nat, i: nat, high: real)
    requires 1 <= period <= i <= |changes| && Between(changes, 0.0, high)
    ensures 0.0 <= Smoothed(changes, period, i)
  {
    hide Mix;
    if i == period {
      assert forall x :: x in changes[..period] ==> x in changes;
      MeanBetween(changes[..period], 0.0, high);
    } else {
      SmoothedNonNegative(changes, period, i - 1, high);
      var m := 1.0 / period as real;
      Fraction(period);
      var y := Smoothed(changes, period, i - 1);
      assert changes[i - 1] in changes;
      var top := if y > high then y else high;
      MixBetween(m, changes[i - 1], y, 0.0, top);
    }
  }

  /** What a smoothed average weighs: over the first period every change alike, later a change once and the average before
      it period less one times, out of period. */
  lemma SmoothedWeights(changes: seq<real>, period: nat, i: nat)
    requires 1 <= period <= i <= |changes|
    ensures i == period ==> period as real * Smoothed(changes, period, i) == Sum(changes[..period])
    ensures i > period ==>
      period as real * Smoothed(changes, period, i) == changes[i - 1] + (period as real - 1.0) * Smoothed(changes, period, i - 1)
  {
    if i == period {
      MeanTimes(changes[..period]);
      hide Mean;
      assert |changes[..period]| == period;
    } else {
      MixTimes(1.0, period as real, changes[i - 1], Smoothed(changes, period, i - 1));
      hide Mix;
    }
  }

  /** Every change is a gain or a loss, neither negative. */
  lemma ChangesSplit(prices: seq<real>, i: nat)
    requires i + 1 < |prices|
    ensures |Gains(prices)| == |Losses(prices)| == |prices| - 1
    ensures var gain, loss := Gains(prices)[i], Losses(prices)[i];
      gain >= 0.0 && loss >= 0.0 && (gain == 0.0 || loss == 0.0) && gain - loss == prices[i + 1] - prices[i]
  {
  }

  lemma Fraction(period: nat)
    requires period >= 1
    ensures 0.0 <= 1.0 / period as real <= 1.0
  {
  }

  lemma {:induction false} BoundedAbove(s: seq<real>) returns (high: real)
    ensures forall x :: x in s ==> x <= high
  {
    if s == [] {
      high := 0.0;
    } else {
      var n := |s| - 1;
      high := BoundedAbove(s[..n]);
      assert s == s[..n] + [s[n]];
      if s[n] > high {
        high := s[n];
      }
    }
  }

  /** Both averages are non-negative, so the index is always defined. */
  lemma AveragesNonNegative(prices: seq<real>, period: nat, i: nat)
    requires 1 <= period <= i <= |prices| - 1
    ensures Smoothed(Gains(prices), period, i) >= 0.0 && Smoothed(Losses(prices), period, i) >= 0.0
  {
    var top := BoundedAbove(Gains(prices));
    var bottom := BoundedAbove(Losses(prices));
    SmoothedNonNegative(Gains(prices), period, i, top);
    SmoothedNonNegative(Losses(prices), period, i, bottom);
  }

  /** The index is the share of gains in all changes, as a percentage: between 0 and 100, and 100 if nothing changed. */
  lemma RsiIsShare(gain: real, loss: real)
    requires gain >= 0.0 && loss >= 0.0
    ensures loss == 0.0 || gain / loss >= 0.0
    ensures 0.0 <= Rsi(gain, loss) <= 100.0
    ensures gain + loss > 0.0 ==> Rsi(gain, loss) == 100.0 * gain / (gain + loss)
    ensures gain + loss == 0.0 ==> Rsi(gain, loss) == 100.0
  {
    if loss == 0.0 {
      if gain > 0.0 {
        assert 100.0 * gain / gain == 100.0;
      }
    } else {
      var total := gain + loss;
      var q := gain / loss;
      assert q * loss == gain && q >= 0.0;
      var r := 100.0 / (1.0 + q);
      assert r * (1.0 + q) == 100.0;
      Share(gain, loss, q, r);
    }
  }

  lemma Share(gain: real, loss: real, q: real, r: real)
    requires loss > 0.0 && gain >= 0.0 && q >= 0.0 && q * loss == gain && r * (1.0 + q) == 100.0
    ensures 0.0 <= r <= 100.0
    ensures 100.0 - r == 100.0 * gain / (gain + loss)
  {
    assert r >= 0.0;
    assert r * q >= 0.0;
    assert r * (1.0 + q) * loss == r * (gain + loss);
    var total := gain + loss;
    assert (100.0 - r) * total == 100.0 * total - r * total;
    Unique(100.0 * gain, total, 100.0 - r);
  }

  lemma Unique(n: real, d: real, q: real)
    requires d > 0.0 && q * d == n
    ensures n / d == q
  {
  }

  function RsiAt(prices: seq<real>, period: nat, j: nat): Option<real>
    requires period >= 1 && j < |prices|
  {
    if |prices| < period + 1 || j < period + 1 then None
    else
      AveragesNonNegative(prices, period, j - 1);
      var gain, loss := Smoothed(Gains(prices), period, j - 1), Smoothed(Losses(prices), period, j - 1);
      RsiIsShare(gain, loss);
      Some(Rsi(gain, loss))
  }

  /** The index is defined from the bar after the first full period of changes on, and lies between 0 and 100. */
  lemma RsiInRange(prices: seq<real>, period: nat, j: nat)
    requires period >= 1 && j < |prices|
    ensures RsiAt(prices, period, j).Some? <==> j >= period + 1
    ensures j >= period + 1 ==> 0.0 <= RsiAt(prices, period, j).value <= 100.0
  {
    if j >= period + 1 {
      AveragesNonNegative(prices, period, j - 1);
      RsiIsShare(Smoothed(Gains(prices), period, j - 1), Smoothed(Losses(prices), period, j - 1));
    }
  }

  lemma {:induction false} SmoothedPrefix(a: seq<real>, b: seq<real>, period: nat, i: nat)
    requires 1 <= period <= i <= |a| && i <= |b| && a[..i] == b[..i]
    ensures Smoothed(a, period, i) == Smoothed(b, period, i)
  {
    if i == period {
    } else {
      assert a[..i][..i - 1] == a[..i - 1] && b[..i][..i - 1] == b[..i - 1];
      assert a[i - 1] == a[..i][i - 1] && b[i - 1] == b[..i][i - 1];
      SmoothedPrefix(a, b, period, i - 1);
    }
  }

  /** The index lags one bar: its value at a bar does not depend on that bar's price, only on earlier ones. */
  lemma RsiLagsOneBar(p: seq<real>, q: seq<real>, period: nat, j: nat)
    requires period >= 1 && j < |p| == |q| && p[..j] == q[..j]
    ensures RsiAt(p, period, j) == RsiAt(q, period, j)
  {
    if j >= period + 1 {
      forall i | 0 <= i < j
        ensures p[i] == q[i]
      {
        assert p[i] == p[..j][i] && q[i] == q[..j][i];
      }
      assert Gains(p)[..j - 1] == Gains(q)[..j - 1];
      assert Losses(p)[..j - 1] == Losses(q)[..j - 1];
      SmoothedPrefix(Gains(p), Gains(q), period, j - 1);
      SmoothedPrefix(Losses(p), Losses(q), period, j - 1);
    }
  }

  method CalculateRsi(prices: seq<real>, period: nat) returns (result: seq<Option<real>>)
    requires period >= 1
    ensures |result| == |prices|
    ensures forall j :: 0 <= j < |prices| ==> result[j] == RsiAt(prices, period, j)
  {
    hide Mix, Mean, Rsi;
    if |prices| < period + 1 {
      return seq(|prices|, _ => None);
    }
    var gains, losses := Changes(prices);
    result := [None] + seq(period, _ => None);
    var avgGain, avgLoss := Mean(gains[..period]), Mean(losses[..period]);
    for i := period to |gains|
      invariant |result| == i + 1
      invariant avgGain == Smoothed(gains, period, i) && avgLoss == Smoothed(losses, period, i)
      invariant forall j :: 0 <= j <= i ==> result[j] == RsiAt(prices, period, j)
    {
      AveragesNonNegative(prices, period, i);
      RsiIsShare(avgGain, avgLoss);
      result := result + [Some(Rsi(avgGain, avgLoss))];
      StepIsMix(avgGain, gains[i], period);
      StepIsMix(avgLoss, losses[i], period);
      avgGain := (avgGain * (period as real - 1.0) + gains[i]) / period as real;
      avgLoss := (avgLoss * (period as real - 1.0) + losses[i]) / period as real;
    }
  }

  method Changes(prices: seq<real>) returns (gains: seq<real>, losses: seq<real>)
    ensures gains == Gains(prices) && losses == Losses(prices)
  {
    gains, losses := [], [];
    if prices == [] {
      return;
    }
    for i := 1 to |prices|
      invariant |gains| == |losses| == i - 1
      invariant gains == Gains(prices)[..i - 1] && losses == Losses(prices)[..i - 1]
    {
      var change := prices[i] - prices[i - 1];
      if change > 0.0 {
        gains, losses := gains + [change], losses + [0.0];
      } else {
        gains, losses := gains + [0.0], losses + [-change];
      }
      assert Gains(prices)[..i] == Gains(prices)[..i - 1] + [Gains(prices)[i - 1]];
      assert Losses(prices)[..i] == Losses(prices)[..i - 1] + [Losses(prices)[i - 1]];
    }
  }
}

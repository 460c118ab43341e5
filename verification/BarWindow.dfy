/** Alignment of a timestamp to the bar window that holds it. A timestamp counts microseconds of Korean local
    time from some midnight; the Korean zone has no daylight saving, so hours and days have a fixed length. */
module BarWindow {
  type Time = nat

  const MINUTE: nat := 60_000_000
  const HOUR: nat := 60 * MINUTE
  const DAY: nat := 24 * HOUR
  const DAY_MINUTES: nat := 1440

  /** The timestamp with its minute rounded down to a multiple of the interval within the hour, and with
      seconds and microseconds cleared. */
  function AlignInHour(t: Time, interval: nat): Time
    requires interval > 0
  {
    var minute := t / MINUTE % 60;
    var aligned: nat := minute / interval * interval;
    t / HOUR * HOUR + aligned * MINUTE
  }

  /** The aggregator's window start: midnight for daily bars, the aligned minute otherwise. */
  function WindowStart(t: Time, interval: nat): Time
    requires interval > 0
  {
    if interval >= DAY_MINUTES then t / DAY * DAY else AlignInHour(t, interval)
  }

  /** The intervals whose windows tile the time line. */
  predicate Tiles(interval: nat) {
    interval > 0 && (60 % interval == 0 || interval == DAY_MINUTES)
  }

  lemma SmallMultiple(d: int, k: int)
    requires -k < d * k < k
    ensures d == 0
  {
  }

  lemma QuotientIs(n: nat, q: nat, r: nat, k: nat)
    requires r < k && n == q * k + r
    ensures n / k == q && n % k == r
  {
    var p := n / k;
    assert (p - q) * k == p * k - q * k;
    assert n == p * k + n % k;
    SmallMultiple(p - q, k);
  }

  lemma Distribute(a: int, b: int, k: int)
    ensures (a + b) * k == a * k + b * k
    ensures a * (b * k) == a * b * k == (b * a) * k
  {
  }

  lemma MulLess(u: nat, b: nat, a: nat, r: nat)
    requires u < b && r < a
    ensures u * a + r < b * a
  {
    assert b * a == (b - 1 - u) * a + (u + 1) * a;
    assert (b - 1 - u) * a >= 0;
  }

  lemma DivTwice(t: nat, a: nat, b: nat)
    requires a > 0 && b > 0
    ensures b * a > 0 && t / (b * a) == t / a / b
  {
    var n := t / a;
    DivTwiceParts(t, a, b, n, t % a, n / b, n % b);
  }

  lemma DivTwiceParts(t: nat, a: nat, b: nat, n: nat, r: nat, q: nat, u: nat)
    requires r < a && u < b
    requires n == q * b + u && t == n * a + r
    ensures b * a > 0 && t / (b * a) == q
  {
    Distribute(q * b, u, a);
    Distribute(q, b, a);
    MulLess(u, b, a, r);
    QuotientIs(t, q, u * a + r, b * a);
  }

  function Floor(t: nat, length: nat): nat
    requires length > 0
  {
    t / length * length
  }

  lemma HourParts(n: nat, a: nat, b: nat, c: nat, r: nat, m: nat, k: nat)
    requires n == a * 60 + b && m * k == 60 && b == c * k + r
    ensures n == (a * m + c) * k + r && (a * m + c) * k == a * 60 + c * k
  {
    Distribute(a, m, k);
    Distribute(a * m, c, k);
  }

  lemma HourFloor(n: nat, k: nat)
    requires k > 0 && 60 % k == 0
    ensures n / 60 * 60 + n % 60 / k * k == n / k * k
  {
    var a, b, m := n / 60, n % 60, 60 / k;
    var c, r := b / k, b % k;
    assert m * k == 60;
    assert b == c * k + r;
    HourParts(n, a, b, c, r, m, k);
    var q := a * m + c;
    QuotientIs(n, q, r, k);
    assert n / k * k == q * k;
  }

  /** For a tiling interval, aligning the fields of the clock is rounding down on the whole time line. */
  lemma WindowIsFloor(t: Time, k: nat)
    requires Tiles(k)
    ensures k * MINUTE > 0 && WindowStart(t, k) == Floor(t, k * MINUTE)
  {
    if k != DAY_MINUTES {
      assert k <= 60;
      DivTwice(t, MINUTE, 60);
      DivTwice(t, MINUTE, k);
      HourFloor(t / MINUTE, k);
      var n := t / MINUTE;
      assert (n / 60 * 60 + n % 60 / k * k) * MINUTE == n / 60 * HOUR + n % 60 / k * k * MINUTE;
      assert n / k * k * MINUTE == n / k * (k * MINUTE);
    }
  }

  lemma NextTile(p: nat, q: nat, length: nat)
    requires p < q
    ensures p * length + length <= q * length
  {
    Distribute(p, 1, length);
    Distribute(p + 1, q - p - 1, length);
  }

  lemma FloorSame(s: nat, t: nat, length: nat)
    requires length > 0 && s <= t
    ensures Floor(s, length) <= Floor(t, length)
    ensures Floor(s, length) == Floor(t, length) <==> t < Floor(s, length) + length
  {
    FloorBounds(s, length);
    FloorBounds(t, length);
    var p, q := s / length, t / length;
    if p < q {
      NextTile(p, q, length);
    } else if q < p {
      NextTile(q, p, length);
    }
  }

  lemma FloorNest(t: nat, length: nat, c: nat)
    requires length > 0 && c > 0
    ensures c * length > 0 && Floor(Floor(t, length), c * length) == Floor(t, c * length)
  {
    var n := t / length;
    DivTwice(t, length, c);
    DivTwice(n * length, length, c);
    QuotientIs(n * length, n, 0, length);
  }

  /** The window holds the timestamp, windows follow the order of time, and a later timestamp shares the
      window of an earlier one exactly when it comes before the window's end. */
  lemma WindowHolds(s: Time, t: Time, k: nat)
    requires Tiles(k)
    ensures WindowStart(t, k) <= t < WindowStart(t, k) + k * MINUTE
    ensures s <= t ==> WindowStart(s, k) <= WindowStart(t, k)
    ensures s <= t ==> (WindowStart(s, k) == WindowStart(t, k) <==> t < WindowStart(s, k) + k * MINUTE)
  {
    var length := k * MINUTE;
    WindowIsFloor(s, k);
    WindowIsFloor(t, k);
    FloorBounds(t, length);
    if s <= t {
      FloorSame(s, t, length);
    }
  }

  lemma FloorBounds(t: nat, length: nat)
    requires length > 0
    ensures Floor(t, length) <= t < Floor(t, length) + length
  {
  }

  /** Fine windows nest in coarse ones. */
  lemma WindowsNest(t: Time, fine: nat, coarse: nat)
    requires Tiles(fine) && Tiles(coarse) && coarse % fine == 0
    ensures WindowStart(WindowStart(t, fine), coarse) == WindowStart(t, coarse)
  {
    var c, w := coarse / fine, WindowStart(t, fine);
    assert coarse == c * fine;
    Distribute(c, fine, MINUTE);
    var length := fine * MINUTE;
    assert coarse * MINUTE == c * length;
    WindowIsFloor(t, fine);
    WindowIsFloor(t, coarse);
    WindowIsFloor(w, coarse);
    FloorNest(t, length, c);
  }
}

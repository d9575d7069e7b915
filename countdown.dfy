/** The integer arithmetic of the life countdown: a millisecond difference split into days, hours, minutes and seconds. */
module Countdown {

  const MsPerSecond: int := 1000
  const MsPerMinute: int := 60 * MsPerSecond
  const MsPerHour: int := 60 * MsPerMinute
  const MsPerDay: int := 24 * MsPerHour

  const SecondsPerDay: int := 24 * 60 * 60
  const DaysPerYear: int := 365

  datatype RemainingTime = RemainingTime(days: int, hours: int, minutes: int, seconds: int)

  /**
   * JavaScript's `%` on integers: the remainder has the sign of the dividend and a magnitude
   * below the divisor, and the dividend minus it is a multiple of the divisor.
   */
  function JsRem(a: int, b: int): (r: int)
    requires b > 0
    ensures -b < r < b
    ensures a >= 0 ==> r >= 0
    ensures a <= 0 ==> r <= 0
    ensures (a - r) % b == 0
  {
    if a >= 0 then
      ModOfMultiplePlus(a - a % b, a / b, b, 0);
      a % b
    else
      ModOfMultiplePlus(-a - (-a) % b, (-a) / b, b, 0);
      ModOfMultiplePlus(a + (-a) % b, -((-a) / b), b, 0);
      -((-a) % b)
  }

  // `Math.floor(x / c)` for a positive integer constant `c` is Dafny's `x / c`, which rounds down.

  /** The split `updateCountdown` applies to the time left until the expected end of life. */
  function Decompose(diffMs: int): RemainingTime {
    RemainingTime(
      diffMs / MsPerDay,
      JsRem(diffMs, MsPerDay) / MsPerHour,
      JsRem(diffMs, MsPerHour) / MsPerMinute,
      JsRem(diffMs, MsPerMinute) / MsPerSecond)
  }

  /** The milliseconds a countdown reading stands for. */
  function ToMs(t: RemainingTime): int {
    t.days * MsPerDay + t.hours * MsPerHour + t.minutes * MsPerMinute + t.seconds * MsPerSecond
  }

  /** Every unit below days lies in its clock range. */
  predicate InRange(t: RemainingTime) {
    t.days >= 0 && 0 <= t.hours < 24 && 0 <= t.minutes < 60 && 0 <= t.seconds < 60
  }

  /** For a non-negative difference the split is exact up to the dropped milliseconds, and in range. */
  lemma DecomposeExact(diffMs: int)
    requires diffMs >= 0
    ensures InRange(Decompose(diffMs))
    ensures ToMs(Decompose(diffMs)) == diffMs - diffMs % MsPerSecond
  {
    var t := Decompose(diffMs);
    assert diffMs == t.days * MsPerDay + diffMs % MsPerDay;
    UnitStep(diffMs, 24, MsPerHour);
    UnitStep(diffMs, 60, MsPerMinute);
    UnitStep(diffMs, 60, MsPerSecond);
  }

  /**
   * One step of the split: for a unit of `n` milliseconds inside a unit `k` times larger, the
   * remainder by the larger unit is a count below `k` of the smaller unit plus the remainder
   * by the smaller one.
   */
  lemma UnitStep(a: int, k: int, n: int)
    requires a >= 0 && k > 0 && n > 0
    ensures var r := a % (k * n);
      && r == (r / n) * n + a % n
      && 0 <= r / n < k
  {
    var q, r := a / (k * n), a % (k * n);
    var h, r2 := r / n, r % n;
    assert a == q * (k * n) + r;
    assert r == h * n + r2;
    assert a == (q * k + h) * n + r2;
    ModOfMultiplePlus(a, q * k + h, n, r2);
    MulMonotone(k, h, n);
  }

  lemma MulMonotone(x: int, y: int, m: int)
    requires m >= 0
    ensures x <= y ==> x * m <= y * m
  {
    if x < y {
      MulAtLeast(y - x, m);
      assert y * m == x * m + (y - x) * m;
    }
  }

  /** Euclidean division is unique: a quotient and a remainder in range are the ones `/` and `%` give. */
  lemma ModOfMultiplePlus(a: int, q: int, m: int, r: int)
    requires m > 0 && 0 <= r < m && a == q * m + r
    ensures a % m == r && a / m == q
  {
    var q', r' := a / m, a % m;
    assert q' * m + r' == a;
    if q > q' {
      MulAtLeast(q - q', m);
    } else if q < q' {
      MulAtLeast(q' - q, m);
    }
  }

  lemma {:induction false} MulAtLeast(k: int, m: int)
    requires k >= 1 && m >= 0
    ensures k * m >= m
  {
    if k > 1 {
      MulAtLeast(k - 1, m);
      assert k * m == (k - 1) * m + m;
    }
  }

  /** Lexicographic order on readings: the order in which a countdown's values are compared. */
  predicate LexLe(a: RemainingTime, b: RemainingTime) {
    || a.days < b.days
    || (a.days == b.days && a.hours < b.hours)
    || (a.days == b.days && a.hours == b.hours && a.minutes < b.minutes)
    || (a.days == b.days && a.hours == b.hours && a.minutes == b.minutes && a.seconds <= b.seconds)
  }

  /** On in-range readings, lexicographic order is the order of the milliseconds they stand for. */
  lemma LexLeIsMsOrder(a: RemainingTime, b: RemainingTime)
    requires InRange(a) && InRange(b)
    ensures LexLe(a, b) <==> ToMs(a) <= ToMs(b)
  {
    var sa, sb := a.seconds * MsPerSecond, b.seconds * MsPerSecond;
    var ma, mb := a.minutes * MsPerMinute + sa, b.minutes * MsPerMinute + sb;
    var ha, hb := a.hours * MsPerHour + ma, b.hours * MsPerHour + mb;
    MulMonotone(a.seconds, 59, MsPerSecond);
    MulMonotone(b.seconds, 59, MsPerSecond);
    MulMonotone(a.minutes, 59, MsPerMinute);
    MulMonotone(b.minutes, 59, MsPerMinute);
    MulMonotone(a.hours, 23, MsPerHour);
    MulMonotone(b.hours, 23, MsPerHour);
    PlaceValue(a.seconds, 0, b.seconds, 0, MsPerSecond);
    PlaceValue(a.minutes, sa, b.minutes, sb, MsPerMinute);
    PlaceValue(a.hours, ma, b.hours, mb, MsPerHour);
    PlaceValue(a.days, ha, b.days, hb, MsPerDay);
  }

  /** A count of units plus a remainder below the unit compares lexicographically. */
  lemma PlaceValue(x1: int, r1: int, x2: int, r2: int, unit: int)
    requires 0 <= r1 < unit && 0 <= r2 < unit
    ensures x1 * unit + r1 <= x2 * unit + r2 <==> x1 < x2 || (x1 == x2 && r1 <= r2)
  {
    MulMonotone(x1 + 1, x2, unit);
    MulMonotone(x2 + 1, x1, unit);
    assert (x1 + 1) * unit == x1 * unit + unit;
    assert (x2 + 1) * unit == x2 * unit + unit;
  }

  /**
   * A smaller non-negative difference gives a lexicographically smaller or equal reading, so
   * while the difference shrinks the reading never goes up.
   */
  lemma DecomposeMonotone(d1: int, d2: int)
    requires 0 <= d1 <= d2
    ensures LexLe(Decompose(d1), Decompose(d2))
  {
    DecomposeExact(d1);
    DecomposeExact(d2);
    assert d1 - d1 % MsPerSecond <= d2 - d2 % MsPerSecond by {
      ModOfMultiplePlus(d1, d1 / MsPerSecond, MsPerSecond, d1 % MsPerSecond);
      ModOfMultiplePlus(d2, d2 / MsPerSecond, MsPerSecond, d2 % MsPerSecond);
      assert d1 / MsPerSecond <= d2 / MsPerSecond;
    }
    LexLeIsMsOrder(Decompose(d1), Decompose(d2));
  }

  // ---------------------------------------------------------------- where the difference comes from

  /**
   * The difference each tick of `updateCountdown` computes. The target is rebuilt on every tick
   * from today's month and day, so it is local midnight of today's date, `spanDays` days on
   * (the days in the remaining years). Local days are taken as whole `MsPerDay` blocks.
   * The result always lies in the last day of the span.
   */
  function DiffRecomputed(nowMs: int, spanDays: int): (d: int)
    ensures (spanDays - 1) * MsPerDay < d <= spanDays * MsPerDay
  {
    (nowMs / MsPerDay + spanDays) * MsPerDay - nowMs
  }

  /**
   * With the recomputed target the reading goes up at local midnight: one second before
   * midnight it shows `spanDays - 1` days and one second, at midnight `spanDays` whole days.
   */
  lemma MidnightJump(day: int, spanDays: int)
    requires spanDays >= 1
    ensures var earlier := Decompose(DiffRecomputed(day * MsPerDay - MsPerSecond, spanDays));
      var later := Decompose(DiffRecomputed(day * MsPerDay, spanDays));
      && earlier == RemainingTime(spanDays - 1, 0, 0, 1)
      && later == RemainingTime(spanDays, 0, 0, 0)
      && !LexLe(later, earlier)
  {
    var k := spanDays - 1;
    ModOfMultiplePlus(day * MsPerDay - MsPerSecond, day - 1, MsPerDay, MsPerDay - MsPerSecond);
    var d1 := DiffRecomputed(day * MsPerDay - MsPerSecond, spanDays);
    assert d1 == k * MsPerDay + MsPerSecond;
    ModOfMultiplePlus(d1, k, MsPerDay, MsPerSecond);
    ModOfMultiplePlus(d1, k * 24, MsPerHour, MsPerSecond);
    ModOfMultiplePlus(d1, k * 24 * 60, MsPerMinute, MsPerSecond);
    ModOfMultiplePlus(day * MsPerDay, day, MsPerDay, 0);
    var d2 := DiffRecomputed(day * MsPerDay, spanDays);
    assert d2 == spanDays * MsPerDay;
    ModOfMultiplePlus(d2, spanDays, MsPerDay, 0);
    ModOfMultiplePlus(d2, spanDays * 24, MsPerHour, 0);
    ModOfMultiplePlus(d2, spanDays * 24 * 60, MsPerMinute, 0);
  }

  /**
   * The countdown the page means to show: the target is fixed when the report is generated,
   * and every tick shows the time left until it.
   */
  function DiffFixed(nowMs: int, targetMs: int): int {
    targetMs - nowMs
  }

  /** Against a fixed target the reading never goes up as time passes, midnight included. */
  lemma FixedTargetNeverRises(targetMs: int, now1: int, now2: int)
    requires now1 <= now2 <= targetMs
    ensures LexLe(Decompose(DiffFixed(now2, targetMs)), Decompose(DiffFixed(now1, targetMs)))
  {
    DecomposeMonotone(DiffFixed(now2, targetMs), DiffFixed(now1, targetMs));
  }

  /**
   * `calculateRemainingTime`: whole years of 365 days, split the same way in seconds.
   * A whole number of years is always a whole number of days.
   */
  function RemainingFromAges(currentAge: int, expectedAge: int): (t: RemainingTime)
    ensures t == RemainingTime((expectedAge - currentAge) * DaysPerYear, 0, 0, 0)
  {
    var totalSeconds := (expectedAge - currentAge) * DaysPerYear * SecondsPerDay;
    WholeDays(expectedAge - currentAge);
    RemainingTime(
      totalSeconds / SecondsPerDay,
      JsRem(totalSeconds, SecondsPerDay) / (60 * 60),
      JsRem(totalSeconds, 60 * 60) / 60,
      JsRem(totalSeconds, 60))
  }

  lemma WholeDays(years: int)
    ensures var s := years * DaysPerYear * SecondsPerDay;
      && s / SecondsPerDay == years * DaysPerYear
      && JsRem(s, SecondsPerDay) == 0 && JsRem(s, 60 * 60) == 0 && JsRem(s, 60) == 0
  {
    var s := years * DaysPerYear * SecondsPerDay;
    ModOfMultiplePlus(s, years * DaysPerYear, SecondsPerDay, 0);
    ModOfMultiplePlus(s, years * DaysPerYear * 24, 60 * 60, 0);
    ModOfMultiplePlus(s, years * DaysPerYear * 24 * 60, 60, 0);
    ModOfMultiplePlus(-s, -years * DaysPerYear, SecondsPerDay, 0);
    ModOfMultiplePlus(-s, -years * DaysPerYear * 24, 60 * 60, 0);
    ModOfMultiplePlus(-s, -years * DaysPerYear * 24 * 60, 60, 0);
  }
}

/**
 * Wall-clock arithmetic used for coupon expiry. A `Time` is a number of
 * milliseconds; days are uniform 86 400 000 ms blocks (no time zones, no
 * daylight saving), so "the calendar day of t" is floor(t / DayMs).
 */
module Clock {

  type Time = int

  const DayMs: int := 86_400_000

  /** The day number of an instant (Dafny's `/` floors for a positive divisor). */
  function Day(t: Time): int {
    t / DayMs
  }

  /** `setHours(23, 59, 59, 999)`: the last millisecond of day `d`. */
  function EndOfDay(d: int): (t: Time)
    ensures Day(t) == d && Day(t + 1) == d + 1
  {
    DayLemma(d, DayMs - 1);
    DayLemma(d + 1, 0);
    (d + 1) * DayMs - 1
  }

  /** An instant `d * DayMs + ms` with `0 <= ms < DayMs` lies on day `d`. */
  lemma DayLemma(d: int, ms: int)
    requires 0 <= ms < DayMs
    ensures Day(d * DayMs + ms) == d
  {
  }

  /**
   * `d = new Date(); d.setDate(d.getDate() + n); d.setHours(23, 59, 59, 999)`:
   * the end of the day that is `n` days after today.
   */
  function ExpiryAfterDays(now: Time, n: int): (t: Time)
    ensures Day(t) == Day(now) + n && Day(t + 1) == Day(now) + n + 1
  {
    EndOfDay(Day(now) + n)
  }

  /** `setDate(getDate() + n)` with the time of day kept. */
  function PlusDays(now: Time, n: int): (t: Time)
    ensures Day(t) == Day(now) + n
    ensures t - now == n * DayMs
  {
    var ms := now % DayMs;
    assert now == Day(now) * DayMs + ms;
    DayLemma(Day(now) + n, ms);
    assert now + n * DayMs == (Day(now) + n) * DayMs + ms;
    now + n * DayMs
  }

  /** `sevenDaysAgo.setDate(sevenDaysAgo.getDate() - 7)`. */
  function SevenDaysAgo(now: Time): (t: Time)
    ensures Day(t) == Day(now) - 7 && t < now
  {
    PlusDays(now, -7)
  }

  /**
   * An end-of-day expiry `n` days out lies strictly within the `n + 1`
   * days that follow `now` and never before `now + n` days: the last
   * calendar day is granted in full.
   */
  lemma ExpiryWindow(now: Time, n: int)
    ensures PlusDays(now, n) <= ExpiryAfterDays(now, n) < PlusDays(now, n + 1)
  {
    var e := ExpiryAfterDays(now, n);
    var p := PlusDays(now, n);
    var q := PlusDays(now, n + 1);
    var ms := now % DayMs;
    assert now == Day(now) * DayMs + ms && 0 <= ms < DayMs;
    assert e == (Day(now) + n + 1) * DayMs - 1;
    assert p == (Day(now) + n) * DayMs + ms;
    assert q == (Day(now) + n + 1) * DayMs + ms;
  }

  /** A non-negative number of days never yields an expiry in the past. */
  lemma ExpiryAfterNow(now: Time, n: int)
    requires n >= 0
    ensures now <= ExpiryAfterDays(now, n)
  {
    ExpiryWindow(now, n);
  }
}

/**
 * Time as the model sees it. An instant is an integer number of milliseconds;
 * the calendar fields that JavaScript's `Date` getters report for an instant
 * (in local time or in UTC) are given as a separate record, because the model
 * does not compute time zones or the Gregorian calendar.
 */
module Clock {
  const SECOND_MS: int := 1000
  const MINUTE_MS: int := 60 * SECOND_MS
  const HOUR_MS: int := 60 * MINUTE_MS
  const DAY_MS: int := 24 * HOUR_MS

  /** What `getFullYear`, `getMonth` (zero-based), `getDate`, `getHours` and `getMinutes` return. */
  datatype DateFields = DateFields(year: int, month: int, date: int, hours: int, minutes: int)

  predicate ValidFields(f: DateFields) {
    0 <= f.month < 12 && 1 <= f.date <= 31 && 0 <= f.hours < 24 && 0 <= f.minutes < 60
  }

  /**
   * The server's view of the current moment: `now`, and the instant at which
   * the current local day began (what `setHours(0, 0, 0, 0)` on a copy of `now` yields).
   */
  datatype Today = Today(now: int, startOfToday: int)

  predicate ValidToday(t: Today) {
    t.startOfToday <= t.now < t.startOfToday + DAY_MS
  }

  /** The start of the next local day. */
  function StartOfTomorrow(t: Today): int {
    t.startOfToday + DAY_MS
  }
}

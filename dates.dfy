/** Calendar arithmetic the app borrows from date-fns, on a model of time
    without time zones or daylight saving: a point in time is a local day
    number (days since 1970-01-01) plus the milliseconds elapsed since that
    day's midnight. */
module Dates {

  const MsPerDay: int := 86_400_000

  type MsOfDay = m: int | 0 <= m < 86_400_000

  /** A JavaScript `Date`, as the local calendar day and the time within it. */
  datatype Instant = Instant(day: int, ms: MsOfDay)

  /** A calendar month of the proleptic Gregorian calendar. */
  datatype Month = Month(year: int, month: int)

  function Max(a: int, b: int): int { if a < b then b else a }

  /** date-fns `startOfDay`: midnight of the same day. */
  function StartOfDay(t: Instant): Instant { Instant(t.day, 0) }

  /** date-fns `isSameDay`. */
  predicate IsSameDay(a: Instant, b: Instant) { a.day == b.day }

  /** Milliseconds since the epoch, as `Date.getTime()` gives them. */
  function EpochMs(t: Instant): int { t.day * MsPerDay + t.ms }

  /** JavaScript's `Math.trunc(a / b)` for a positive divisor. */
  function TruncDiv(a: int, b: int): int
    requires b > 0
  {
    if a >= 0 then a / b else -((-a) / b)
  }

  /** date-fns `differenceInDays(later, earlier)`: the number of whole days
      between the two instants, rounded toward zero. */
  function DifferenceInDays(later: Instant, earlier: Instant): int
  {
    TruncDiv(EpochMs(later) - EpochMs(earlier), MsPerDay)
  }

  /** Counting from the midnight that starts `start`, the whole days elapsed
      at any moment of `today` are the difference of the day numbers; when
      `start` lies in the future the count is not positive. */
  lemma DaysSinceMidnight(today: Instant, start: Instant)
    ensures today.day >= start.day ==>
      DifferenceInDays(today, StartOfDay(start)) == today.day - start.day
    ensures today.day < start.day ==>
      DifferenceInDays(today, StartOfDay(start)) <= 0
  {
  }

  /** The (year, month) that a day number falls in: the days-to-civil
      conversion of the proleptic Gregorian calendar, with 0 = 1970-01-01. */
  function MonthOf(day: int): (m: Month)
  {
    var z := day + 719468;
    var era := z / 146097;
    var doe := z - era * 146097;
    var yoe := (doe - doe / 1460 + doe / 36524 - doe / 146096) / 365;
    var doy := doe - (365 * yoe + yoe / 4 - yoe / 100);
    var mp := (5 * doy + 2) / 153;
    var month := if mp < 10 then mp + 3 else mp - 9;
    Month(yoe + era * 400 + (if month <= 2 then 1 else 0), month)
  }

  /** date-fns `isSameMonth`: same month of the same year. */
  predicate IsSameMonth(a: Instant, b: Instant) { MonthOf(a.day) == MonthOf(b.day) }

  /** Anchors of the conversion: 1 and 15 March 2024 (days 19783 and
      19797) lie in March 2024, 1 April 2024 (day 19814) in April. */
  lemma FirstOfMarch2024()
    ensures MonthOf(19783) == Month(2024, 3)
  {
  }

  lemma MidMarch2024()
    ensures MonthOf(19797) == Month(2024, 3)
  {
  }

  lemma FirstOfApril2024()
    ensures MonthOf(19814) == Month(2024, 4)
  {
  }
}

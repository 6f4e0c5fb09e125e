/**
 * Dates of the proleptic Gregorian calendar of ISO 8601, as `java.time.LocalDate.of`
 * accepts them: the birth-date check of the passenger controller.
 */
module Calendar {
  import opened Optional

  /** The range of `ChronoField.YEAR`. */
  const MIN_YEAR := -999_999_999
  const MAX_YEAR := 999_999_999

  datatype Date = Date(year: int, month: int, day: int)

  /**
   * The JDK's `IsoChronology.isLeapYear`: divisible by 4, and not by 100 unless by 400. It tests
   * `(year & 3) == 0` and truncating `%`; for every sign of `year` each of those is zero exactly
   * when the Euclidean remainder used here is zero.
   */
  predicate IsLeapYear(year: int) {
    year % 4 == 0 && (year % 100 != 0 || year % 400 == 0)
  }

  /** The number of days of a month: the reference definition. */
  function MonthLength(year: int, month: int): (n: int)
    requires 1 <= month <= 12
    ensures 28 <= n <= 31
    ensures n == 29 <==> (month == 2 && IsLeapYear(year))
  {
    if month == 2 then (if IsLeapYear(year) then 29 else 28)
    else if month == 4 || month == 6 || month == 9 || month == 11 then 30
    else 31
  }

  /** A calendar-valid date: year in range, month 1..12, day 1..length of that month. */
  predicate IsValidDate(year: int, month: int, day: int) {
    && MIN_YEAR <= year <= MAX_YEAR
    && 1 <= month <= 12
    && 1 <= day <= MonthLength(year, month)
  }

  /**
   * `LocalDate.of(year, month, dayOfMonth)`, staged as the platform does: the three field
   * ranges, then, only for a day past the 28th, the length of that month.
   * `None` is the `DateTimeException`.
   */
  function LocalDateOf(year: int, month: int, dayOfMonth: int): (r: Option<Date>)
    ensures r.Some? <==> IsValidDate(year, month, dayOfMonth)
    ensures r.Some? ==> r.value == Date(year, month, dayOfMonth)
  {
    if year < MIN_YEAR || year > MAX_YEAR then None
    else if month < 1 || month > 12 then None
    else if dayOfMonth < 1 || dayOfMonth > 31 then None
    else if dayOfMonth > 28 &&
            dayOfMonth > (match month
                          case 2 => if IsLeapYear(year) then 29 else 28
                          case 4 | 6 | 9 | 11 => 30
                          case _ => 31)
    then None
    else Some(Date(year, month, dayOfMonth))
  }

  /** February 29th exists exactly in leap years. */
  lemma LeapDay(year: int)
    requires MIN_YEAR <= year <= MAX_YEAR
    ensures LocalDateOf(year, 2, 29).Some? <==> IsLeapYear(year)
  {
  }
}

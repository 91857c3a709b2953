/**
 * The proleptic Gregorian calendar as Python's `datetime.date` and pandas'
 * `Timestamp.dayofyear` use it: dates from 0001-01-01 on, leap years, days
 * per month, day of year, the ordinal day number (`date.toordinal`), its
 * inverse (`date.fromordinal`) and subtracting a number of days.
 */
module Calendar {
  import opened Wrappers

  datatype Date = Date(year: int, month: int, day: int)

  predicate IsLeapYear(y: int) {
    y % 4 == 0 && (y % 100 != 0 || y % 400 == 0)
  }

  function YearLength(y: int): int {
    if IsLeapYear(y) then 366 else 365
  }

  function DaysInMonth(y: int, m: int): int
    requires 1 <= m <= 12
  {
    if m == 2 then (if IsLeapYear(y) then 29 else 28)
    else if m == 4 || m == 6 || m == 9 || m == 11 then 30
    else 31
  }

  /**
   * A proleptic Gregorian date from 0001-01-01 on (Python raises
   * OverflowError below year 1); Python's upper limit, year 9999, is not
   * imposed.
   */
  predicate Valid(d: Date) {
    1 <= d.year && 1 <= d.month <= 12 && 1 <= d.day <= DaysInMonth(d.year, d.month)
  }

  /** Days in the months of a common year that precede month m + 1. */
  const CommonDaysBefore: seq<int> := [0, 31, 59, 90, 120, 151, 181, 212, 243, 273, 304, 334]

  function DaysBeforeMonth(y: int, m: int): int
    requires 1 <= m <= 12
  {
    CommonDaysBefore[m - 1] + (if m > 2 && IsLeapYear(y) then 1 else 0)
  }

  /** The day of the year, 1 for January 1st (`Timestamp.dayofyear`). */
  function DayOfYear(d: Date): (n: int)
    requires Valid(d)
    ensures 1 <= n <= YearLength(d.year)
  {
    DaysBeforeMonth(d.year, d.month) + d.day
  }

  /** Days in the years 1 .. y - 1, counted as Python's `_days_before_year` does. */
  function DaysBeforeYear(y: int): int
    requires y >= 1
  {
    var p := y - 1;
    p * 365 + p / 4 - p / 100 + p / 400
  }

  /** Going from year y - 1 to year y adds one to the quotient by k exactly when k divides y. */
  lemma QuotientStep4(y: int)
    requires y >= 1
    ensures y / 4 == (y - 1) / 4 + (if y % 4 == 0 then 1 else 0)
  {
  }

  lemma QuotientStep100(y: int)
    requires y >= 1
    ensures y / 100 == (y - 1) / 100 + (if y % 100 == 0 then 1 else 0)
  {
  }

  lemma QuotientStep400(y: int)
    requires y >= 1
    ensures y / 400 == (y - 1) / 400 + (if y % 400 == 0 then 1 else 0)
  {
  }

  /** Every multiple of 400 is a multiple of 100. */
  lemma MultipleOf400(y: int)
    requires y % 400 == 0
    ensures y % 100 == 0
  {
    var k := 4 * (y / 400);
    assert y == 100 * k;
  }

  /** Every multiple of 100 is a multiple of 4. */
  lemma MultipleOf100(y: int)
    requires y % 100 == 0
    ensures y % 4 == 0
  {
    var k := 25 * (y / 100);
    assert y == 4 * k;
  }

  /** The days before the next year are those before this year and this year's. */
  lemma DaysBeforeYearStep(y: int)
    requires y >= 1
    ensures DaysBeforeYear(y + 1) == DaysBeforeYear(y) + YearLength(y)
  {
    QuotientStep4(y);
    QuotientStep100(y);
    QuotientStep400(y);
    if y % 400 == 0 {
      MultipleOf400(y);
    }
    if y % 100 == 0 {
      MultipleOf100(y);
    }
    assert DaysBeforeYear(y + 1) == y * 365 + y / 4 - y / 100 + y / 400;
    assert DaysBeforeYear(y) == (y - 1) * 365 + (y - 1) / 4 - (y - 1) / 100 + (y - 1) / 400;
  }

  /** The ordinal day number: 1 for 0001-01-01 (`date.toordinal`). */
  function Ordinal(d: Date): int
    requires Valid(d)
  {
    DaysBeforeYear(d.year) + DayOfYear(d)
  }

  /** The next day within the same month. */
  lemma NextDayWithinMonth(d: Date)
    requires Valid(d) && d.day < DaysInMonth(d.year, d.month)
    ensures Valid(Date(d.year, d.month, d.day + 1))
    ensures DayOfYear(Date(d.year, d.month, d.day + 1)) == DayOfYear(d) + 1
    ensures Ordinal(Date(d.year, d.month, d.day + 1)) == Ordinal(d) + 1
  {
  }

  /** The first day of the next month, within the same year. */
  lemma NextDayNextMonth(d: Date)
    requires Valid(d) && d.day == DaysInMonth(d.year, d.month) && d.month < 12
    ensures Valid(Date(d.year, d.month + 1, 1))
    ensures DayOfYear(Date(d.year, d.month + 1, 1)) == DayOfYear(d) + 1
    ensures Ordinal(Date(d.year, d.month + 1, 1)) == Ordinal(d) + 1
  {
    assert DaysBeforeMonth(d.year, d.month + 1) == DaysBeforeMonth(d.year, d.month) + DaysInMonth(d.year, d.month);
  }

  /** December 31st is the last day of the year, and January 1st follows it. */
  lemma LastDayOfYear(y: int)
    requires y >= 1
    ensures Valid(Date(y + 1, 1, 1))
    ensures DayOfYear(Date(y + 1, 1, 1)) == 1
    ensures Ordinal(Date(y + 1, 1, 1)) == Ordinal(Date(y, 12, 31)) + 1
  {
    DaysBeforeYearStep(y);
    assert DayOfYear(Date(y, 12, 31)) == YearLength(y);
  }

  /** The following calendar day: valid, one ordinal later, and day 1 of a year after December 31st. */
  function NextDay(d: Date): (n: Date)
    requires Valid(d)
    ensures Valid(n)
    ensures Ordinal(n) == Ordinal(d) + 1
    ensures DayOfYear(n) == if d.month == 12 && d.day == 31 then 1 else DayOfYear(d) + 1
  {
    if d.day < DaysInMonth(d.year, d.month) then
      NextDayWithinMonth(d);
      Date(d.year, d.month, d.day + 1)
    else if d.month < 12 then
      NextDayNextMonth(d);
      Date(d.year, d.month + 1, 1)
    else
      LastDayOfYear(d.year);
      Date(d.year + 1, 1, 1)
  }

  /** The date with ordinal n (`date.fromordinal`), reached from 0001-01-01 one day at a time. */
  function FromOrdinal(n: int): (d: Date)
    requires n >= 1
    ensures Valid(d)
  {
    if n == 1 then Date(1, 1, 1)
    else
      NextDay(FromOrdinal(n - 1))
  }

  /** The date with ordinal n has ordinal n. */
  lemma {:induction false} FromOrdinalOrdinal(n: int)
    requires n >= 1
    ensures Ordinal(FromOrdinal(n)) == n
  {
    if n > 1 {
      FromOrdinalOrdinal(n - 1);
    }
  }

  lemma {:induction false} DaysBeforeYearMonotonic(a: int, b: int)
    requires 1 <= a <= b
    ensures DaysBeforeYear(a) + (if a < b then YearLength(a) else 0) <= DaysBeforeYear(b)
    decreases b - a
  {
    if a < b {
      DaysBeforeYearMonotonic(a + 1, b);
      DaysBeforeYearStep(a);
    }
  }

  /** Two valid dates with the same ordinal are the same date. */
  lemma OrdinalInjective(a: Date, b: Date)
    requires Valid(a) && Valid(b) && Ordinal(a) == Ordinal(b)
    ensures a == b
  {
    if a.year < b.year {
      DaysBeforeYearMonotonic(a.year, b.year);
      assert false;
    } else if b.year < a.year {
      DaysBeforeYearMonotonic(b.year, a.year);
      assert false;
    }
  }

  /** `date.fromordinal(d.toordinal()) == d`. */
  lemma FromOrdinalRoundTrip(d: Date)
    requires Valid(d)
    ensures Ordinal(d) >= 1 && FromOrdinal(Ordinal(d)) == d
  {
    assert DaysBeforeYear(d.year) >= 0 by { DaysBeforeYearMonotonic(1, d.year); }
    FromOrdinalOrdinal(Ordinal(d));
    OrdinalInjective(FromOrdinal(Ordinal(d)), d);
  }

  /** `d - timedelta(days=n)`: None where Python raises OverflowError (before 0001-01-01). */
  function SubtractDays(d: Date, n: nat): (r: Option<Date>)
    requires Valid(d)
    ensures r.Some? <==> Ordinal(d) - n >= 1
    ensures r.Some? ==> Valid(r.value) && Ordinal(r.value) == Ordinal(d) - n
  {
    if Ordinal(d) - n < 1 then None
    else
      FromOrdinalOrdinal(Ordinal(d) - n);
      Some(FromOrdinal(Ordinal(d) - n))
  }

  /** Subtracting zero days gives back the same date. */
  lemma SubtractZeroDays(d: Date)
    requires Valid(d)
    ensures SubtractDays(d, 0) == Some(d)
  {
    FromOrdinalRoundTrip(d);
  }

  /** Subtracting one day steps back exactly one calendar day. */
  lemma SubtractOneDayIsPrevious(d: Date)
    requires Valid(d) && Ordinal(d) >= 2
    ensures SubtractDays(d, 1).Some? && NextDay(SubtractDays(d, 1).value) == d
  {
    var p := SubtractDays(d, 1).value;
    OrdinalInjective(NextDay(p), d);
  }
}

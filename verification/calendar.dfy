/** Proleptic Gregorian dates: month lengths, `relativedelta(months=k)` arithmetic,
    end-of-month snapping and chronological order. */
module Calendar {

  /** A calendar day (Python `datetime` at midnight). */
  datatype Date = Date(year: int, month: int, day: int)

  predicate IsLeapYear(year: int) {
    year % 4 == 0 && (year % 100 != 0 || year % 400 == 0)
  }

  /** The number of days in a month (`calendar.monthrange(year, month)[1]`). */
  function DaysInMonth(year: int, month: int): (n: int)
    requires 1 <= month <= 12
    ensures 28 <= n <= 31
    ensures n == 29 <==> month == 2 && IsLeapYear(year)
    ensures n == 30 <==> month in {4, 6, 9, 11}
    ensures n == 28 <==> month == 2 && !IsLeapYear(year)
  {
    if month == 2 then (if IsLeapYear(year) then 29 else 28)
    else if month in {4, 6, 9, 11} then 30
    else 31
  }

  /** True iff the triple names a day of the Gregorian calendar. */
  predicate IsCalendarDate(d: Date) {
    1 <= d.month <= 12 && 1 <= d.day <= DaysInMonth(d.year, d.month)
  }

  /** Months elapsed since January of year 0; consecutive months differ by one. */
  function MonthIndex(d: Date): int {
    d.year * 12 + d.month - 1
  }

  predicate IsLastDayOfMonth(d: Date)
    requires 1 <= d.month <= 12
  {
    d.day == DaysInMonth(d.year, d.month)
  }

  /** Chronological order of dates (strict). */
  predicate Before(a: Date, b: Date) {
    a.year < b.year
    || (a.year == b.year && (a.month < b.month || (a.month == b.month && a.day < b.day)))
  }

  predicate NotAfter(a: Date, b: Date) {
    a == b || Before(a, b)
  }

  /** `Before` is a strict total order. */
  lemma BeforeIsStrictTotalOrder(a: Date, b: Date, c: Date)
    ensures !Before(a, a)
    ensures Before(a, b) && Before(b, c) ==> Before(a, c)
    ensures a != b ==> Before(a, b) || Before(b, a)
    ensures Before(a, b) ==> !Before(b, a)
  {
  }

  /** Between calendar dates, an earlier month means an earlier date. */
  lemma MonthIndexOrder(a: Date, b: Date)
    requires 1 <= a.month <= 12 && 1 <= b.month <= 12
    ensures MonthIndex(a) < MonthIndex(b) ==> Before(a, b)
    ensures Before(a, b) ==> MonthIndex(a) <= MonthIndex(b)
    ensures MonthIndex(a) == MonthIndex(b) <==> a.year == b.year && a.month == b.month
  {
    if a.year < b.year {
      assert MonthIndex(a) <= a.year * 12 + 11 < b.year * 12 <= MonthIndex(b);
    } else if a.year > b.year {
      assert MonthIndex(b) <= b.year * 12 + 11 < a.year * 12 <= MonthIndex(a);
    }
  }

  /** Snaps a date to the last day of its month. */
  function EndOfMonth(d: Date): (r: Date)
    requires 1 <= d.month <= 12
    ensures IsCalendarDate(r) && IsLastDayOfMonth(r)
    ensures MonthIndex(r) == MonthIndex(d)
    ensures IsCalendarDate(d) ==> NotAfter(d, r)
    ensures IsCalendarDate(d) ==> (r == d <==> IsLastDayOfMonth(d))
  {
    Date(d.year, d.month, DaysInMonth(d.year, d.month))
  }

  /** `date + relativedelta(months=k)`: move `k` months (either direction) and clamp
      the day to the length of the month reached. */
  function AddMonths(d: Date, k: int): (r: Date)
    requires IsCalendarDate(d)
    ensures IsCalendarDate(r)
    ensures MonthIndex(r) == MonthIndex(d) + k
    ensures r.day <= d.day
    ensures r.day == d.day || r.day == DaysInMonth(r.year, r.month)
  {
    var t := MonthIndex(d) + k;
    var year := t / 12;
    var month := t % 12 + 1;
    var last := DaysInMonth(year, month);
    Date(year, month, if d.day <= last then d.day else last)
  }

  /** Moving forward by at least one month yields a strictly later date. */
  lemma AddMonthsForward(d: Date, k: int)
    requires IsCalendarDate(d) && k >= 1
    ensures Before(d, AddMonths(d, k))
  {
    MonthIndexOrder(d, AddMonths(d, k));
  }
}

/** Local calendar dates as JavaScript's `Date` treats them: a year, a 0-based
    month index and a 1-based day, with the proleptic Gregorian leap-year rule.
    `MakeDate` is `new Date(year, month, day)`: the month index is normalised
    into the year, and a day past the end of its month rolls forward into the
    next month instead of being clamped. */
module Dates {

  datatype Date = Date(year: int, month: int, day: int)

  predicate IsLeapYear(year: int) {
    (year % 4 == 0 && year % 100 != 0) || year % 400 == 0
  }

  function DaysInMonth(year: int, month: int): (n: int)
    requires 0 <= month < 12
    ensures 28 <= n <= 31
    ensures n == 28 <==> month == 1 && !IsLeapYear(year)
  {
    if month == 1 then (if IsLeapYear(year) then 29 else 28)
    else if month == 3 || month == 5 || month == 8 || month == 10 then 30
    else 31
  }

  predicate Valid(d: Date) {
    0 <= d.month < 12 && 1 <= d.day <= DaysInMonth(d.year, d.month)
  }

  /** A date that exists on the calendar. */
  type CalendarDate = d: Date | Valid(d) witness Date(1970, 0, 1)

  /** Months elapsed since January of year 0. */
  function MonthIndex(d: Date): int {
    12 * d.year + d.month
  }

  /** Length of the month with the given month index. */
  function DaysInMonthAt(mi: int): (n: int)
    ensures 28 <= n <= 31
  {
    DaysInMonth(mi / 12, mi % 12)
  }

  lemma MonthIndexParts(d: CalendarDate)
    ensures MonthIndex(d) / 12 == d.year && MonthIndex(d) % 12 == d.month
    ensures DaysInMonthAt(MonthIndex(d)) == DaysInMonth(d.year, d.month)
  {
  }

  /** Days from the first day of the month with index `mi` to `d`. */
  function DaysFromMonthStart(mi: int, d: Date): int
    requires MonthIndex(d) >= mi
    decreases MonthIndex(d) - mi
  {
    if MonthIndex(d) == mi then d.day - 1
    else DaysInMonthAt(mi) + DaysFromMonthStart(mi + 1, d)
  }

  lemma {:induction false} DaysFromMonthStartBounds(mi: int, d: CalendarDate)
    requires MonthIndex(d) >= mi
    ensures DaysFromMonthStart(mi, d) >= 0
    ensures MonthIndex(d) > mi ==> DaysFromMonthStart(mi, d) >= DaysInMonthAt(mi)
    decreases MonthIndex(d) - mi
  {
    if MonthIndex(d) == mi {
      assert DaysFromMonthStart(mi, d) == d.day - 1;
    } else {
      DaysFromMonthStartBounds(mi + 1, d);
      var rest := DaysFromMonthStart(mi + 1, d);
      assert DaysFromMonthStart(mi, d) == DaysInMonthAt(mi) + rest;
    }
  }

  /** Counting days from a month start pins a date down: two calendar dates
      the same number of days after the first of month `mi` are equal. */
  lemma {:induction false} DaysFromMonthStartInjective(mi: int, a: CalendarDate, b: CalendarDate)
    requires MonthIndex(a) >= mi && MonthIndex(b) >= mi
    requires DaysFromMonthStart(mi, a) == DaysFromMonthStart(mi, b)
    ensures a == b
    decreases MonthIndex(a) - mi
  {
    MonthIndexParts(a);
    MonthIndexParts(b);
    DaysFromMonthStartBounds(mi, a);
    DaysFromMonthStartBounds(mi, b);
    if MonthIndex(a) > mi && MonthIndex(b) > mi {
      DaysFromMonthStartInjective(mi + 1, a, b);
    }
  }

  /** `new Date(year, month, day)` for a day of month in 1..31: the calendar
      date lying `day - 1` days after the first day of month `month` of `year`
      (month indexes outside 0..11 carry into the year). */
  function MakeDate(year: int, month: int, day: int): (r: CalendarDate)
    requires 1 <= day <= 31
    ensures MonthIndex(r) >= 12 * year + month
    ensures DaysFromMonthStart(12 * year + month, r) == day - 1
    ensures day <= 28 ==> MonthIndex(r) == 12 * year + month && r.day == day
  {
    var mi := 12 * year + month;
    var dim := DaysInMonthAt(mi);
    if day <= dim then Date(mi / 12, mi % 12, day)
    else Date((mi + 1) / 12, (mi + 1) % 12, day - dim)
  }

  /** `d.setMonth(d.getMonth() + k)`: the same day of month `k` months later,
      rolling forward into the following month when that month is too short. */
  function AddMonths(d: CalendarDate, k: int): (r: CalendarDate)
    ensures MonthIndex(r) == MonthIndex(d) + k <==> d.day <= DaysInMonthAt(MonthIndex(d) + k)
    ensures MonthIndex(r) == MonthIndex(d) + k ==> r.day == d.day
    ensures MonthIndex(r) != MonthIndex(d) + k ==>
              MonthIndex(r) == MonthIndex(d) + k + 1 && r.day == d.day - DaysInMonthAt(MonthIndex(d) + k)
  {
    MakeDate(d.year, d.month + k, d.day)
  }

  /** A day of month every month has never rolls over. */
  lemma AddMonthsKeepsEarlyDays(d: CalendarDate, k: int)
    requires d.day <= 28
    ensures MonthIndex(AddMonths(d, k)) == MonthIndex(d) + k
    ensures AddMonths(d, k).day == d.day
  {
  }

  /** Month arithmetic is not clamped: 31 January plus one month is 3 March in
      a common year and 2 March in a leap year. */
  lemma AddMonthsRollsForward()
    ensures AddMonths(Date(2026, 0, 31), 1) == Date(2026, 2, 3)
    ensures AddMonths(Date(2024, 0, 31), 1) == Date(2024, 2, 2)
  {
    assert DaysInMonthAt(12 * 2026 + 1) == 28;
    assert DaysInMonthAt(12 * 2024 + 1) == 29;
  }

  /** 31 January plus two months is 31 March: the day exists there. */
  lemma AddMonthsToMarch()
    ensures AddMonths(Date(2026, 0, 31), 2) == Date(2026, 2, 31)
  {
    assert DaysInMonthAt(12 * 2026 + 2) == 31;
  }

  /** Month indexes past December carry into the next year. */
  lemma AddMonthsCarriesYear()
    ensures AddMonths(Date(2026, 11, 15), 2) == Date(2027, 1, 15)
  {
  }
}

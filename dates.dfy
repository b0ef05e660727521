/**
 * Calendar dates of the proleptic Gregorian calendar, as `datetime.date`
 * has them: a (year, month, day) triple, an order that compares the triple
 * lexicographically, and the day number `date.toordinal()` on which day
 * differences are computed.
 */
module Dates {

  datatype YMD = YMD(year: int, month: int, day: int)

  predicate IsLeapYear(y: int) {
    y % 4 == 0 && (y % 100 != 0 || y % 400 == 0)
  }

  function DaysInMonth(y: int, m: int): (n: int)
    requires 1 <= m <= 12
    ensures 28 <= n <= 31
    ensures n == 29 <==> m == 2 && IsLeapYear(y)
  {
    if m == 2 then (if IsLeapYear(y) then 29 else 28)
    else if m == 4 || m == 6 || m == 9 || m == 11 then 30
    else 31
  }

  predicate IsValidDate(d: YMD) {
    1 <= d.month <= 12 && 1 <= d.day <= DaysInMonth(d.year, d.month)
  }

  /** A date that exists in the calendar; a parsed date cell is always one. */
  type Date = d: YMD | IsValidDate(d) witness YMD(1970, 1, 1)

  function DaysInYear(y: int): int {
    if IsLeapYear(y) then 366 else 365
  }

  /** Days in the months of year `y` that come before month `m`. */
  function DaysBeforeMonth(y: int, m: int): (n: int)
    requires 1 <= m <= 12
    ensures 0 <= n <= 335
  {
    var leap := if m > 2 && IsLeapYear(y) then 1 else 0;
    leap +
    (if m == 1 then 0 else if m == 2 then 31 else if m == 3 then 59
     else if m == 4 then 90 else if m == 5 then 120 else if m == 6 then 151
     else if m == 7 then 181 else if m == 8 then 212 else if m == 9 then 243
     else if m == 10 then 273 else if m == 11 then 304 else 334)
  }

  /** Days in the years 1 .. y-1 (negative for y < 1, counting backwards). */
  function DaysBeforeYear(y: int): int {
    365 * (y - 1) + (y - 1) / 4 - (y - 1) / 100 + (y - 1) / 400
  }

  /** `date.toordinal()`: 0001-01-01 is day 1. */
  function Ordinal(d: Date): (o: int)
    ensures d.year == 1 && d.month == 1 ==> o == d.day
  {
    DaysBeforeYear(d.year) + DaysBeforeMonth(d.year, d.month) + d.day
  }

  /** Whole days from `a` to `b` (negative when `b` is earlier). */
  function DaysBetween(a: Date, b: Date): (n: int)
    ensures a == b ==> n == 0
    ensures a.year == b.year && a.month == b.month ==> n == b.day - a.day
  {
    Ordinal(b) - Ordinal(a)
  }

  /** `a <= b` on `datetime.date`: the triples compared lexicographically. */
  predicate DateLeq(a: Date, b: Date) {
    a.year < b.year ||
    (a.year == b.year && (a.month < b.month || (a.month == b.month && a.day <= b.day)))
  }

  /** First day of the month of `d` (`to_period('M').to_timestamp()`). */
  function MonthStart(d: Date): (m: Date)
    ensures m.year == d.year && m.month == d.month && m.day == 1
  {
    YMD(d.year, d.month, 1)
  }

  lemma StepDiv(y: int)
    ensures y / 4 - (y - 1) / 4 == (if y % 4 == 0 then 1 else 0)
    ensures y / 100 - (y - 1) / 100 == (if y % 100 == 0 then 1 else 0)
    ensures y / 400 - (y - 1) / 400 == (if y % 400 == 0 then 1 else 0)
  {
  }

  /** Consecutive years are `DaysInYear` apart. */
  lemma YearStep(y: int)
    ensures DaysBeforeYear(y + 1) == DaysBeforeYear(y) + DaysInYear(y)
  {
    StepDiv(y);
  }

  /** A month ends where the next one starts; December ends the year. */
  lemma MonthStep(y: int, m: int)
    requires 1 <= m <= 12
    ensures m < 12 ==> DaysBeforeMonth(y, m) + DaysInMonth(y, m) == DaysBeforeMonth(y, m + 1)
    ensures m == 12 ==> DaysBeforeMonth(y, m) + DaysInMonth(y, m) == DaysInYear(y)
  {
  }

  lemma {:induction false} YearsApart(y1: int, y2: int)
    requires y1 < y2
    ensures DaysBeforeYear(y1) + DaysInYear(y1) <= DaysBeforeYear(y2)
    decreases y2 - y1
  {
    YearStep(y1);
    if y1 + 1 < y2 {
      YearsApart(y1 + 1, y2);
      YearStep(y1 + 1);
    }
  }

  lemma MonthsApart(y: int, m1: int, m2: int)
    requires 1 <= m1 < m2 <= 12
    ensures DaysBeforeMonth(y, m1) + DaysInMonth(y, m1) <= DaysBeforeMonth(y, m2)
  {
  }

  /** Every day of year `y` lies within the year's ordinals. */
  lemma WithinYear(d: Date)
    ensures DaysBeforeYear(d.year) < Ordinal(d) <= DaysBeforeYear(d.year) + DaysInYear(d.year)
  {
    MonthStep(d.year, d.month);
    if d.month < 12 {
      MonthsApart(d.year, d.month, 12);
      MonthStep(d.year, 12);
    }
  }

  /** The ordinal is strictly increasing in calendar order. */
  lemma OrdinalIncreasing(a: Date, b: Date)
    requires DateLeq(a, b) && a != b
    ensures Ordinal(a) < Ordinal(b)
  {
    if a.year < b.year {
      WithinYear(a);
      WithinYear(b);
      YearsApart(a.year, b.year);
    } else if a.month < b.month {
      MonthsApart(a.year, a.month, b.month);
    }
  }

  /** Calendar order and day-number order agree, and the day number identifies the date. */
  lemma OrdinalOrder(a: Date, b: Date)
    ensures DateLeq(a, b) <==> Ordinal(a) <= Ordinal(b)
    ensures a == b <==> Ordinal(a) == Ordinal(b)
  {
    if a != b {
      if DateLeq(a, b) {
        OrdinalIncreasing(a, b);
      } else {
        OrdinalIncreasing(b, a);
      }
    }
  }

  /** A day difference is non-negative exactly when the dates are in calendar order. */
  lemma DaysBetweenSign(a: Date, b: Date)
    ensures DaysBetween(a, b) >= 0 <==> DateLeq(a, b)
    ensures DaysBetween(a, b) == 0 <==> a == b
  {
    OrdinalOrder(a, b);
  }

  /**
   * `MonthStart(d)` is the latest first-of-month not after `d`, it is
   * `d.day - 1` days before `d`, and truncating twice changes nothing.
   */
  lemma MonthStartFacts(d: Date)
    ensures DateLeq(MonthStart(d), d)
    ensures DaysBetween(MonthStart(d), d) == d.day - 1
    ensures MonthStart(MonthStart(d)) == MonthStart(d)
    ensures forall f: Date :: f.day == 1 && DateLeq(f, d) ==> DateLeq(f, MonthStart(d))
  {
  }

  /** Two dates fall in the same month exactly when their truncations agree. */
  lemma SameMonth(a: Date, b: Date)
    ensures MonthStart(a) == MonthStart(b) <==> a.year == b.year && a.month == b.month
  {
  }

  /** The calendar day after `d`: the next day of the month, else the 1st of the next month or year. */
  function NextDay(d: Date): (e: Date)
    ensures DateLeq(d, e) && d != e
  {
    if d.day < DaysInMonth(d.year, d.month) then YMD(d.year, d.month, d.day + 1)
    else if d.month < 12 then YMD(d.year, d.month + 1, 1)
    else YMD(d.year + 1, 1, 1)
  }

  /**
   * Consecutive calendar days are one day number apart, across month and
   * year ends too, and the next day is the only date one day later.
   */
  lemma OrdinalNext(d: Date)
    ensures Ordinal(NextDay(d)) == Ordinal(d) + 1
    ensures forall e: Date :: DaysBetween(d, e) == 1 <==> e == NextDay(d)
  {
    MonthStep(d.year, d.month);
    if d.day == DaysInMonth(d.year, d.month) && d.month == 12 {
      YearStep(d.year);
    }
    forall e: Date
      ensures DaysBetween(d, e) == 1 <==> e == NextDay(d)
    {
      OrdinalOrder(e, NextDay(d));
    }
  }

  /** 2024 is a leap year: 28 February to 1 March is two days. */
  lemma LeapDayExample()
    ensures DaysBetween(YMD(2024, 2, 28), YMD(2024, 3, 1)) == 2
    ensures DaysBetween(YMD(2023, 12, 31), YMD(2024, 1, 1)) == 1
  {
    YearStep(2023);
  }
}

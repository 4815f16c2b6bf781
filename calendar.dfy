/**
 * Calendar dates as MySQL's DATE column holds them, and the three windows the
 * server compares a due date against: the same day (`DATE(x) = CURDATE()`),
 * the same ISO week (`YEARWEEK(x, 1) = YEARWEEK(CURDATE(), 1)`) and the same
 * month of the same year (`YEAR(x) = YEAR(..) AND MONTH(x) = MONTH(..)`).
 */
module Calendar {

  datatype Date = Date(year: int, month: int, day: int)

  predicate IsLeapYear(y: int) {
    y % 4 == 0 && (y % 100 != 0 || y % 400 == 0)
  }

  function DaysInMonth(y: int, m: int): int {
    if m == 2 then (if IsLeapYear(y) then 29 else 28)
    else if m == 4 || m == 6 || m == 9 || m == 11 then 30
    else 31
  }

  predicate IsValid(d: Date) {
    1 <= d.month <= 12 && 1 <= d.day <= DaysInMonth(d.year, d.month)
  }

  /** The following calendar day. */
  function NextDay(d: Date): Date {
    if d.day < DaysInMonth(d.year, d.month) then Date(d.year, d.month, d.day + 1)
    else if d.month < 12 then Date(d.year, d.month + 1, 1)
    else Date(d.year + 1, 1, 1)
  }

  /**
   * Index of the Monday-to-Sunday week holding `d`; week 0 starts on Monday
   * 1969-12-29. `YEARWEEK(d, 1)` labels each such week by its ISO 8601 year
   * and week number, one label per week, so two dates have the same label
   * exactly when they have the same index.
   */
  function WeekIndex(d: Date): (r: int)
    ensures 7 * r == DayNumber(d) + 3 - Weekday(d)
  {
    (DayNumber(d) + 3) / 7
  }

  /** Day number of 1 March of year `y`, less the constant 719468 that puts day 0 on 1970-01-01. */
  function MarchYearStart(y: int): int {
    var era := y / 400;
    var yoe := y % 400;
    era * 146097 + yoe * 365 + yoe / 4 - yoe / 100
  }

  /** The month's position in a year that starts on 1 March (March 0, ..., February 11). */
  function MarchMonth(month: int): int {
    if month > 2 then month - 3 else month + 9
  }

  /** Days from 1 March to the first of the month. */
  function MonthOffset(month: int): int {
    (153 * MarchMonth(month) + 2) / 5
  }

  /**
   * Days from 1970-01-01 (a Thursday) in the proleptic Gregorian calendar,
   * counted in years that start on 1 March so that the leap day comes last.
   */
  function DayNumber(d: Date): int {
    var y := if d.month <= 2 then d.year - 1 else d.year;
    MarchYearStart(y) + MonthOffset(d.month) + d.day - 1 - 719468
  }

  /** Quotient and remainder by 4, 100 and 400 are the unique ones. */
  lemma DivModUnique(x: int, q: int, r: int, k: int)
    requires k == 4 || k == 100 || k == 400
    requires 0 <= r < k && x == k * q + r
    ensures x / k == q && x % k == r
  {
    if k == 4 {
      assert x == 4 * (x / 4) + x % 4;
    } else if k == 100 {
      assert x == 100 * (x / 100) + x % 100;
    } else {
      assert x == 400 * (x / 400) + x % 400;
    }
  }

  /** Leap years repeat every 400 years. */
  lemma LeapPeriodic(q: int, a: int)
    requires 0 <= a <= 400
    ensures IsLeapYear(400 * q + a) == IsLeapYear(a)
  {
    DivModUnique(a, a / 4, a % 4, 4);
    DivModUnique(400 * q + a, 100 * q + a / 4, a % 4, 4);
    DivModUnique(a, a / 100, a % 100, 100);
    DivModUnique(400 * q + a, 4 * q + a / 100, a % 100, 100);
    DivModUnique(a, a / 400, a % 400, 400);
    DivModUnique(400 * q + a, q + a / 400, a % 400, 400);
  }

  /** Within one era, a year-of-era `r + 1` starts 366 days after `r` exactly when it is a leap year. */
  lemma EraYearStep(r: int)
    requires 0 <= r < 399
    ensures (r + 1) * 365 + (r + 1) / 4 - (r + 1) / 100 - (r * 365 + r / 4 - r / 100)
      == if IsLeapYear(r + 1) then 366 else 365
  {
    DivModUnique(r, r / 4, r % 4, 4);
    DivModUnique(r, r / 100, r % 100, 100);
    if r % 4 == 3 {
      DivModUnique(r + 1, r / 4 + 1, 0, 4);
    } else {
      DivModUnique(r + 1, r / 4, r % 4 + 1, 4);
    }
    if r % 100 == 99 {
      DivModUnique(r + 1, r / 100 + 1, 0, 100);
    } else {
      DivModUnique(r + 1, r / 100, r % 100 + 1, 100);
    }
    DivModUnique(r + 1, 0, r + 1, 400);
  }

  /** The year from 1 March of `y` to the end of February of `y + 1` has 366 days exactly when `y + 1` is a leap year. */
  lemma MarchYearLength(y: int)
    ensures MarchYearStart(y + 1) - MarchYearStart(y) == if IsLeapYear(y + 1) then 366 else 365
  {
    var q, r := y / 400, y % 400;
    DivModUnique(y, q, r, 400);
    LeapPeriodic(q, r + 1);
    if r == 399 {
      DivModUnique(y + 1, q + 1, 0, 400);
      LeapPeriodic(0, 400);
    } else {
      DivModUnique(y + 1, q, r + 1, 400);
      EraYearStep(r);
    }
  }

  /** From the first of a month to the first of the next, within one March-based year. */
  lemma MonthOffsetStep(year: int, month: int)
    requires 1 <= month <= 12 && month != 2
    ensures MonthOffset(month % 12 + 1) - MonthOffset(month) == DaysInMonth(year, month)
  {
    if month == 1 {
    } else if month == 3 {
    } else if month == 4 {
    } else if month == 5 {
    } else if month == 6 {
    } else if month == 7 {
    } else if month == 8 {
    } else if month == 9 {
    } else if month == 10 {
    } else if month == 11 {
    } else {
    }
  }

  /** Consecutive valid dates have consecutive day numbers. */
  lemma DayNumberNextDay(d: Date)
    requires IsValid(d)
    ensures DayNumber(NextDay(d)) == DayNumber(d) + 1
  {
    if d.day < DaysInMonth(d.year, d.month) {
    } else if d.month == 2 {
      MarchYearLength(d.year - 1);
      assert MonthOffset(2) == 337 && MonthOffset(3) == 0;
    } else {
      MonthOffsetStep(d.year, d.month);
    }
  }

  /** Day of the week, 0 for Monday up to 6 for Sunday. */
  function Weekday(d: Date): int {
    (DayNumber(d) + 3) % 7
  }

  /** Walking through the calendar, the week index goes up by one exactly on each Monday. */
  lemma WeekStartsOnMonday(d: Date)
    requires IsValid(d)
    ensures WeekIndex(NextDay(d)) == WeekIndex(d) + (if Weekday(NextDay(d)) == 0 then 1 else 0)
  {
    DayNumberNextDay(d);
  }

  predicate SameDay(a: Date, b: Date) {
    a == b
  }

  predicate SameIsoWeek(a: Date, b: Date) {
    WeekIndex(a) == WeekIndex(b)
  }

  predicate SameMonth(a: Date, b: Date) {
    a.year == b.year && a.month == b.month
  }
}

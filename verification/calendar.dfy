/** Gregorian calendar arithmetic behind the month view
    (src/pages/timeline-tracker/components/CalendarView.jsx): month lengths,
    day numbers and weekdays. Months are numbered 0..11 as `getMonth` does;
    day numbers count days from 1 January of year 1 (proleptic Gregorian). */
module Calendar {
  import opened Arith

  predicate IsLeapYear(y: int)
  {
    y % 4 == 0 && (y % 100 != 0 || y % 400 == 0)
  }

  /** `new Date(y, m + 1, 0).getDate()`: the length of month `m` of year `y`. */
  function DaysInMonth(y: int, m: int): (n: int)
    requires 0 <= m < 12
    ensures 28 <= n <= 31
    ensures m == 1 ==> (n == 29 <==> IsLeapYear(y)) && (n == 28 <==> !IsLeapYear(y))
    ensures m != 1 ==> (n == 31 <==> m in {0, 2, 4, 6, 7, 9, 11}) && (n == 30 <==> m in {3, 5, 8, 10})
  {
    if m == 1 then (if IsLeapYear(y) then 29 else 28)
    else if m == 3 || m == 5 || m == 8 || m == 10 then 30
    else 31
  }

  /** Days in the months of year `y` before month `m`. */
  function DaysBeforeMonth(y: int, m: int): int
    requires 0 <= m <= 12
  {
    if m == 0 then 0 else DaysBeforeMonth(y, m - 1) + DaysInMonth(y, m - 1)
  }

  /** Days in the years before year `y`. */
  function DaysBeforeYear(y: int): int
  {
    365 * (y - 1) + (y - 1) / 4 - (y - 1) / 100 + (y - 1) / 400
  }

  datatype Date = Date(year: int, month: int, day: int)

  /** A date a JavaScript `Date` can hold: a real day of a real month. */
  predicate ValidDate(d: Date)
  {
    0 <= d.month < 12 && 1 <= d.day <= DaysInMonth(d.year, d.month)
  }

  /** Day `d` of month `m` of year `y`, counted from 1 January of year 1;
      `d` may run past the month's end, as the `Date` constructor allows. */
  function DayNumber(y: int, m: int, d: int): int
    requires 0 <= m < 12
  {
    DaysBeforeYear(y) + DaysBeforeMonth(y, m) + d - 1
  }

  function DateNumber(d: Date): int
    requires 0 <= d.month < 12
  {
    DayNumber(d.year, d.month, d.day)
  }

  /** `getDay()` of a day number: 1 January of year 1 was a Monday, and
      Sunday is 0. */
  function Weekday(n: int): (w: int)
    ensures 0 <= w < 7
  {
    (n + 1) % 7
  }

  /** `new Date(y, m, 1).getDay()`. */
  function FirstDayOfMonth(y: int, m: int): (w: int)
    requires 0 <= m < 12
    ensures 0 <= w < 7
  {
    Weekday(DayNumber(y, m, 1))
  }

  /** The month after month `m` of year `y`. */
  function NextMonth(y: int, m: int): (r: (int, int))
    requires 0 <= m < 12
    ensures 0 <= r.1 < 12
  {
    if m < 11 then (y, m + 1) else (y + 1, 0)
  }

  /** Going from `y - 1` to `y`, `y / k` steps up exactly when `k` divides `y`. */
  lemma DivStep(y: int, k: int)
    requires k > 0
    ensures y / k - (y - 1) / k == if y % k == 0 then 1 else 0
  {
    var q := y / k;
    var r := y % k;
    assert y == k * q + r;
    if r > 0 {
      DivUnique(y - 1, k, q, r - 1);
    } else {
      assert y - 1 == k * (q - 1) + (k - 1);
      DivUnique(y - 1, k, q - 1, k - 1);
    }
  }

  /** The twelve months add up to the length of the year. */
  lemma MonthsSum(y: int)
    ensures DaysBeforeMonth(y, 12) == if IsLeapYear(y) then 366 else 365
  {
    var feb := DaysInMonth(y, 1);
    assert DaysBeforeMonth(y, 1) == 31;
    assert DaysBeforeMonth(y, 2) == 31 + feb;
    assert DaysBeforeMonth(y, 3) == 62 + feb;
    assert DaysBeforeMonth(y, 4) == 92 + feb;
    assert DaysBeforeMonth(y, 5) == 123 + feb;
    assert DaysBeforeMonth(y, 6) == 153 + feb;
    assert DaysBeforeMonth(y, 7) == 184 + feb;
    assert DaysBeforeMonth(y, 8) == 215 + feb;
    assert DaysBeforeMonth(y, 9) == 245 + feb;
    assert DaysBeforeMonth(y, 10) == 276 + feb;
    assert DaysBeforeMonth(y, 11) == 306 + feb;
  }

  /** A year has 366 days exactly when it is a leap year, both by the
      leap-day count and by adding up its months. */
  lemma YearLength(y: int)
    ensures DaysBeforeYear(y + 1) - DaysBeforeYear(y) == if IsLeapYear(y) then 366 else 365
    ensures DaysBeforeMonth(y, 12) == if IsLeapYear(y) then 366 else 365
  {
    MonthsSum(y);
    DivStep(y, 4);
    DivStep(y, 100);
    DivStep(y, 400);
    var s4, s100, s400 := y / 4 - (y - 1) / 4, y / 100 - (y - 1) / 100, y / 400 - (y - 1) / 400;
    assert DaysBeforeYear(y + 1) - DaysBeforeYear(y) == 365 + s4 - s100 + s400;
    if y % 400 == 0 {
      ModOfMultiple(y, 100, 4 * (y / 400));
      ModOfMultiple(y, 4, 100 * (y / 400));
    } else if y % 100 == 0 {
      ModOfMultiple(y, 4, 25 * (y / 100));
    }
  }

  /** The first of the next month comes `DaysInMonth` days after the first
      of this one, across year ends too. */
  lemma NextMonthStart(y: int, m: int)
    requires 0 <= m < 12
    ensures DayNumber(NextMonth(y, m).0, NextMonth(y, m).1, 1) == DayNumber(y, m, 1) + DaysInMonth(y, m)
  {
    YearLength(y);
  }

  /** The weekday columns line up from one month to the next. */
  lemma FirstDayOfNextMonth(y: int, m: int)
    requires 0 <= m < 12
    ensures FirstDayOfMonth(NextMonth(y, m).0, NextMonth(y, m).1) == (FirstDayOfMonth(y, m) + DaysInMonth(y, m)) % 7
  {
    NextMonthStart(y, m);
    WeekdayShift(DayNumber(y, m, 1), DaysInMonth(y, m));
  }

  /** `d` days later the weekday has moved on by `d`, modulo the week. */
  lemma WeekdayShift(n: int, d: int)
    ensures Weekday(n + d) == (Weekday(n) + d) % 7
  {
    var q, r := (n + 1) / 7, (n + 1) % 7;
    assert n + 1 == 7 * q + r;
    DivUnique(n + 1 + d, 7, q + (r + d) / 7, (r + d) % 7);
  }

  /** Calendar facts: 1 January 2024 was a Monday, 1 January 2025 a
      Wednesday; February has 29 days in 2024 and 28 in 2023. */
  lemma KnownDates()
    ensures FirstDayOfMonth(2024, 0) == 1
    ensures FirstDayOfMonth(2025, 0) == 3
    ensures DaysInMonth(2024, 1) == 29 && DaysInMonth(2023, 1) == 28
  {
  }
}

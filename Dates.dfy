/** Calendar arithmetic behind JavaScript's `Date` in one fixed time zone,
    at a resolution of whole seconds: the proleptic Gregorian calendar,
    the `new Date(year, monthIndex, day, h, m, s)` constructor with its
    month and day overflow, and the month window the calendar routes query. */
module Dates {

  /** Local calendar fields of a point in time. */
  datatype DateTime = DateTime(year: int, month: int, day: int, hour: int, minute: int, second: int)
  {
    predicate Valid() {
      && 1 <= month <= 12 && 1 <= day <= DaysInMonth(year, month)
      && 0 <= hour < 24 && 0 <= minute < 60 && 0 <= second < 60
    }
  }

  /** A well-formed date and time of day. */
  type Date = dt: DateTime | dt.Valid() witness DateTime(1970, 1, 1, 0, 0, 0)

  /** `new Date(0)`, the zero of JavaScript time: midnight on 1 January 1970,
      with the model's zone taken as UTC. */
  const Epoch: Date := DateTime(1970, 1, 1, 0, 0, 0)

  /** The Gregorian leap-year rule. */
  predicate IsLeapYear(y: int) {
    y % 4 == 0 && (y % 100 != 0 || y % 400 == 0)
  }

  function DaysInYear(y: int): int {
    if IsLeapYear(y) then 366 else 365
  }

  function DaysInMonth(y: int, m: int): (n: int)
    requires 1 <= m <= 12
    ensures 28 <= n <= 31
    ensures n == 29 <==> m == 2 && IsLeapYear(y)
  {
    if m == 2 then (if IsLeapYear(y) then 29 else 28)
    else if m == 4 || m == 6 || m == 9 || m == 11 then 30
    else 31
  }

  /** Days of year `y` before the first of month `m`. */
  function DaysBeforeMonth(y: int, m: int): nat
    requires 1 <= m <= 12
  {
    [0, 31, 59, 90, 120, 151, 181, 212, 243, 273, 304, 334][m - 1]
      + (if m > 2 && IsLeapYear(y) then 1 else 0)
  }

  /** Consecutive months of one year are adjacent, and December ends the year. */
  lemma MonthStep(y: int, m: int)
    requires 1 <= m <= 12
    ensures m < 12 ==> DaysBeforeMonth(y, m) + DaysInMonth(y, m) == DaysBeforeMonth(y, m + 1)
    ensures m == 12 ==> DaysBeforeMonth(y, m) + DaysInMonth(y, m) == DaysInYear(y)
  {
  }

  /** Days from 0000-01-01 to the first of January of year `y` (negative before it). */
  function DaysBeforeYear(y: int): int
    decreases if y >= 0 then y else -y
  {
    if y == 0 then 0
    else if y > 0 then DaysBeforeYear(y - 1) + DaysInYear(y - 1)
    else DaysBeforeYear(y + 1) - DaysInYear(y)
  }

  lemma YearStep(y: int)
    ensures DaysBeforeYear(y + 1) == DaysBeforeYear(y) + DaysInYear(y)
  {
  }

  /** A later year starts after every day of an earlier one. */
  lemma {:induction false} YearsOrdered(a: int, b: int)
    requires a < b
    ensures DaysBeforeYear(a) + DaysInYear(a) <= DaysBeforeYear(b)
    decreases b - a
  {
    YearStep(a);
    if a + 1 < b {
      YearsOrdered(a + 1, b);
    }
  }

  /** Day `d` of month `m` of year `y`, counted from 0000-01-01. `d` may lie
      outside the month: ECMAScript's MakeDay simply adds it to the first. */
  function DayNumber(y: int, m: int, d: int): int
    requires 1 <= m <= 12
  {
    DaysBeforeYear(y) + DaysBeforeMonth(y, m) + d - 1
  }

  /** (y1, m1, d1) comes strictly before (y2, m2, d2) on the calendar. */
  predicate CalendarBefore(y1: int, m1: int, d1: int, y2: int, m2: int, d2: int) {
    y1 < y2 || (y1 == y2 && (m1 < m2 || (m1 == m2 && d1 < d2)))
  }

  /** Day numbers of real dates follow calendar order. */
  lemma DayNumberOrdered(y1: int, m1: int, d1: int, y2: int, m2: int, d2: int)
    requires 1 <= m1 <= 12 && 1 <= d1 <= DaysInMonth(y1, m1)
    requires 1 <= m2 <= 12 && 1 <= d2 <= DaysInMonth(y2, m2)
    requires CalendarBefore(y1, m1, d1, y2, m2, d2)
    ensures DayNumber(y1, m1, d1) < DayNumber(y2, m2, d2)
  {
    MonthStep(y1, m1);
    if y1 < y2 {
      YearsOrdered(y1, y2);
      MonthsOrdered(y1, m1, 12);
    } else if m1 < m2 {
      MonthsOrdered(y1, m1 + 1, m2);
    }
  }

  lemma MonthsOrdered(y: int, m1: int, m2: int)
    requires 1 <= m1 <= m2 <= 12
    ensures DaysBeforeMonth(y, m1) <= DaysBeforeMonth(y, m2)
  {
  }

  function SecondOfDay(dt: Date): (s: int)
    ensures 0 <= s < 86400
  {
    dt.hour * 3600 + dt.minute * 60 + dt.second
  }

  /** Date.prototype.getTime, in seconds from 0000-01-01 00:00:00. */
  function Instant(dt: Date): int {
    DayNumber(dt.year, dt.month, dt.day) * 86400 + SecondOfDay(dt)
  }

  /** Different date-times are different instants, in calendar order. */
  lemma {:induction false} InstantOrdered(a: Date, b: Date)
    ensures Instant(a) < Instant(b) <==>
      (CalendarBefore(a.year, a.month, a.day, b.year, b.month, b.day)
       || (a.year == b.year && a.month == b.month && a.day == b.day && SecondOfDay(a) < SecondOfDay(b)))
  {
    var na, nb := DayNumber(a.year, a.month, a.day), DayNumber(b.year, b.month, b.day);
    if CalendarBefore(a.year, a.month, a.day, b.year, b.month, b.day) {
      DayNumberOrdered(a.year, a.month, a.day, b.year, b.month, b.day);
      assert na * 86400 + 86400 <= nb * 86400;
    } else if CalendarBefore(b.year, b.month, b.day, a.year, a.month, a.day) {
      DayNumberOrdered(b.year, b.month, b.day, a.year, a.month, a.day);
      assert nb * 86400 + 86400 <= na * 86400;
    }
  }

  /** Two-digit years: `new Date(y, ...)` reads a year 0 to 99 as 1900 + y. */
  function JsYear(y: int): int {
    if 0 <= y <= 99 then 1900 + y else y
  }

  /** `new Date(year, monthIndex, day, hour, minute, second).getTime()` in
      seconds: a month index outside 0..11 moves into a neighbouring year,
      a day outside the month moves into a neighbouring month. */
  function NewLocalDate(year: int, monthIndex: int, day: int, hour: int, minute: int, second: int): int {
    var y := JsYear(year) + monthIndex / 12;
    var m := monthIndex % 12 + 1;
    DayNumber(y, m, day) * 86400 + hour * 3600 + minute * 60 + second
  }

  /** The year and month (1 to 12) a 1-based `month` of `year` lands on. */
  function NormalYear(year: int, month: int): int {
    JsYear(year) + (month - 1) / 12
  }

  function NormalMonth(month: int): (m: int)
    ensures 1 <= m <= 12
  {
    (month - 1) % 12 + 1
  }

  /** A month window as a pair of inclusive instants. */
  datatype Window = Window(start: int, end: int) {
    predicate Contains(t: int) { start <= t <= end }
  }

  /** `new Date(year, month - 1, 1)` to `new Date(year, month, 0, 23, 59, 59)`. */
  function MonthWindow(year: int, month: int): Window {
    Window(NewLocalDate(year, month - 1, 1, 0, 0, 0), NewLocalDate(year, month, 0, 23, 59, 59))
  }

  /** Month index `month` is the month after month index `month - 1`. */
  lemma NextMonthIndex(month: int)
    ensures (month - 1) % 12 == 11 ==> month / 12 == (month - 1) / 12 + 1 && month % 12 == 0
    ensures (month - 1) % 12 < 11 ==> month / 12 == (month - 1) / 12 && month % 12 == (month - 1) % 12 + 1
  {
    var q, r := (month - 1) / 12, (month - 1) % 12;
    assert month == 12 * q + r + 1;
    if r == 11 {
      assert month == 12 * (q + 1) + 0;
    } else {
      assert 0 <= r + 1 < 12;
    }
  }

  /** The window starts at midnight on the first of the month and ends on its
      last day at 23:59:59, with the Gregorian number of days. */
  lemma MonthWindowBounds(year: int, month: int)
    ensures var y, m := NormalYear(year, month), NormalMonth(month);
      && MonthWindow(year, month).start == Instant(DateTime(y, m, 1, 0, 0, 0))
      && MonthWindow(year, month).end == Instant(DateTime(y, m, DaysInMonth(y, m), 23, 59, 59))
  {
    var y, m := NormalYear(year, month), NormalMonth(month);
    LastDayOfMonth(year, month);
    var lastDay := DayNumber(y, m, DaysInMonth(y, m));
    assert MonthWindow(year, month).end == lastDay * 86400 + 86399;
  }

  /** Day 0 of the month after (`year`, `month`) is the last day of that month. */
  lemma LastDayOfMonth(year: int, month: int)
    ensures var y, m := NormalYear(year, month), NormalMonth(month);
      DayNumber(JsYear(year) + month / 12, month % 12 + 1, 0) == DayNumber(y, m, DaysInMonth(y, m))
  {
    var y, m := NormalYear(year, month), NormalMonth(month);
    NextMonthIndex(month);
    MonthStep(y, m);
    if m == 12 {
      YearStep(y);
    }
  }

  /** A date-time falls in the window of (`year`, `month`) exactly when it
      lies in the calendar month that pair lands on. */
  lemma MonthWindowContains(year: int, month: int, dt: Date)
    ensures MonthWindow(year, month).Contains(Instant(dt)) <==>
      dt.year == NormalYear(year, month) && dt.month == NormalMonth(month)
  {
    var y, m := NormalYear(year, month), NormalMonth(month);
    MonthWindowBounds(year, month);
    var first: Date := DateTime(y, m, 1, 0, 0, 0);
    var last: Date := DateTime(y, m, DaysInMonth(y, m), 23, 59, 59);
    InstantOrdered(dt, first);
    InstantOrdered(last, dt);
  }

  /** For a month 1 to 12 and a year of at least 100, no normalisation happens. */
  lemma MonthWindowPlain(year: int, month: int, dt: Date)
    requires 1 <= month <= 12 && year >= 100
    ensures MonthWindow(year, month).Contains(Instant(dt)) <==> dt.year == year && dt.month == month
  {
    MonthWindowContains(year, month, dt);
  }

  /** The last second of December 2024 is in its window; the first second of 2025 is not. */
  lemma DecemberWindowEdges()
    ensures MonthWindow(2024, 12).Contains(Instant(DateTime(2024, 12, 31, 23, 59, 59)))
    ensures !MonthWindow(2024, 12).Contains(Instant(DateTime(2025, 1, 1, 0, 0, 0)))
  {
    MonthWindowPlain(2024, 12, DateTime(2024, 12, 31, 23, 59, 59));
    MonthWindowPlain(2024, 12, DateTime(2025, 1, 1, 0, 0, 0));
  }

  /** `d.setHours(0, 0, 0, 0)`: the start of `d`'s day. */
  function Midnight(d: Date): (r: Date)
    ensures r.year == d.year && r.month == d.month && r.day == d.day && SecondOfDay(r) == 0
  {
    DateTime(d.year, d.month, d.day, 0, 0, 0)
  }

  /** Being at or after the start of today's date means falling on today or a later day. */
  lemma AtOrAfterMidnight(d: Date, now: Date)
    ensures Instant(d) >= Instant(Midnight(now)) <==>
      !CalendarBefore(d.year, d.month, d.day, now.year, now.month, now.day)
  {
    InstantOrdered(d, Midnight(now));
  }
}

/**
 * Calendar dates and the day arithmetic of JavaScript's `Date` constructor.
 * `new Date(y, monthIndex, day)` accepts out-of-range months and days and rolls them
 * into neighbouring months and years; `DayNumber` counts days the same way, so every
 * comparison of two instants in the model is a comparison of day numbers.
 * Time of day and time zones are not modelled.
 */
module Calendar {

  /** A calendar date; `month` runs from 1 to 12. */
  datatype Date = Date(year: int, month: int, day: int)

  predicate IsLeap(y: int) {
    y % 4 == 0 && (y % 100 != 0 || y % 400 == 0)
  }

  function DaysInMonth(y: int, m: int): int
    requires 1 <= m <= 12
  {
    if m == 2 then (if IsLeap(y) then 29 else 28)
    else if m == 4 || m == 6 || m == 9 || m == 11 then 30
    else 31
  }

  predicate Valid(d: Date) {
    1 <= d.month <= 12 && 1 <= d.day <= DaysInMonth(d.year, d.month)
  }

  /** A date string that parses: always an actual day of the calendar. */
  type CalendarDate = d: Date | Valid(d) witness Date(1970, 1, 1)

  /** Days from 1 January of year 1 to 1 January of year `y` (proleptic Gregorian calendar). */
  function DaysBeforeYear(y: int): int {
    365 * (y - 1) + (y - 1) / 4 - (y - 1) / 100 + (y - 1) / 400
  }

  function DaysBeforeMonth(y: int, m: int): int
    requires 1 <= m <= 12
  {
    [0, 31, 59, 90, 120, 151, 181, 212, 243, 273, 304, 334][m - 1] + (if m > 2 && IsLeap(y) then 1 else 0)
  }

  /** The day number of the first day of month `m` of year `y`. */
  function MonthStart(y: int, m: int): int
    requires 1 <= m <= 12
  {
    DaysBeforeYear(y) + DaysBeforeMonth(y, m)
  }

  /** Months counted from the start of year 0, so that month arithmetic is integer arithmetic. */
  function MonthCount(y: int, m: int): int {
    y * 12 + (m - 1)
  }

  /** The year and month `k` months after (`k` may be negative) month `m` of year `y`. */
  function ShiftMonth(y: int, m: int, k: int): (r: (int, int))
    requires 1 <= m <= 12
    ensures 1 <= r.1 <= 12
    ensures MonthCount(r.0, r.1) == MonthCount(y, m) + k
  {
    var index := m - 1 + k;
    (y + index / 12, index % 12 + 1)
  }

  /** `new Date(y, monthIndex, day)` as a day number; `monthIndex` is zero-based as in JavaScript. */
  function DayNumber(y: int, monthIndex: int, day: int): int {
    var year := y + monthIndex / 12;
    var month := monthIndex % 12 + 1;
    MonthStart(year, month) + day - 1
  }

  /** The day number of a date, as `new Date(y, m - 1, d)` would place it. */
  function Ordinal(d: Date): int {
    DayNumber(d.year, d.month - 1, d.day)
  }

  /** The first day of the month that lies `k` months from month `m` of year `y`: `new Date(y, m - 1 + k, 1)`. */
  lemma DayNumberOfMonthShift(y: int, m: int, k: int)
    requires 1 <= m <= 12
    ensures DayNumber(y, m - 1 + k, 1) == MonthStart(ShiftMonth(y, m, k).0, ShiftMonth(y, m, k).1)
  {
  }

  lemma YearLength(y: int)
    ensures DaysBeforeYear(y + 1) == DaysBeforeYear(y) + (if IsLeap(y) then 366 else 365)
  {
    assert y / 4 - (y - 1) / 4 == (if y % 4 == 0 then 1 else 0);
    assert y / 100 - (y - 1) / 100 == (if y % 100 == 0 then 1 else 0);
    assert y / 400 - (y - 1) / 400 == (if y % 400 == 0 then 1 else 0);
  }

  /** The next month starts exactly `DaysInMonth` days after this one. */
  lemma NextMonthStart(y: int, m: int)
    requires 1 <= m <= 12
    ensures var n := ShiftMonth(y, m, 1); MonthStart(n.0, n.1) == MonthStart(y, m) + DaysInMonth(y, m)
  {
    if m == 12 {
      YearLength(y);
    }
  }

  /** A later month starts after every day of an earlier month. */
  lemma {:induction false} MonthStartGrows(y1: int, m1: int, y2: int, m2: int)
    requires 1 <= m1 <= 12 && 1 <= m2 <= 12
    requires MonthCount(y1, m1) < MonthCount(y2, m2)
    ensures MonthStart(y1, m1) + DaysInMonth(y1, m1) <= MonthStart(y2, m2)
    decreases MonthCount(y2, m2) - MonthCount(y1, m1)
  {
    var n := ShiftMonth(y1, m1, 1);
    NextMonthStart(y1, m1);
    if MonthCount(n.0, n.1) < MonthCount(y2, m2) {
      MonthStartGrows(n.0, n.1, y2, m2);
    } else {
      assert n.0 == y2 && n.1 == m2;
    }
  }

  /**
   * For a valid date, being on or after the first day of a month is the same as
   * lying in that month or a later one: day numbers respect the calendar order.
   */
  lemma OnOrAfterMonthStart(d: Date, y: int, m: int)
    requires Valid(d) && 1 <= m <= 12
    ensures Ordinal(d) >= MonthStart(y, m) <==> MonthCount(d.year, d.month) >= MonthCount(y, m)
  {
    OrdinalOfValid(d);
    if MonthCount(d.year, d.month) < MonthCount(y, m) {
      MonthStartGrows(d.year, d.month, y, m);
    } else if MonthCount(y, m) < MonthCount(d.year, d.month) {
      MonthStartGrows(y, m, d.year, d.month);
    } else {
      assert d.year == y && d.month == m;
    }
  }

  /** Valid dates are ordered by their day numbers exactly as they are ordered in the calendar. */
  lemma OrdinalMonotone(a: Date, b: Date)
    requires Valid(a) && Valid(b)
    ensures Ordinal(a) < Ordinal(b) <==>
              MonthCount(a.year, a.month) < MonthCount(b.year, b.month)
              || (MonthCount(a.year, a.month) == MonthCount(b.year, b.month) && a.day < b.day)
  {
    OrdinalOfValid(a);
    OrdinalOfValid(b);
    if MonthCount(a.year, a.month) < MonthCount(b.year, b.month) {
      MonthStartGrows(a.year, a.month, b.year, b.month);
    } else if MonthCount(b.year, b.month) < MonthCount(a.year, a.month) {
      MonthStartGrows(b.year, b.month, a.year, a.month);
    } else {
      SameMonthCount(a.year, a.month, b.year, b.month);
    }
  }

  lemma OrdinalOfValid(d: Date)
    requires Valid(d)
    ensures Ordinal(d) == MonthStart(d.year, d.month) + d.day - 1
  {
    assert (d.month - 1) / 12 == 0 && (d.month - 1) % 12 == d.month - 1;
  }

  lemma SameMonthCount(y1: int, m1: int, y2: int, m2: int)
    requires 1 <= m1 <= 12 && 1 <= m2 <= 12 && MonthCount(y1, m1) == MonthCount(y2, m2)
    ensures y1 == y2 && m1 == m2
  {
  }
}

/** The part of QDate the report screen relies on: a proleptic Gregorian
    calendar on consecutive day numbers, with dayOfWeek, daysInMonth,
    addDays, addMonths and daysTo. Day 1 is 0001-01-01, a Monday. */
module Calendar {
  import opened Common

  datatype Date = Date(year: int, month: int, day: int)

  predicate IsLeapYear(y: int) {
    (y % 4 == 0 && y % 100 != 0) || y % 400 == 0
  }

  function DaysInMonth(y: int, m: int): (r: int)
    requires 1 <= m <= 12
    ensures 28 <= r <= 31
    ensures m == 2 ==> (r == 29 <==> IsLeapYear(y))
  {
    if m == 2 then (if IsLeapYear(y) then 29 else 28)
    else if m == 4 || m == 6 || m == 9 || m == 11 then 30
    else 31
  }

  predicate Valid(d: Date) {
    1 <= d.month <= 12 && 1 <= d.day <= DaysInMonth(d.year, d.month)
  }

  /** Days in the years before `y`. */
  function DaysBeforeYear(y: int): int {
    365 * (y - 1) + (y - 1) / 4 - (y - 1) / 100 + (y - 1) / 400
  }

  /** Days in the months of year `y` before month `m`. */
  function DaysBeforeMonth(y: int, m: int): int
    requires 1 <= m <= 12
  {
    var table := [0, 31, 59, 90, 120, 151, 181, 212, 243, 273, 304, 334];
    table[m - 1] + (if m > 2 && IsLeapYear(y) then 1 else 0)
  }

  function DayNumber(d: Date): int
    requires Valid(d)
  {
    DaysBeforeYear(d.year) + DaysBeforeMonth(d.year, d.month) + d.day
  }

  function Next(d: Date): (r: Date)
    requires Valid(d)
    ensures Valid(r)
  {
    if d.day < DaysInMonth(d.year, d.month) then Date(d.year, d.month, d.day + 1)
    else if d.month < 12 then Date(d.year, d.month + 1, 1)
    else Date(d.year + 1, 1, 1)
  }

  function Prev(d: Date): (r: Date)
    requires Valid(d)
    ensures Valid(r)
  {
    if d.day > 1 then Date(d.year, d.month, d.day - 1)
    else if d.month > 1 then Date(d.year, d.month - 1, DaysInMonth(d.year, d.month - 1))
    else Date(d.year - 1, 12, 31)
  }

  /** `y / 4 - (y - 1) / 4` counts whether 4 divides `y`; likewise for 100 and 400. */
  lemma StepBy4(y: int)
    ensures y / 4 - (y - 1) / 4 == if y % 4 == 0 then 1 else 0
  {
  }

  lemma StepBy100(y: int)
    ensures y / 100 - (y - 1) / 100 == if y % 100 == 0 then 1 else 0
  {
  }

  lemma StepBy400(y: int)
    ensures y / 400 - (y - 1) / 400 == if y % 400 == 0 then 1 else 0
  {
  }

  /** A year has 366 days when it is a leap year and 365 otherwise. */
  lemma YearLength(y: int)
    ensures DaysBeforeYear(y + 1) - DaysBeforeYear(y) == if IsLeapYear(y) then 366 else 365
  {
    var a, b, c := y / 4 - (y - 1) / 4, y / 100 - (y - 1) / 100, y / 400 - (y - 1) / 400;
    assert DaysBeforeYear(y + 1) - DaysBeforeYear(y) == 365 + a - b + c;
    StepBy4(y);
    StepBy100(y);
    StepBy400(y);
    if y % 400 == 0 {
      assert y % 100 == 0 && y % 4 == 0 by { assert y == 400 * (y / 400); }
    } else if y % 100 == 0 {
      assert y % 4 == 0 by { assert y == 100 * (y / 100); }
    }
  }

  /** The day after a date has the next day number. */
  lemma NextNumber(d: Date)
    requires Valid(d)
    ensures DayNumber(Next(d)) == DayNumber(d) + 1
  {
    if d.day == DaysInMonth(d.year, d.month) && d.month == 12 {
      YearLength(d.year);
    }
  }

  /** The day before a date has the previous day number. */
  lemma PrevNumber(d: Date)
    requires Valid(d)
    ensures DayNumber(Prev(d)) == DayNumber(d) - 1
  {
    if d.day == 1 && d.month == 1 {
      YearLength(d.year - 1);
    }
  }

  /** QDate::addDays: `n` steps forward (or backward when negative). */
  function AddDays(d: Date, n: int): (r: Date)
    requires Valid(d)
    ensures Valid(r)
    decreases if n < 0 then -n else n
  {
    if n == 0 then d
    else if n > 0 then AddDays(Next(d), n - 1)
    else AddDays(Prev(d), n + 1)
  }

  /** Adding `n` days moves the day number by exactly `n`. */
  lemma {:induction false} AddDaysNumber(d: Date, n: int)
    requires Valid(d)
    ensures DayNumber(AddDays(d, n)) == DayNumber(d) + n
    decreases if n < 0 then -n else n
  {
    if n > 0 {
      NextNumber(d);
      AddDaysNumber(Next(d), n - 1);
    } else if n < 0 {
      PrevNumber(d);
      AddDaysNumber(Prev(d), n + 1);
    }
  }

  /** QDate::daysTo. */
  function DaysTo(a: Date, b: Date): int
    requires Valid(a) && Valid(b)
  {
    DayNumber(b) - DayNumber(a)
  }

  /** QDate::dayOfWeek: 1 for Monday through 7 for Sunday. */
  function DayOfWeek(d: Date): (r: int)
    requires Valid(d)
    ensures 1 <= r <= 7
  {
    WeekdayOf(DayNumber(d))
  }

  /** The weekday of a day number; day 1 is a Monday. */
  function WeekdayOf(n: int): (r: int)
    ensures 1 <= r <= 7
  {
    (n - 1) % 7 + 1
  }

  /** Day numbers a whole number of weeks apart fall on the same weekday. */
  lemma WeekdayShift(a: Date, b: Date, k: int)
    requires Valid(a) && Valid(b)
    requires DayNumber(b) == DayNumber(a) + 7 * k
    ensures DayOfWeek(b) == DayOfWeek(a)
  {
    ModWeek(DayNumber(a) - 1, k);
  }

  lemma ModWeek(x: int, k: int)
    ensures (x + 7 * k) % 7 == x % 7
  {
    assert x + 7 * k == 7 * (x / 7 + k) + x % 7;
  }

  /** Stepping back from day `n` by its weekday less one lands on a Monday,
      and six days after that Monday is a Sunday. */
  lemma {:induction false} MondayOf(n: int)
    ensures WeekdayOf(n - (WeekdayOf(n) - 1)) == 1
    ensures WeekdayOf(n - (WeekdayOf(n) - 1) + 6) == 7
  {
    var q := (n - 1) / 7;
    assert n - 1 == 7 * q + (n - 1) % 7;
    assert n - (WeekdayOf(n) - 1) - 1 == 7 * q;
    assert n - (WeekdayOf(n) - 1) + 6 - 1 == 7 * q + 6;
  }

  /** QDate::addMonths: the same day in the month `n` months away, clamped
      to the length of that month. */
  function AddMonths(d: Date, n: int): (r: Date)
    requires Valid(d)
    ensures Valid(r)
    ensures r.day == Min(d.day, DaysInMonth(r.year, r.month))
    ensures 12 * r.year + r.month == 12 * d.year + d.month + n
  {
    var index := 12 * d.year + (d.month - 1) + n;
    var y, m := index / 12, index % 12 + 1;
    Date(y, m, Min(d.day, DaysInMonth(y, m)))
  }

  /** The first day of the month of `d`. */
  function FirstOfMonth(d: Date): (r: Date)
    requires Valid(d)
    ensures Valid(r) && r.year == d.year && r.month == d.month && r.day == 1
  {
    Date(d.year, d.month, 1)
  }

  /** The last day of the month of `d`. */
  function LastOfMonth(d: Date): (r: Date)
    requires Valid(d)
    ensures Valid(r) && r.year == d.year && r.month == d.month
    ensures Next(r).day == 1
  {
    Date(d.year, d.month, DaysInMonth(d.year, d.month))
  }

  /** Every day of a month lies between its first and its last day. */
  lemma MonthBounds(d: Date)
    requires Valid(d)
    ensures DayNumber(FirstOfMonth(d)) <= DayNumber(d) <= DayNumber(LastOfMonth(d))
  {
  }
}

/**
 Dates of the proleptic Gregorian calendar as day numbers; day 0 is 0001-01-01, a Monday. This is the part of chrono's
 `NaiveDate` that the schedule search uses: the month, the day of the month and the weekday of a date.
 */
module Calendar {

  /** A date: the number of days since 0001-01-01. */
  type Date = int

  const DAYS_PER_CYCLE: nat := 146_097

  predicate IsLeap(year: int) {
    year % 4 == 0 && (year % 100 != 0 || year % 400 == 0)
  }

  function YearLength(year: int): nat {
    if IsLeap(year) then 366 else 365
  }

  function MonthLength(year: int, month: int): nat {
    if month == 2 then (if IsLeap(year) then 29 else 28)
    else if month in {4, 6, 9, 11} then 30
    else 31
  }

  /** The first day of a year. */
  function YearStart(year: int): Date {
    365 * (year - 1) + (year - 1) / 4 - (year - 1) / 100 + (year - 1) / 400
  }

  /** Days of the year before the first of `month`, for 1 to 13. */
  function DaysBefore(year: int, month: int): nat
    requires 1 <= month <= 13
  {
    if month == 1 then 0 else DaysBefore(year, month - 1) + MonthLength(year, month - 1)
  }

  function DateOf(year: int, month: int, day: int): Date
    requires 1 <= month <= 12
  {
    YearStart(year) + DaysBefore(year, month) + day - 1
  }

  predicate IsDate(year: int, month: int, day: int) {
    1 <= month <= 12 && 1 <= day <= MonthLength(year, month)
  }

  lemma ShiftFours(y: int, k: int)
    ensures (y + 4 * k) / 4 == y / 4 + k && (y + 4 * k) % 4 == y % 4
  {
  }

  lemma ShiftHundreds(y: int, k: int)
    ensures (y + 100 * k) / 100 == y / 100 + k && (y + 100 * k) % 100 == y % 100
  {
  }

  lemma ShiftCycles(y: int, k: int)
    ensures (y + 400 * k) / 400 == y / 400 + k && (y + 400 * k) % 400 == y % 400
  {
  }

  lemma YearStartNext(year: int)
    ensures YearStart(year + 1) == YearStart(year) + YearLength(year)
  {
    var y := year - 1;
    assert year / 4 == y / 4 + if year % 4 == 0 then 1 else 0;
    assert year / 100 == y / 100 + if year % 100 == 0 then 1 else 0;
    assert year / 400 == y / 400 + if year % 400 == 0 then 1 else 0;
    Hundreds(year);
  }

  lemma Hundreds(year: int)
    ensures year % 100 == 0 ==> year % 4 == 0
    ensures year % 400 == 0 ==> year % 100 == 0
  {
    var q, r := year / 100, year / 400;
    ShiftFours(0, 25 * q);
    ShiftHundreds(0, 4 * r);
    WholeQuotient(year, 100, q);
    WholeQuotient(year, 400, r);
  }

  lemma WholeQuotient(a: int, d: int, q: int)
    requires d > 0 && q == a / d
    ensures a % d == 0 ==> a == d * q
  {
  }

  lemma YearStartCycle(year: int, k: int)
    ensures YearStart(year + 400 * k) == YearStart(year) + DAYS_PER_CYCLE * k
  {
    ShiftFours(year - 1, 100 * k);
    ShiftHundreds(year - 1, 4 * k);
    ShiftCycles(year - 1, k);
    assert year + 400 * k - 1 == year - 1 + 4 * (100 * k) == year - 1 + 100 * (4 * k) == year - 1 + 400 * k;
  }

  lemma DaysBeforeTable(year: int)
    ensures DaysBefore(year, 1) == 0 && DaysBefore(year, 2) == 31
    ensures var leap := if IsLeap(year) then 1 else 0;
      && DaysBefore(year, 3) == 59 + leap && DaysBefore(year, 4) == 90 + leap && DaysBefore(year, 5) == 120 + leap
      && DaysBefore(year, 6) == 151 + leap && DaysBefore(year, 7) == 181 + leap && DaysBefore(year, 8) == 212 + leap
      && DaysBefore(year, 9) == 243 + leap && DaysBefore(year, 10) == 273 + leap && DaysBefore(year, 11) == 304 + leap
      && DaysBefore(year, 12) == 334 + leap && DaysBefore(year, 13) == YearLength(year)
  {
  }

  /** The year of a day within the first 400-year cycle, counting up from `year`. */
  function YearFrom(day: nat, year: int): (y: int)
    requires 1 <= year && YearStart(year) <= day
    ensures year <= y && YearStart(y) <= day < YearStart(y + 1)
    decreases day - YearStart(year)
  {
    YearStartNext(year);
    if day < YearStart(year + 1) then year else YearFrom(day, year + 1)
  }

  function YearOf(date: Date): (y: int)
    ensures YearStart(y) <= date < YearStart(y + 1)
  {
    var cycle, day := date / DAYS_PER_CYCLE, date % DAYS_PER_CYCLE;
    var y := YearFrom(day, 1);
    YearStartCycle(y, cycle);
    YearStartCycle(y + 1, cycle);
    y + 400 * cycle
  }

  /** The month of a day of the year, counting up from `month`. */
  function MonthFrom(year: int, dayOfYear: nat, month: int): (m: int)
    requires 1 <= month <= 12 && DaysBefore(year, month) <= dayOfYear < YearLength(year)
    ensures month <= m <= 12 && DaysBefore(year, m) <= dayOfYear < DaysBefore(year, m + 1)
    decreases 12 - month
  {
    DaysBeforeTable(year);
    if month == 12 || dayOfYear < DaysBefore(year, month + 1) then month
    else MonthFrom(year, dayOfYear, month + 1)
  }

  function MonthOf(date: Date): (m: int)
    ensures 1 <= m <= 12
  {
    var y := YearOf(date);
    YearStartNext(y);
    MonthFrom(y, date - YearStart(y), 1)
  }

  function DayOf(date: Date): int {
    var y := YearOf(date);
    date - YearStart(y) - DaysBefore(y, MonthOf(date)) + 1
  }

  /** 0 for Sunday to 6 for Saturday. */
  function WeekdayOf(date: Date): (w: int)
    ensures 0 <= w <= 6
  {
    (date + 1) % 7
  }

  lemma {:induction false} YearStartMonotone(a: int, b: int)
    requires a <= b
    ensures YearStart(a) + 365 * (b - a) <= YearStart(b) <= YearStart(a) + 366 * (b - a)
    decreases b - a
  {
    if a < b {
      YearStartMonotone(a, b - 1);
      YearStartNext(b - 1);
    }
  }

  lemma {:induction false} DaysBeforeMonotone(year: int, a: int, b: int)
    requires 1 <= a <= b <= 13
    ensures DaysBefore(year, a) + 28 * (b - a) <= DaysBefore(year, b)
    decreases b - a
  {
    if a < b {
      DaysBeforeMonotone(year, a, b - 1);
    }
  }

  /** Every date reads as a valid year, month and day, which name it. */
  lemma CivilOfDate(date: Date)
    ensures IsDate(YearOf(date), MonthOf(date), DayOf(date))
    ensures DateOf(YearOf(date), MonthOf(date), DayOf(date)) == date
  {
    var y := YearOf(date);
    YearStartNext(y);
    var m := MonthOf(date);
    assert DaysBefore(y, m + 1) == DaysBefore(y, m) + MonthLength(y, m);
  }

  /** A day of a year belongs to that year only, and a day of a month to that month only. */
  lemma YearIs(date: Date, year: int)
    requires YearStart(year) <= date < YearStart(year + 1)
    ensures YearOf(date) == year
  {
    var y := YearOf(date);
    hide YearStart, YearOf;
    if y < year { YearStartMonotone(y + 1, year); }
    if y > year { YearStartMonotone(year + 1, y); }
  }

  lemma MonthIs(date: Date, month: int)
    requires 1 <= month <= 12
    requires var y := YearOf(date); DaysBefore(y, month) <= date - YearStart(y) < DaysBefore(y, month + 1)
    ensures MonthOf(date) == month
  {
    var y := YearOf(date);
    YearStartNext(y);
    assert DaysBefore(y, 1) == 0;
    hide YearStart, YearOf, DaysBefore, MonthFrom;
    var m := MonthFrom(y, date - YearStart(y), 1);
    if m < month { DaysBeforeMonotone(y, m + 1, month); }
    if m > month { DaysBeforeMonotone(y, month + 1, m); }
  }

  /** Every valid year, month and day are what their date reads as: the two directions are inverse. */
  lemma DateOfCivil(year: int, month: int, day: int)
    requires IsDate(year, month, day)
    ensures var d := DateOf(year, month, day); YearOf(d) == year && MonthOf(d) == month && DayOf(d) == day
  {
    var d := DateOf(year, month, day);
    assert DaysBefore(year, month + 1) == DaysBefore(year, month) + MonthLength(year, month);
    DaysBeforeTable(year);
    DaysBeforeMonotone(year, month + 1, 13);
    YearStartNext(year);
    hide YearStart, DaysBefore;
    YearIs(d, year);
    MonthIs(d, month);
  }
}

/**
 When the five-year search of `next_after` finds a fire time. The comment on the horizon (schedule.rs, line 7) says that
 a valid expression always fires within it; this is the exact condition, in zones without gaps.
 */
module Horizon {
  import opened Wrappers
  import opened Text
  import opened Calendar
  import opened Cron
  import opened CronGrammar
  import opened Schedule

  /** The clocks of the zone skip no minute. */
  ghost predicate GapFree(z: Zone) {
    forall m :: !z.resolve(m).Missing?
  }

  /** The length of a month in a common year. */
  function CommonLength(month: int): nat {
    MonthLength(1, month)
  }

  /** Day of month and month alone choose the days, and they choose no day that every year has. */
  ghost predicate OnlyRareDays(s: Schedule) {
    && s.daysOfMonth.restricted && !s.daysOfWeek.restricted
    && forall month, day :: 1 <= month <= 12 && 1 <= day <= 31 && s.months.Contains(month) && s.daysOfMonth.Contains(day)
         ==> day > CommonLength(month)
  }

  predicate IsLeapDay(date: Date) {
    MonthOf(date) == 2 && DayOf(date) == 29
  }

  /** The largest allowed value up to `v`; below zero if there is none. */
  function LastAllowed(f: CronField, v: nat): int {
    if f.Contains(v) then v else if v == 0 then -1 else LastAllowed(f, v - 1)
  }

  /** The last allowed minute of a day. */
  function LastMinute(s: Schedule): int {
    LastAllowed(s.hours, 23) * 60 + LastAllowed(s.minutes, 59)
  }

  /** A leap year's 29 February among the dates from `low` on and before `high`. */
  ghost predicate LeapDayWithin(low: Date, high: Date) {
    exists year :: IsLeap(year) && low <= DateOf(year, 2, 29) < high
  }

  /** If today, tomorrow or the day after is a leap day, its last allowed minute has come. */
  ghost predicate NearLeapDayIsSpent(s: Schedule, z: Zone, after: Instant) {
    forall date :: LocalDate(z, after) <= date < LocalDate(z, after) + 3 && IsLeapDay(date) ==>
      Image(z, date * 1440 + LastMinute(s)).Some? && Image(z, date * 1440 + LastMinute(s)).value <= after
  }

  /** What decides about 29 February, where it is allowed at all. */
  ghost predicate NoLeapDayLeft(s: Schedule, z: Zone, after: Instant) {
    s.months.Contains(2) && s.daysOfMonth.Contains(29) ==>
      && !LeapDayWithin(LocalDate(z, after) + 3, LocalDate(z, after) + SEARCH_HORIZON_DAYS)
      && NearLeapDayIsSpent(s, z, after)
  }

  /** No leap day in reach of the search has an allowed time after `after`. */
  ghost predicate LeapDaysPassed(s: Schedule, z: Zone, after: Instant) {
    forall m :: InSearch(z, after, m) && IsLeapDay(DateOfMinute(m)) ==> Passed(s, z, after, m)
  }

  // ----- A matching date in reach is found

  /** An allowed time of day. */
  lemma SomeTime(s: Schedule) returns (hour: int, minute: int)
    requires Parsed(s)
    ensures 0 <= hour < 24 && 0 <= minute < 60 && s.hours.Contains(hour) && s.minutes.Contains(minute)
  {
    hour :| 0 <= hour <= 23 && s.hours.Contains(hour);
    minute :| 0 <= minute <= 59 && s.minutes.Contains(minute);
  }

  /** Three days ahead every image is later. */
  lemma LaterImages(z: Zone, after: Instant, m: LocalMinute)
    requires ValidZone(z) && GapFree(z) && (LocalDate(z, after) + 3) * 1440 <= m
    ensures Image(z, m).Some? && Image(z, m).value > after
  {
    ZonesHaveImagesInOrder(z);
    assert Image(z, m).Some?;
    hide ValidZone, Image, LocalDate;
    assert Image(z, m).value > m * MINUTE - DAY;
    assert after < (LocalDate(z, after) + 2) * DAY;
    assert m * MINUTE >= (LocalDate(z, after) + 3) * 1440 * MINUTE;
  }

  /** A matching date three days or more ahead, within the horizon, is a find for the search. */
  lemma DateIsFound(s: Schedule, z: Zone, after: Instant, date: Date)
    requires Parsed(s) && ValidZone(z) && GapFree(z) && DayMatches(s, date)
    requires LocalDate(z, after) + 3 <= date < LocalDate(z, after) + SEARCH_HORIZON_DAYS
    ensures !NothingAhead(s, z, after)
  {
    hide Parsed, DayMatches, ValidZone, GapFree, Image;
    var hour, minute := SomeTime(s);
    var m := date * 1440 + hour * 60 + minute;
    MinuteParts(date, hour, minute);
    LaterImages(z, after, m);
    assert InSearch(z, after, m) && !Passed(s, z, after, m);
  }

  /** All of next year lies ahead and in reach. */
  lemma NextYearIsInReach(start: Date, date: Date, k: int)
    requires 1 <= k <= 4
    requires var y := YearOf(start + 3);
      || YearStart(y + k) <= date < YearStart(y + k) + 60
      || (k == 1 && YearStart(y + 1) <= date < YearStart(y + 2))
    ensures start + 3 <= date < start + SEARCH_HORIZON_DAYS
  {
    var y := YearOf(start + 3);
    YearStartMonotone(y + 1, y + k);
    YearStartMonotone(y, y + k);
    YearStartMonotone(y, y + 2);
  }

  lemma DateInYear(year: int, month: int, day: int)
    requires IsDate(year, month, day)
    ensures YearStart(year) <= DateOf(year, month, day) < YearStart(year + 1)
  {
    DateOfCivil(year, month, day);
  }

  /** A date of next year that matches is found. */
  lemma NextYearIsFound(s: Schedule, z: Zone, after: Instant, month: int, day: int)
    requires Parsed(s) && ValidZone(z) && GapFree(z)
    requires var y := YearOf(LocalDate(z, after) + 3) + 1; IsDate(y, month, day) && DayMatches(s, DateOf(y, month, day))
    ensures !NothingAhead(s, z, after)
  {
    hide Parsed, DayMatches, ValidZone, GapFree, YearStart, YearOf, DateOf, MonthOf, DayOf, MonthLength, NothingAhead;
    var y := YearOf(LocalDate(z, after) + 3) + 1;
    DateInYear(y, month, day);
    NextYearIsInReach(LocalDate(z, after), DateOf(y, month, day), 1);
    DateIsFound(s, z, after, DateOf(y, month, day));
  }

  /** The first week of a month has every weekday. */
  lemma FirstWeek(year: int, month: int, weekday: int) returns (day: int)
    requires 1 <= month <= 12 && 0 <= weekday <= 6
    ensures 1 <= day <= 7 && WeekdayOf(DateOf(year, month, day)) == weekday
  {
    hide YearStart, DaysBefore;
    var first := DateOf(year, month, 1);
    day := 1 + (weekday - WeekdayOf(first)) % 7;
    assert DateOf(year, month, day) == first + day - 1;
  }

  /** A date in an allowed month matches if its weekday or its day of month is given and allowed, as the rule has it. */
  lemma MatchesBy(s: Schedule, year: int, month: int, day: int)
    requires IsDate(year, month, day) && s.months.Contains(month)
    requires if s.daysOfWeek.restricted then s.daysOfWeek.Contains(WeekdayOf(DateOf(year, month, day)))
             else s.daysOfMonth.restricted ==> s.daysOfMonth.Contains(day)
    ensures DayMatches(s, DateOf(year, month, day))
  {
    DateOfCivil(year, month, day);
    hide YearOf, MonthOf, DayOf, WeekdayOf, DateOf, IsDate;
  }

  /** With the weekday given, the first week of an allowed month has a matching day. */
  lemma WeekdaysAreFound(s: Schedule, z: Zone, after: Instant)
    requires Parsed(s) && ValidZone(z) && GapFree(z) && s.daysOfWeek.restricted
    ensures !NothingAhead(s, z, after)
  {
    var month :| 1 <= month <= 12 && s.months.Contains(month);
    var weekday :| 0 <= weekday <= 6 && s.daysOfWeek.Contains(weekday);
    hide Parsed, DayMatches, ValidZone, GapFree, YearOf, DateOf, WeekdayOf, NothingAhead;
    var y := YearOf(LocalDate(z, after) + 3) + 1;
    var day := FirstWeek(y, month, weekday);
    MatchesBy(s, y, month, day);
    NextYearIsFound(s, z, after, month, day);
  }

  /** So has any allowed day that every year has. */
  lemma CommonDaysAreFound(s: Schedule, z: Zone, after: Instant, month: int, day: int)
    requires Parsed(s) && ValidZone(z) && GapFree(z) && !s.daysOfWeek.restricted
    requires 1 <= month <= 12 && 1 <= day <= CommonLength(month) && s.months.Contains(month)
    requires s.daysOfMonth.restricted ==> s.daysOfMonth.Contains(day)
    ensures !NothingAhead(s, z, after)
  {
    hide Parsed, DayMatches, ValidZone, GapFree, YearOf, DateOf, NothingAhead;
    var y := YearOf(LocalDate(z, after) + 3) + 1;
    MatchesBy(s, y, month, day);
    NextYearIsFound(s, z, after, month, day);
  }

  // ----- The exact condition

  /** The search comes up empty exactly when only rare days are chosen and the leap days in reach have nothing left. */
  lemma OnlyLeapDaysMatter(s: Schedule, z: Zone, after: Instant)
    requires Parsed(s) && ValidZone(z) && GapFree(z)
    ensures NothingAhead(s, z, after) <==> OnlyRareDays(s) && LeapDaysPassed(s, z, after)
  {
    hide ValidZone, GapFree;
    if OnlyRareDays(s) && LeapDaysPassed(s, z, after) {
      forall m | InSearch(z, after, m) ensures Passed(s, z, after, m) {
        var date := DateOfMinute(m);
        CivilOfDate(date);
        if !IsLeapDay(date) {
          OnlyLeapDaysAreRare(s, date);
        }
      }
    }
    if NothingAhead(s, z, after) {
      if s.daysOfWeek.restricted {
        WeekdaysAreFound(s, z, after);
      } else if !s.daysOfMonth.restricted {
        var month :| 1 <= month <= 12 && s.months.Contains(month);
        CommonDaysAreFound(s, z, after, month, 1);
      } else {
        forall month, day | 1 <= month <= 12 && 1 <= day <= 31 && s.months.Contains(month) && s.daysOfMonth.Contains(day)
          ensures day > CommonLength(month)
        {
          if day <= CommonLength(month) { CommonDaysAreFound(s, z, after, month, day); }
        }
      }
    }
  }

  lemma LongerThanCommon(date: Date)
    ensures !IsLeapDay(date) ==> 1 <= MonthOf(date) <= 12 && 1 <= DayOf(date) <= CommonLength(MonthOf(date)) <= 31
  {
    CivilOfDate(date);
    hide YearOf, MonthOf, DayOf, DateOf;
  }

  /** A schedule of rare days matches no date but a leap day. */
  lemma OnlyLeapDaysAreRare(s: Schedule, date: Date)
    requires OnlyRareDays(s) && !IsLeapDay(date)
    ensures !DayMatches(s, date)
  {
    hide YearOf, MonthOf, DayOf, WeekdayOf, CommonLength, IsLeapDay;
    LongerThanCommon(date);
  }

  // ----- The last minute of a day

  lemma {:induction false} LastAllowedIsLast(f: CronField, v: nat)
    ensures var l := LastAllowed(f, v);
      && -1 <= l <= v && (l >= 0 ==> f.Contains(l)) && forall w :: l < w <= v ==> !f.Contains(w)
  {
    if !f.Contains(v) && v > 0 {
      LastAllowedIsLast(f, v - 1);
    }
  }

  /** A time of day that is allowed, and no allowed one is later. */
  lemma LastMinuteIsLast(s: Schedule, m: LocalMinute)
    requires Parsed(s)
    ensures var date := DateOfMinute(m);
      && 0 <= LastMinute(s) < 1440
      && s.hours.Contains(LastMinute(s) / 60) && s.minutes.Contains(LastMinute(s) % 60)
      && (s.hours.Contains(m % 1440 / 60) && s.minutes.Contains(m % 60) ==> m <= date * 1440 + LastMinute(s))
  {
    LastAllowedIsLast(s.hours, 23);
    LastAllowedIsLast(s.minutes, 59);
    var hour, minute := SomeTime(s);
    var h, l := LastAllowed(s.hours, 23), LastAllowed(s.minutes, 59);
    assert hour <= h && minute <= l;
    hide Parsed, LastAllowed;
    assert (h * 60 + l) / 60 == h && (h * 60 + l) % 60 == l;
    TimeOfDay(m);
  }

  lemma TimeOfDay(m: LocalMinute)
    ensures m == DateOfMinute(m) * 1440 + m % 1440 / 60 * 60 + m % 60
    ensures 0 <= m % 1440 / 60 <= 23 && 0 <= m % 60 <= 59
  {
    var d, r := m / 1440, m % 1440;
    assert m == 1440 * d + r && r == r / 60 * 60 + r % 60;
    assert m == 60 * (24 * d + r / 60) + r % 60;
    RestOfHour(24 * d + r / 60, r % 60);
  }

  // ----- Leap days by years

  lemma LeapDayOfYear(date: Date)
    requires IsLeapDay(date)
    ensures IsLeap(YearOf(date)) && date == DateOf(YearOf(date), 2, 29)
  {
    CivilOfDate(date);
    hide YearOf, MonthOf, DayOf, DateOf, IsLeap;
  }

  lemma LeapDayOfLeapYear(year: int)
    requires IsLeap(year)
    ensures IsDate(year, 2, 29) && IsLeapDay(DateOf(year, 2, 29))
  {
    DateOfCivil(year, 2, 29);
    hide YearOf, MonthOf, DayOf, DateOf;
  }

  lemma LeapDayMatches(s: Schedule, date: Date)
    requires s.daysOfMonth.restricted && !s.daysOfWeek.restricted && IsLeapDay(date)
    ensures DayMatches(s, date) <==> s.months.Contains(2) && s.daysOfMonth.Contains(29)
  {
    hide MonthOf, DayOf, WeekdayOf;
  }

  /** The last minute of a leap day near `after` is one the search looks at. */
  lemma NearLeapDayIsSeen(s: Schedule, z: Zone, after: Instant, date: Date)
    requires Parsed(s) && GapFree(z) && OnlyRareDays(s) && s.months.Contains(2) && s.daysOfMonth.Contains(29)
    requires LocalDate(z, after) <= date < LocalDate(z, after) + 3 && IsLeapDay(date) && NothingAhead(s, z, after)
    ensures Image(z, date * 1440 + LastMinute(s)).Some? && Image(z, date * 1440 + LastMinute(s)).value <= after
  {
    var m := date * 1440 + LastMinute(s);
    LastMinuteIsLast(s, m);
    LeapDayMatches(s, date);
    hide Parsed, LastMinute, DayMatches, OnlyRareDays, IsLeapDay;
    var hour, minute := LastMinute(s) / 60, LastMinute(s) % 60;
    MinuteParts(date, hour, minute);
    assert m == date * 1440 + hour * 60 + minute;
    assert InSearch(z, after, m) && Passed(s, z, after, m);
  }

  lemma LeapYearIsFound(s: Schedule, z: Zone, after: Instant, year: int)
    requires Parsed(s) && ValidZone(z) && GapFree(z) && OnlyRareDays(s) && NothingAhead(s, z, after)
    requires s.months.Contains(2) && s.daysOfMonth.Contains(29) && IsLeap(year)
    ensures var start := LocalDate(z, after); !(start + 3 <= DateOf(year, 2, 29) < start + SEARCH_HORIZON_DAYS)
  {
    hide Parsed, ValidZone, GapFree, NothingAhead, IsLeapDay, DateOf, IsLeap, DayMatches;
    LeapDayOfLeapYear(year);
    LeapDayMatches(s, DateOf(year, 2, 29));
    var start := LocalDate(z, after);
    if start + 3 <= DateOf(year, 2, 29) < start + SEARCH_HORIZON_DAYS {
      DateIsFound(s, z, after, DateOf(year, 2, 29));
    }
  }

  lemma NoLeapDayIsLeft(s: Schedule, z: Zone, after: Instant)
    requires Parsed(s) && ValidZone(z) && GapFree(z) && OnlyRareDays(s) && NothingAhead(s, z, after)
    ensures NoLeapDayLeft(s, z, after)
  {
    hide Parsed, ValidZone, GapFree, NothingAhead, OnlyRareDays, IsLeapDay, DateOf, IsLeap, LastMinute, Image;
    if s.months.Contains(2) && s.daysOfMonth.Contains(29) {
      var start := LocalDate(z, after);
      forall year | IsLeap(year) ensures !(start + 3 <= DateOf(year, 2, 29) < start + SEARCH_HORIZON_DAYS) {
        LeapYearIsFound(s, z, after, year);
      }
      forall date | start <= date < start + 3 && IsLeapDay(date)
        ensures Image(z, date * 1440 + LastMinute(s)).Some? && Image(z, date * 1440 + LastMinute(s)).value <= after
      {
        NearLeapDayIsSeen(s, z, after, date);
      }
    }
  }

  lemma SearchDates(z: Zone, after: Instant, m: LocalMinute)
    requires InSearch(z, after, m)
    ensures LocalDate(z, after) <= DateOfMinute(m) < LocalDate(z, after) + SEARCH_HORIZON_DAYS
  {
  }

  /** A leap day in reach is near, when no leap day is left. */
  lemma LeapDayIsNear(s: Schedule, z: Zone, after: Instant, date: Date)
    requires NoLeapDayLeft(s, z, after) && s.months.Contains(2) && s.daysOfMonth.Contains(29) && IsLeapDay(date)
    requires LocalDate(z, after) <= date < LocalDate(z, after) + SEARCH_HORIZON_DAYS
    ensures Image(z, date * 1440 + LastMinute(s)).Some? && Image(z, date * 1440 + LastMinute(s)).value <= after
  {
    LeapDayOfYear(date);
    hide DateOf, YearOf, IsLeap, IsLeapDay, LastMinute, Image;
    assert date < LocalDate(z, after) + 3;
  }

  /** A minute of a leap day in reach, when no leap day is left. */
  lemma LeapMinuteIsPassed(s: Schedule, z: Zone, after: Instant, m: LocalMinute)
    requires Parsed(s) && ValidZone(z) && GapFree(z) && OnlyRareDays(s) && NoLeapDayLeft(s, z, after)
    requires InSearch(z, after, m) && IsLeapDay(DateOfMinute(m))
    ensures Passed(s, z, after, m)
  {
    var date := DateOfMinute(m);
    LeapDayMatches(s, date);
    LastMinuteIsLast(s, m);
    SearchDates(z, after, m);
    hide Parsed, DayMatches, IsLeapDay, OnlyRareDays, LastMinute, Image, ValidZone, GapFree, InSearch, NoLeapDayLeft;
    if Matches(s, m) {
      LeapDayIsNear(s, z, after, date);
      ImagesGrow(z, m, date * 1440 + LastMinute(s));
    }
  }

  /**
   In a zone without gaps the search comes up empty exactly when the expression chooses its days by day of month and
   month alone, chooses none that every year has, and 29 February, if it is allowed, neither lies in the search beyond
   the next three days nor has a minute left in them.
   */
  lemma SearchFailsExactlyWhen(s: Schedule, z: Zone, after: Instant)
    requires Parsed(s) && ValidZone(z) && GapFree(z)
    ensures NothingAhead(s, z, after) <==> OnlyRareDays(s) && NoLeapDayLeft(s, z, after)
  {
    hide Parsed, ValidZone, GapFree, NothingAhead, OnlyRareDays, NoLeapDayLeft, IsLeapDay, InSearch, Passed;
    OnlyLeapDaysMatter(s, z, after);
    if NothingAhead(s, z, after) {
      NoLeapDayIsLeft(s, z, after);
    }
    if OnlyRareDays(s) && NoLeapDayLeft(s, z, after) {
      forall m | InSearch(z, after, m) && IsLeapDay(DateOfMinute(m)) ensures Passed(s, z, after, m) {
        LeapMinuteIsPassed(s, z, after, m);
      }
    }
  }

  // ----- Leap days in reach

  /** Of four years in a row one is a leap year, unless one is a century that is none. */
  lemma LeapYearAhead(year: int) returns (leap: int)
    requires forall y :: year + 1 <= y <= year + 4 && y % 100 == 0 ==> y % 400 == 0
    ensures year + 1 <= leap <= year + 4 && IsLeap(leap)
  {
    leap := year + 4 - year % 4;
    assert leap % 4 == 0;
  }

  lemma LeapDayInReach(start: Date, leap: int)
    requires var year := YearOf(start + 3); year + 1 <= leap <= year + 4
    ensures start + 3 <= DateOf(leap, 2, 29) < start + SEARCH_HORIZON_DAYS
  {
    DaysBeforeTable(leap);
    var date := DateOf(leap, 2, 29);
    assert YearStart(leap) <= date < YearStart(leap) + 60;
    hide YearStart, YearOf, DateOf;
    NextYearIsInReach(start, date, leap - YearOf(start + 3));
  }

  /** So 29 February is found as well, unless a century without one is near. */
  lemma LeapDayIsFound(s: Schedule, z: Zone, after: Instant)
    requires Parsed(s) && ValidZone(z) && GapFree(z) && s.months.Contains(2) && s.daysOfMonth.Contains(29)
    requires var year := YearOf(LocalDate(z, after) + 3);
      forall y :: year + 1 <= y <= year + 4 && y % 100 == 0 ==> y % 400 == 0
    ensures !NothingAhead(s, z, after)
  {
    hide Parsed, DayMatches, ValidZone, GapFree, YearStart, YearOf, DateOf, NothingAhead;
    if OnlyRareDays(s) {
      var leap := LeapYearAhead(YearOf(LocalDate(z, after) + 3));
      assert IsDate(leap, 2, 29);
      MatchesBy(s, leap, 2, 29);
      LeapDayInReach(LocalDate(z, after), leap);
      DateIsFound(s, z, after, DateOf(leap, 2, 29));
    } else {
      SearchFailsExactlyWhen(s, z, after);
    }
  }
}

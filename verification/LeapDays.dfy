/** Two expressions for which the comment on the search horizon (schedule.rs, line 7) is wrong. */
module LeapDays {
  import opened Wrappers
  import opened Text
  import opened Calendar
  import opened Cron
  import opened CronGrammar
  import opened Schedule
  import opened Horizon
  import opened Expressions

  lemma SmallNumbers()
    ensures ParseU32("0") == Some(0) && ParseU32("1") == Some(1) && ParseU32("2") == Some(2)
    ensures ParseU32("29") == Some(29) && ParseU32("30") == Some(30)
  {
    hide ParseU32;
    OneDigit('0');
    OneDigit('1');
    OneDigit('2');
    TwoDigits('2', '9');
    TwoDigits('3', '0');
    assert "0" == ['0'] && "1" == ['1'] && "2" == ['2'] && "29" == ['2', '9'] && "30" == ['3', '0'];
  }

  /** Midnight of one day of February. */
  ghost predicate FebruaryOnly(s: Schedule, day: int) {
    && s.daysOfMonth.restricted && !s.daysOfWeek.restricted
    && (forall v :: s.minutes.Contains(v) <==> v == 0)
    && (forall v :: s.hours.Contains(v) <==> v == 0)
    && (forall v :: s.daysOfMonth.Contains(v) <==> v == day)
    && (forall v :: s.months.Contains(v) <==> v == 2)
  }

  lemma WeekdayField()
    ensures Field("*", 0, 7, WEEKDAY_NAMES).Ok?
    ensures !FoldSunday(Field("*", 0, 7, WEEKDAY_NAMES).value).restricted
    ensures FieldFits(FoldSunday(Field("*", 0, 7, WEEKDAY_NAMES).value), 0, 6)
  {
    NamesArePlain();
    StarAllowsAll("*", 0, 7, WEEKDAY_NAMES);
    AcceptedFieldAllows("*", 0, 7, WEEKDAY_NAMES);
    FoldedFits(Field("*", 0, 7, WEEKDAY_NAMES).value);
  }

  lemma FebruaryFields(dayText: string, day: u32)
    requires ParseU32(dayText) == Some(day) && 1 <= day <= 31
    ensures var r := ParseFields(["0", "0", dayText, "2", "*"]);
      r.Ok? && Parsed(r.value) && FebruaryOnly(r.value, day)
  {
    hide Field, PlainNames, FieldFits, FoldSunday, ParseU32;
    SmallNumbers();
    NamesArePlain();
    ValueField("0", 0, 0, 59, []);
    ValueField("0", 0, 0, 23, []);
    ValueField(dayText, day, 1, 31, []);
    ValueField("2", 2, 1, 12, MONTH_NAMES);
    WeekdayField();
    FieldsFit("0", 0, 59, []);
    FieldsFit("0", 0, 23, []);
    FieldsFit(dayText, 1, 31, []);
    FieldsFit("2", 1, 12, MONTH_NAMES);
  }

  lemma FebruaryExpression<Z>(dayText: string, day: u32, timezone: string, zones: map<string, Z>)
    requires ParseU32(dayText) == Some(day) && 1 <= day <= 31 && IsWord(dayText) && Trim(timezone) in zones
    ensures var r := Parse("0 0 " + dayText + " 2 *", timezone, zones);
      r.Ok? && Parsed(r.value.0) && FebruaryOnly(r.value.0, day) && r.value.1 == zones[Trim(timezone)]
  {
    hide ParseFields, ParseU32, Parsed, FebruaryOnly, Parse, Trim, IsWord, Join;
    FebruaryFields(dayText, day);
    FiveWords(dayText);
    WholeExpression(["0", "0", dayText, "2", "*"], timezone, zones);
    JoinedFields(dayText);
  }

  lemma FiveWords(dayText: string)
    requires IsWord(dayText)
    ensures forall w :: w in ["0", "0", dayText, "2", "*"] ==> IsWord(w)
  {
    assert IsWord("0") && IsWord("2") && IsWord("*");
    hide IsWord;
  }

  lemma JoinedFields(dayText: string)
    ensures Join(["0", "0", dayText, "2", "*"], " ") == "0 0 " + dayText + " 2 *"
  {
    JoinFive("0", "0", dayText, "2", "*");
  }

  /** A schedule of the thirtieth of February fires never, and no search finds it. */
  lemma NeverFires(s: Schedule, z: Zone, after: Instant)
    requires Parsed(s) && FebruaryOnly(s, 30) && ValidZone(z) && GapFree(z)
    ensures NothingAhead(s, z, after) && forall t :: !FiresAt(s, z, t)
  {
    hide Parsed, ValidZone, GapFree;
    forall m ensures !Matches(s, m) {
      NoThirtieth(s, DateOfMinute(m));
      hide DayMatches, FebruaryOnly;
    }
    hide Matches, FebruaryOnly;
  }

  lemma NoThirtieth(s: Schedule, date: Date)
    requires FebruaryOnly(s, 30)
    ensures !DayMatches(s, date)
  {
    CivilOfDate(date);
    hide YearOf, MonthOf, DayOf, DateOf, WeekdayOf, CronField.Contains;
  }

  /** `0 0 30 2 *` is accepted, in every zone without gaps, and fires never. */
  lemma ThirtiethOfFebruary(timezone: string, zones: map<string, Zone>, after: Instant)
    requires Trim(timezone) in zones && ValidZone(zones[Trim(timezone)]) && GapFree(zones[Trim(timezone)])
    ensures var r := Parse("0 0 30 2 *", timezone, zones);
      && r.Ok? && NothingAhead(r.value.0, r.value.1, after) && forall t :: !FiresAt(r.value.0, r.value.1, t)
  {
    hide Parse, NothingAhead, Parsed, ValidZone, GapFree, ParseU32, FebruaryOnly, FiresAt, Trim;
    SmallNumbers();
    assert "0 0 " + "30" + " 2 *" == "0 0 30 2 *";
    FebruaryExpression("30", 30, timezone, zones);
    var r := Parse("0 0 30 2 *", timezone, zones).value;
    NeverFires(r.0, r.1, after);
  }

  // ----- The leap day of 2096

  lemma YearOf2096(date: Date)
    requires DateOf(2096, 2, 29) < date < DateOf(2104, 2, 29)
    ensures 2096 <= YearOf(date) <= 2104
  {
    DaysBeforeTable(2096);
    DaysBeforeTable(2104);
    var y := YearOf(date);
    assert DateOf(2096, 2, 29) == YearStart(2096) + 59 && DateOf(2104, 2, 29) == YearStart(2104) + 59;
    assert YearStart(2105) == YearStart(2104) + 366;
    hide YearStart, YearOf, DateOf;
    if y >= 2105 { YearStartMonotone(2105, y); }
    if y < 2096 { YearStartMonotone(y + 1, 2096); }
  }

  /** The two leap days are 2,921 days apart. */
  lemma LeapDaysApart()
    ensures DateOf(2104, 2, 29) == DateOf(2096, 2, 29) + 2_921
  {
    DaysBeforeTable(2096);
    DaysBeforeTable(2104);
  }

  /** After 29 February 2096 the next leap day is eight years away, in 2104. */
  lemma NoLeapDayFrom2096(date: Date)
    requires DateOf(2096, 2, 29) < date < DateOf(2104, 2, 29)
    ensures !IsLeapDay(date)
  {
    hide YearStart, YearOf, MonthOf, DayOf, DaysBefore, DateOf, IsLeap;
    YearOf2096(date);
    CivilOfDate(date);
    if 2096 < YearOf(date) < 2104 {
      CommonYears(YearOf(date));
    }
  }

  lemma CommonYears(year: int)
    requires 2097 <= year <= 2103
    ensures MonthLength(year, 2) == 28
  {
    assert year == 2097 || year == 2098 || year == 2099 || year == 2100 || year == 2101 || year == 2102 || year == 2103;
  }

  lemma MidnightIsLast(s: Schedule)
    requires FebruaryOnly(s, 29)
    ensures LastMinute(s) == 0
  {
    LastAllowedIsLast(s.hours, 23);
    LastAllowedIsLast(s.minutes, 59);
    hide LastAllowed;
    assert s.hours.Contains(0) && s.minutes.Contains(0);
  }

  lemma NoLeapYearFrom2096(year: int)
    requires IsLeap(year)
    ensures !(DateOf(2096, 2, 29) < DateOf(year, 2, 29) < DateOf(2104, 2, 29))
  {
    LeapDayOfLeapYear(year);
    hide DateOf, IsLeapDay, IsLeap;
    if DateOf(2096, 2, 29) < DateOf(year, 2, 29) < DateOf(2104, 2, 29) {
      NoLeapDayFrom2096(DateOf(year, 2, 29));
    }
  }

  lemma UtcMidnight(date: Date)
    ensures LocalDate(FixedZone(0), date * DAY) == date && Image(FixedZone(0), date * 1440) == Some(date * DAY)
  {
  }

  lemma SpentAtMidnight(s: Schedule, today: Date)
    requires LastMinute(s) == 0 && forall date :: today < date < today + 3 ==> !IsLeapDay(date)
    ensures NearLeapDayIsSpent(s, FixedZone(0), today * DAY)
  {
    UtcMidnight(today);
    hide FixedZone, Image, IsLeapDay, LastMinute;
    assert today * 1440 + 0 == today * 1440;
  }

  lemma FebruaryIsRare(s: Schedule, day: int)
    requires FebruaryOnly(s, day) && day >= 29
    ensures OnlyRareDays(s)
  {
    hide CronField.Contains;
  }

  lemma RareInUtc(s: Schedule)
    requires FebruaryOnly(s, 29)
    ensures OnlyRareDays(s) && ValidZone(FixedZone(0)) && GapFree(FixedZone(0)) && LastMinute(s) == 0
  {
    FixedZoneIsValid(0);
    hide LastMinute, ValidZone, FixedZone, FebruaryOnly, OnlyRareDays;
    MidnightIsLast(s);
    FebruaryIsRare(s, 29);
  }

  lemma NothingWithin(today: Date)
    requires DateOf(2096, 2, 29) <= today && today + SEARCH_HORIZON_DAYS <= DateOf(2104, 2, 29)
    ensures !LeapDayWithin(today + 3, today + SEARCH_HORIZON_DAYS)
    ensures forall date :: today < date < today + 3 ==> !IsLeapDay(date)
  {
    hide DateOf, IsLeap, IsLeapDay;
    forall year | IsLeap(year) ensures !(today + 3 <= DateOf(year, 2, 29) < today + SEARCH_HORIZON_DAYS) {
      NoLeapYearFrom2096(year);
    }
    forall date | today < date < today + 3 ensures !IsLeapDay(date) {
      NoLeapDayFrom2096(date);
    }
  }

  /** From midnight of 29 February 2096 on, the search for 29 February comes up empty while that of 2104 is out of reach. */
  lemma NoneAfter2096(s: Schedule, today: Date)
    requires Parsed(s) && FebruaryOnly(s, 29)
    requires DateOf(2096, 2, 29) <= today && today + SEARCH_HORIZON_DAYS <= DateOf(2104, 2, 29)
    ensures NothingAhead(s, FixedZone(0), today * DAY)
  {
    hide NothingAhead, Parsed, ValidZone, GapFree, DateOf, FebruaryOnly, IsLeapDay, LastMinute, OnlyRareDays, LeapDayWithin,
      NearLeapDayIsSpent, FixedZone, Image;
    RareInUtc(s);
    NothingWithin(today);
    UtcMidnight(today);
    SpentAtMidnight(s, today);
    SearchFailsExactlyWhen(s, FixedZone(0), today * DAY);
  }

  lemma LeapDayIsChosen(s: Schedule, year: int)
    requires FebruaryOnly(s, 29) && IsLeap(year)
    ensures DayMatches(s, DateOf(year, 2, 29))
  {
    LeapDayOfLeapYear(year);
    hide DateOf, DayMatches, IsLeapDay, IsLeap;
    LeapDayMatches(s, DateOf(year, 2, 29));
  }

  /** Within reach it is found. */
  lemma LeapDayInReachIsFound(s: Schedule, today: Date, year: int)
    requires Parsed(s) && FebruaryOnly(s, 29) && IsLeap(year)
    requires today + 3 <= DateOf(year, 2, 29) < today + SEARCH_HORIZON_DAYS
    ensures !NothingAhead(s, FixedZone(0), today * DAY)
  {
    hide NothingAhead, Parsed, ValidZone, GapFree, DateOf, FebruaryOnly, LastMinute, OnlyRareDays, FixedZone, Image, IsLeap,
      DayMatches;
    RareInUtc(s);
    LeapDayIsChosen(s, year);
    UtcMidnight(today);
    DateIsFound(s, FixedZone(0), today * DAY, DateOf(year, 2, 29));
  }

  /** The search reaches 1,829 days ahead and no further. */
  lemma ReachOfTheSearch(s: Schedule, today: Date)
    requires Parsed(s) && FebruaryOnly(s, 29) && DateOf(2096, 2, 29) <= today <= DateOf(2104, 2, 29) - 3
    ensures NothingAhead(s, FixedZone(0), today * DAY) <==> DateOf(2104, 2, 29) - today >= 1_830
  {
    assert IsLeap(2104);
    hide NothingAhead, Parsed, DateOf, FebruaryOnly, FixedZone, IsLeap;
    if DateOf(2104, 2, 29) - today >= 1_830 {
      NoneAfter2096(s, today);
    } else {
      LeapDayInReachIsFound(s, today, 2104);
    }
  }

  /** It fires on every leap day, though, and so in 2104. */
  lemma LeapDaysFire(s: Schedule, year: int)
    requires FebruaryOnly(s, 29) && IsLeap(year)
    ensures FiresAt(s, FixedZone(0), DateOf(year, 2, 29) * DAY)
  {
    var date := DateOf(year, 2, 29);
    LeapDayOfLeapYear(year);
    LeapDayMatches(s, date);
    UtcMidnight(date);
    MinuteParts(date, 0, 0);
    hide DateOf, DayMatches, IsLeapDay, FixedZone, Image;
    assert date * 1440 + 0 * 60 + 0 == date * 1440;
    assert Matches(s, date * 1440);
  }

  /**
   `0 0 29 2 *` in UTC fires on 29 February 2104, but between 29 February 2096 and then a search finds it only from less
   than 1,830 days before.
   */
  lemma LeapDayOf2096(today: Date)
    requires DateOf(2096, 2, 29) <= today <= DateOf(2104, 2, 29) - 3
    ensures var r := Parse("0 0 29 2 *", "UTC", map["UTC" := FixedZone(0)]);
      && r.Ok? && r.value.1 == FixedZone(0)
      && (NothingAhead(r.value.0, FixedZone(0), today * DAY) <==> DateOf(2104, 2, 29) - today >= 1_830)
      && FiresAt(r.value.0, FixedZone(0), DateOf(2104, 2, 29) * DAY)
      && DateOf(2104, 2, 29) - DateOf(2096, 2, 29) == 2_921
  {
    assert IsLeap(2104);
    hide Parse, NothingAhead, Parsed, ParseU32, FebruaryOnly, FiresAt, Trim, DateOf, FixedZone, IsLeap;
    SmallNumbers();
    LeapDayText();
    LeapDaysApart();
    FebruaryExpression("29", 29, "UTC", map["UTC" := FixedZone(0)]);
    var s := Parse("0 0 29 2 *", "UTC", map["UTC" := FixedZone(0)]).value.0;
    ReachOfTheSearch(s, today);
    LeapDaysFire(s, 2104);
  }

  lemma LeapDayText()
    ensures "0 0 " + "29" + " 2 *" == "0 0 29 2 *" && Trim("UTC") == "UTC" && IsWord("29")
  {
    TrimTrimmed("UTC");
  }
}

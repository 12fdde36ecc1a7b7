/** The days of an expression (schedule.rs, `day_matches`) against those of the POSIX crontab utility. */
module PosixDays {
  import opened Wrappers
  import opened Text
  import opened Calendar
  import opened Cron
  import opened CronGrammar
  import opened Schedule
  import opened Horizon
  import opened Expressions
  import opened LeapDays

  /**
   The days of IEEE Std 1003.1-2017, crontab, INPUT FILES: with the weekday a star, month and day of month choose; with
   only the weekday given, it chooses; otherwise either choice will do.
   */
  predicate PosixDay(s: Schedule, date: Date) {
    var dates := s.months.Contains(MonthOf(date)) && s.daysOfMonth.Contains(DayOf(date));
    var weekday := s.daysOfWeek.Contains(WeekdayOf(date));
    if !s.daysOfWeek.restricted then dates
    else if !s.months.restricted && !s.daysOfMonth.restricted then weekday
    else dates || weekday
  }

  ghost predicate RulesAgree(s: Schedule) {
    forall date :: DayMatches(s, date) == PosixDay(s, date)
  }

  ghost predicate AllMonths(s: Schedule) {
    forall month :: 1 <= month <= 12 ==> s.months.Contains(month)
  }

  ghost predicate AllWeekdays(s: Schedule) {
    forall weekday :: 0 <= weekday <= 6 ==> s.daysOfWeek.Contains(weekday)
  }

  /** What the fields have to be for the rules to agree on every date. */
  ghost predicate AgreeingFields(s: Schedule) {
    || !s.daysOfWeek.restricted
    || (!s.months.restricted && !s.daysOfMonth.restricted)
    || (AllMonths(s) && (s.daysOfMonth.restricted || AllWeekdays(s)))
  }

  lemma AgreeOnDate(s: Schedule, date: Date)
    requires Parsed(s) && AgreeingFields(s)
    ensures DayMatches(s, date) == PosixDay(s, date)
  {
    CivilOfDate(date);
    assert MonthLength(YearOf(date), MonthOf(date)) <= 31;
    hide YearOf, MonthOf, DayOf, DateOf, WeekdayOf, MonthLength, CronField.Contains;
  }

  /** POSIX takes the given weekdays of a month that is not given, the source does not. */
  lemma MonthsDiffer(s: Schedule, month: int)
    requires Parsed(s) && s.daysOfWeek.restricted && (s.months.restricted || s.daysOfMonth.restricted)
    requires 1 <= month <= 12 && !s.months.Contains(month)
    ensures !RulesAgree(s)
  {
    var weekday :| 0 <= weekday <= 6 && s.daysOfWeek.Contains(weekday);
    hide Parsed, YearOf, MonthOf, DayOf, DateOf, WeekdayOf, CronField.Contains;
    var day := FirstWeek(1, month, weekday);
    var date := DateOf(1, month, day);
    DateOfCivil(1, month, day);
    assert DayMatches(s, date) != PosixDay(s, date);
  }

  /** With the day of month a star, POSIX takes every day of the given months, the source the given weekdays only. */
  lemma WeekdaysDiffer(s: Schedule, weekday: int)
    requires Parsed(s) && s.daysOfWeek.restricted && s.months.restricted && !s.daysOfMonth.restricted && AllMonths(s)
    requires 0 <= weekday <= 6 && !s.daysOfWeek.Contains(weekday)
    ensures !RulesAgree(s)
  {
    hide YearOf, MonthOf, DayOf, DateOf, WeekdayOf, CronField.Contains;
    var day := FirstWeek(1, 1, weekday);
    var date := DateOf(1, 1, day);
    DateOfCivil(1, 1, day);
    assert DayMatches(s, date) != PosixDay(s, date);
  }

  /**
   The two rules choose the same days if and only if the weekday is a star, or month and day of month both are, or every
   month is allowed and the day of month is given or every weekday is allowed.
   */
  lemma RulesAgreeExactlyWhen(s: Schedule)
    requires Parsed(s)
    ensures RulesAgree(s) <==> AgreeingFields(s)
  {
    hide Parsed, DayMatches, PosixDay, CronField.Contains;
    if AgreeingFields(s) {
      forall date ensures DayMatches(s, date) == PosixDay(s, date) {
        AgreeOnDate(s, date);
      }
    } else if !AllMonths(s) {
      var month :| 1 <= month <= 12 && !s.months.Contains(month);
      MonthsDiffer(s, month);
    } else {
      var weekday :| 0 <= weekday <= 6 && !s.daysOfWeek.Contains(weekday);
      WeekdaysDiffer(s, weekday);
    }
  }

  // ----- An expression that shows the difference

  lemma MondayFields()
    ensures var r := ParseFields(["0", "0", "*", "1", "1"]);
      && r.Ok? && Parsed(r.value)
      && !r.value.daysOfMonth.restricted && r.value.months.restricted && r.value.daysOfWeek.restricted
      && (forall v :: r.value.months.Contains(v) <==> v == 1)
      && (forall v :: r.value.daysOfWeek.Contains(v) <==> v == 1)
  {
    hide Field, PlainNames, FieldFits, ParseU32;
    SmallNumbers();
    NamesArePlain();
    ValueField("0", 0, 0, 59, []);
    ValueField("0", 0, 0, 23, []);
    StarField(1, 31, []);
    ValueField("1", 1, 1, 12, MONTH_NAMES);
    ValueField("1", 1, 0, 7, WEEKDAY_NAMES);
    FieldsFit("0", 0, 59, []);
    FieldsFit("0", 0, 23, []);
    FieldsFit("*", 1, 31, []);
    FieldsFit("1", 1, 12, MONTH_NAMES);
    FieldsFit("1", 0, 7, WEEKDAY_NAMES);
    AcceptedFieldAllows("1", 0, 7, WEEKDAY_NAMES);
    FoldedFits(Field("1", 0, 7, WEEKDAY_NAMES).value);
  }

  lemma MondayText()
    ensures Join(["0", "0", "*", "1", "1"], " ") == "0 0 * 1 1"
    ensures forall w :: w in ["0", "0", "*", "1", "1"] ==> IsWord(w)
  {
    JoinFive("0", "0", "*", "1", "1");
    assert IsWord("0") && IsWord("1") && IsWord("*");
  }

  lemma DaysOf2024()
    ensures IsDate(2024, 2, 5) && DateOf(2024, 2, 5) == 738_920
    ensures IsDate(2024, 1, 2) && DateOf(2024, 1, 2) == 738_886
  {
    DaysBeforeTable(2024);
    assert YearStart(2024) == 738_885;
  }

  /** 5 February 2024 was a Monday, 2 January 2024 a Tuesday. */
  lemma TwoDates()
    ensures MonthOf(DateOf(2024, 2, 5)) == 2 && WeekdayOf(DateOf(2024, 2, 5)) == 1
    ensures MonthOf(DateOf(2024, 1, 2)) == 1 && DayOf(DateOf(2024, 1, 2)) == 2 && WeekdayOf(DateOf(2024, 1, 2)) == 2
  {
    hide YearOf, MonthOf, DayOf, DateOf, IsDate;
    DaysOf2024();
    DateOfCivil(2024, 2, 5);
    DateOfCivil(2024, 1, 2);
  }

  /** `0 0 * 1 1` is accepted; for POSIX it fires on 5 February 2024, a Monday, and on 2 January 2024, a Tuesday. */
  lemma MondaysOfJanuary<Z>(timezone: string, zones: map<string, Z>)
    requires Trim(timezone) in zones
    ensures var r := Parse("0 0 * 1 1", timezone, zones);
      && r.Ok? && !RulesAgree(r.value.0)
      && !DayMatches(r.value.0, DateOf(2024, 2, 5)) && PosixDay(r.value.0, DateOf(2024, 2, 5))
      && !DayMatches(r.value.0, DateOf(2024, 1, 2)) && PosixDay(r.value.0, DateOf(2024, 1, 2))
  {
    hide Parse, ParseFields, DateOf, Join, IsWord, Trim, YearOf, MonthOf, DayOf, WeekdayOf, CronField.Contains;
    MondayFields();
    MondayText();
    TwoDates();
    WholeExpression(["0", "0", "*", "1", "1"], timezone, zones);
    var s := Parse("0 0 * 1 1", timezone, zones).value.0;
    assert DayMatches(s, DateOf(2024, 2, 5)) != PosixDay(s, DateOf(2024, 2, 5));
  }
}

/** Zones whose clocks are changed once: a repeated local minute fires at its first occurrence, a skipped one not at all. */
module Zones {
  import opened Wrappers
  import opened Text
  import opened Calendar
  import opened Cron
  import opened Schedule
  import opened Expressions

  /** At `at` the offset, in seconds east of UTC, goes from `before` to `then`. */
  function ChangedZone(at: Instant, before: int, after: int): Zone {
    Zone(m => Resolved(m * MINUTE - before * SECOND, m * MINUTE - after * SECOND, at),
         t => t + (if t < at then before else after) * SECOND)
  }

  /** Of the two candidates the first counts before the change and the second from it on. */
  function Resolved(early: Instant, late: Instant, at: Instant): LocalResult {
    if early < at && at <= late then Ambiguous(early, late)
    else if early < at then LocalResult.Single(early)
    else if at <= late then LocalResult.Single(late)
    else Missing
  }

  lemma ShowsAre(at: Instant, before: int, after: int, t: Instant, m: LocalMinute)
    ensures Shows(ChangedZone(at, before, after), t, m) <==>
      if t < at then t == m * MINUTE - before * SECOND else t == m * MINUTE - after * SECOND
  {
  }

  lemma ChangedZoneResolves(at: Instant, before: int, after: int, m: LocalMinute)
    ensures Resolves(ChangedZone(at, before, after), m)
  {
    var z := ChangedZone(at, before, after);
    forall t ensures Shows(z, t, m) <==>
      if t < at then t == m * MINUTE - before * SECOND else t == m * MINUTE - after * SECOND
    {
      ShowsAre(at, before, after, t, m);
    }
    var early, late := m * MINUTE - before * SECOND, m * MINUTE - after * SECOND;
    assert z.resolve(m) == Resolved(early, late, at);
    hide ChangedZone, Shows;
  }

  /** The clocks show a minute first before the change, if they do at all. */
  lemma FirstShownIs(at: Instant, before: int, after: int, m: LocalMinute, t: Instant)
    ensures FirstShown(ChangedZone(at, before, after), m, t) <==>
      var early, late := m * MINUTE - before * SECOND, m * MINUTE - after * SECOND;
      if early < at then t == early else late >= at && t == late
  {
    var z := ChangedZone(at, before, after);
    forall u ensures Shows(z, u, m) <==>
      if u < at then u == m * MINUTE - before * SECOND else u == m * MINUTE - after * SECOND
    {
      ShowsAre(at, before, after, u, m);
    }
    var early, late := m * MINUTE - before * SECOND, m * MINUTE - after * SECOND;
    assert early < at ==> Shows(z, early, m);
    assert late >= at ==> Shows(z, late, m);
    hide ChangedZone, Shows;
  }

  lemma ChangedZoneIsValid(at: Instant, before: int, after: int)
    requires -86_400 < before < 86_400 && -86_400 < after < 86_400
    ensures ValidZone(ChangedZone(at, before, after))
  {
    var z := ChangedZone(at, before, after);
    forall m ensures Resolves(z, m) {
      ChangedZoneResolves(at, before, after, m);
    }
    forall m, t ensures FirstShown(z, m, t) <==>
      var early, late := m * MINUTE - before * SECOND, m * MINUTE - after * SECOND;
      if early < at then t == early else late >= at && t == late
    {
      FirstShownIs(at, before, after, m, t);
    }
    hide Resolves, FirstShown;
    forall m, t | FirstShown(z, m, t) ensures t % SECOND == 0 {
      assert t == (m * 60 - before) * SECOND || t == (m * 60 - after) * SECOND;
    }
    forall u, m, t | FirstShown(z, m, t) && DateOfMinute(m) < LocalDate(z, u) ensures t <= u {
      MinuteBeforeDate(m, z.local(u));
    }
  }

  // ----- What the change does to fire times

  /** A minute that the clocks show twice fires at its first occurrence and not at its second. */
  lemma ARepeatedMinuteFiresOnce(s: Schedule, at: Instant, before: int, after: int, m: LocalMinute)
    requires Matches(s, m) && m * MINUTE - before * SECOND < at <= m * MINUTE - after * SECOND
    ensures FiresAt(s, ChangedZone(at, before, after), m * MINUTE - before * SECOND)
    ensures !FiresAt(s, ChangedZone(at, before, after), m * MINUTE - after * SECOND)
  {
    hide FirstShown, Matches, ChangedZone;
    var z, late := ChangedZone(at, before, after), m * MINUTE - after * SECOND;
    FirstShownIs(at, before, after, m, m * MINUTE - before * SECOND);
    forall n ensures !FirstShown(z, n, late) {
      FirstShownIs(at, before, after, n, late);
      FirstShownIs(at, before, after, m, late);
    }
  }

  /** A minute that the clocks skip does not fire. */
  lemma ASkippedMinuteFiresNever(at: Instant, before: int, after: int, m: LocalMinute, t: Instant)
    requires m * MINUTE - after * SECOND < at <= m * MINUTE - before * SECOND
    ensures !FirstShown(ChangedZone(at, before, after), m, t)
  {
    FirstShownIs(at, before, after, m, t);
  }

  // ----- The end of summer time in New York

  const NEW_YORK_WORDS: seq<string> := ["30", "1", "*", "*", "*"]

  /** At 06:00 of a date in UTC the clocks of New York go back from 02:00 to 01:00. */
  function NewYork(date: Date): Zone {
    ChangedZone(date * 86_400_000_000_000 + 6 * 3_600_000_000_000, -14_400, -18_000)
  }

  lemma ThirtyAndOne()
    ensures ParseU32("30") == Some(30) && ParseU32("1") == Some(1)
  {
    hide ParseU32;
    TwoDigits('3', '0');
    OneDigit('1');
    assert "30" == ['3', '0'] && "1" == ['1'];
  }

  lemma NewYorkWords()
    ensures Join(NEW_YORK_WORDS, " ") == "30 1 * * *" && forall w :: w in NEW_YORK_WORDS ==> IsWord(w)
    ensures Spells("30", Exactly(30), [], 0) && Spells("1", Exactly(1), [], 0)
  {
    hide Join, ParseU32, ToAsciiLowercase;
    JoinFive("30", "1", "*", "*", "*");
    ThirtyAndOne();
    assert IsWord("30") && IsWord("1") && IsWord("*");
  }

  lemma HalfPastOne<Z>(timezone: string, zones: map<string, Z>)
    requires Trim(timezone) in zones
    ensures var r := Parse("30 1 * * *", timezone, zones);
      r.Ok? && r.value.1 == zones[Trim(timezone)] && forall m :: Matches(r.value.0, m) <==> m % 60 == 30 && m % 1440 / 60 == 1
  {
    hide Parse, Join, Trim, IsWord, Matches, MonthOf, DayOf, WeekdayOf, ParseU32;
    NewYorkWords();
    assert Spells("*", Any, [], 0) && Spells("*", Any, MONTH_WORDS, 1) && Spells("*", Any, DAY_WORDS, 0);
    hide Spells;
    SingleValuesMean(NEW_YORK_WORDS, Exactly(30), Exactly(1), Any, Any, Any, timezone, zones);
  }

  lemma MinuteFires(s: Schedule, z: Zone, m: LocalMinute, t: Instant)
    requires Matches(s, m) && FirstShown(z, m, t)
    ensures FiresAt(s, z, t)
  {
  }

  lemma FiresInNewYork(s: Schedule, date: Date)
    requires Matches(s, date * 1440 + 90) && Matches(s, date * 1440 + 1530)
    ensures var midnight := date * 86_400_000_000_000;
      && FiresAt(s, NewYork(date), midnight + 19_800_000_000_000)
      && !FiresAt(s, NewYork(date), midnight + 23_400_000_000_000)
      && FiresAt(s, NewYork(date), midnight + 86_400_000_000_000 + 23_400_000_000_000)
  {
    hide ChangedZone, FirstShown, Matches, FiresAt;
    var at, next := date * 86_400_000_000_000 + 6 * 3_600_000_000_000, date * 1440 + 1530;
    ARepeatedMinuteFiresOnce(s, at, -14_400, -18_000, date * 1440 + 90);
    FirstShownIs(at, -14_400, -18_000, next, next * MINUTE + 18_000 * SECOND);
    MinuteFires(s, NewYork(date), next, next * MINUTE + 18_000 * SECOND);
  }

  lemma TimeOfNewYork(date: Date)
    ensures var m := date * 1440 + 90; m % 60 == 30 && m % 1440 / 60 == 1
    ensures var m := date * 1440 + 1530; m % 60 == 30 && m % 1440 / 60 == 1
  {
    MinuteParts(date, 1, 30);
    MinuteParts(date + 1, 1, 30);
  }

  /**
   `30 1 * * *` in New York on the date the clocks go back: it fires at 05:30 UTC, when they first show 01:30, and not at
   06:30, when they show it again; on the next date it fires at 06:30.
   */
  lemma ClocksGoBack(date: Date, timezone: string, zones: map<string, Zone>)
    requires Trim(timezone) in zones && zones[Trim(timezone)] == NewYork(date)
    ensures ValidZone(NewYork(date))
    ensures var r := Parse("30 1 * * *", timezone, zones);
      var midnight := date * 86_400_000_000_000;
      && r.Ok? && r.value.1 == NewYork(date)
      && FiresAt(r.value.0, NewYork(date), midnight + 19_800_000_000_000)
      && !FiresAt(r.value.0, NewYork(date), midnight + 23_400_000_000_000)
      && FiresAt(r.value.0, NewYork(date), midnight + 86_400_000_000_000 + 23_400_000_000_000)
  {
    ChangedZoneIsValid(date * 86_400_000_000_000 + 6 * 3_600_000_000_000, -14_400, -18_000);
    hide Parse, Trim, Matches, FiresAt, NewYork, ValidZone;
    HalfPastOne(timezone, zones);
    TimeOfNewYork(date);
    FiresInNewYork(Parse("30 1 * * *", timezone, zones).value.0, date);
  }
}

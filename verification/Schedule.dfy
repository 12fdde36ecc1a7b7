/**
 The cron schedule of an objective (crates/core/src/objective/schedule.rs): parsing the five fields, the days that
 match, and the two searches through the calendar.
 */
module Schedule {
  import opened Wrappers
  import opened Text
  import opened Calendar
  import opened Cron
  import opened CronGrammar

  /** Nanoseconds since 0001-01-01T00:00 UTC. */
  type Instant = int

  const SECOND: int := 1_000_000_000
  const MINUTE: int := 60_000_000_000
  const DAY: int := 86_400_000_000_000

  /** A local date and time of whole minutes: minutes since 0001-01-01T00:00. */
  type LocalMinute = int

  const SEARCH_HORIZON_DAYS: int := 1830

  datatype ScheduleError = FieldCount(n: nat) | InvalidField(field: string, problem: Problem) | UnknownTimezone(name: string)

  datatype Schedule = Schedule(
    minutes: CronField,
    hours: CronField,
    daysOfMonth: CronField,
    months: CronField,
    daysOfWeek: CronField)

  // ----- Parsing

  function ExpandAlias(expression: string): string {
    var lower := ToAsciiLowercase(expression);
    if lower == "@hourly" then "0 * * * *"
    else if lower == "@daily" || lower == "@midnight" then "0 0 * * *"
    else if lower == "@weekly" then "0 0 * * 0"
    else if lower == "@monthly" then "0 0 1 * *"
    else expression
  }

  /** Weekday 7 is Sunday too. */
  function FoldSunday(f: CronField): CronField {
    if f.Contains(7) then f.(allowed := f.allowed[0 := true]) else f
  }

  function CheckField(raw: string, min: u32, max: u32, names: Names): Result<CronField, ScheduleError>
    requires Bounds(min, max)
  {
    match Field(raw, min, max, names)
    case Ok(f) => Ok(f)
    case Err(e) => Err(InvalidField(raw, e))
  }

  /** The weekday field is checked first, then the others in order. */
  function ParseFields(fields: seq<string>): Result<Schedule, ScheduleError>
    requires |fields| == 5
  {
    match CheckField(fields[4], 0, 7, WEEKDAY_NAMES) case Err(e) => Err(e) case Ok(weekdays) =>
    match CheckField(fields[0], 0, 59, []) case Err(e) => Err(e) case Ok(minutes) =>
    match CheckField(fields[1], 0, 23, []) case Err(e) => Err(e) case Ok(hours) =>
    match CheckField(fields[2], 1, 31, []) case Err(e) => Err(e) case Ok(days) =>
    match CheckField(fields[3], 1, 12, MONTH_NAMES) case Err(e) => Err(e) case Ok(months) =>
    Ok(Schedule(minutes, hours, days, months, FoldSunday(weekdays)))
  }

  /** `zones` stands for the time zone database; its names are looked up trimmed. */
  function Parse<Z>(expression: string, timezone: string, zones: map<string, Z>): Result<(Schedule, Z), ScheduleError> {
    if Trim(timezone) !in zones then Err(UnknownTimezone(timezone))
    else
      var fields := SplitWhitespace(ExpandAlias(Trim(expression)));
      if |fields| != 5 then Err(FieldCount(|fields|))
      else
        match ParseFields(fields)
        case Err(e) => Err(e)
        case Ok(s) => Ok((s, zones[Trim(timezone)]))
  }

  /** Every field allows some value within its bounds, and all of them when it is written as a star. */
  ghost predicate FieldFits(f: CronField, min: int, max: int) {
    && (exists v :: min <= v <= max && f.Contains(v))
    && (!f.restricted ==> forall v :: min <= v <= max ==> f.Contains(v))
  }

  ghost predicate Parsed(s: Schedule) {
    && FieldFits(s.minutes, 0, 59) && FieldFits(s.hours, 0, 23) && FieldFits(s.daysOfMonth, 1, 31)
    && FieldFits(s.months, 1, 12) && FieldFits(s.daysOfWeek, 0, 6)
  }

  lemma FieldsFit(raw: string, min: u32, max: u32, names: Names)
    requires Bounds(min, max) && PlainNames(names) && Field(raw, min, max, names).Ok?
    ensures FieldFits(Field(raw, min, max, names).value, min, max)
  {
    AcceptedFieldAllows(raw, min, max, names);
  }

  /** Whatever the parser accepts is a schedule whose fields all allow something. */
  lemma ParsedSchedulesFit<Z>(expression: string, timezone: string, zones: map<string, Z>)
    requires Parse(expression, timezone, zones).Ok?
    ensures Parsed(Parse(expression, timezone, zones).value.0)
  {
    NamesArePlain();
    var fields := SplitWhitespace(ExpandAlias(Trim(expression)));
    hide Field, FieldFits, PlainNames;
    FieldsFit(fields[0], 0, 59, []);
    FieldsFit(fields[1], 0, 23, []);
    FieldsFit(fields[2], 1, 31, []);
    FieldsFit(fields[3], 1, 12, MONTH_NAMES);
    FieldsFit(fields[4], 0, 7, WEEKDAY_NAMES);
    AcceptedFieldAllows(fields[4], 0, 7, WEEKDAY_NAMES);
    FoldedFits(Field(fields[4], 0, 7, WEEKDAY_NAMES).value);
  }

  lemma FoldedFits(f: CronField)
    requires FieldFits(f, 0, 7) && |f.allowed| == 8
    ensures FieldFits(FoldSunday(f), 0, 6)
    ensures forall v :: 0 <= v <= 6 ==> (FoldSunday(f).Contains(v) <==> f.Contains(v) || (v == 0 && f.Contains(7)))
  {
    var v :| 0 <= v <= 7 && f.Contains(v);
    if v == 7 {
      assert FoldSunday(f).Contains(0);
    } else {
      assert FoldSunday(f).Contains(v);
    }
    if !f.restricted {
      forall w | 0 <= w <= 6 ensures FoldSunday(f).Contains(w) {
        assert f.Contains(w);
      }
    }
  }

  // ----- Matching days

  predicate DayMatches(s: Schedule, date: Date) {
    if !s.months.Contains(MonthOf(date)) then false
    else
      var dom := s.daysOfMonth.Contains(DayOf(date));
      var dow := s.daysOfWeek.Contains(WeekdayOf(date));
      match (s.daysOfMonth.restricted, s.daysOfWeek.restricted)
      case (true, true) => dom || dow
      case (true, false) => dom
      case (false, true) => dow
      case (false, false) => true
  }

  // ----- Time zones

  /** What chrono answers to a local time: none in a gap, two when the clock was set back. */
  datatype LocalResult = Missing | Single(utc: Instant) | Ambiguous(earliest: Instant, latest: Instant)

  /** `local` is what the clocks of the zone show at an instant, in nanoseconds since 0001-01-01T00:00. */
  datatype Zone = Zone(resolve: LocalMinute -> LocalResult, local: Instant -> int)

  function LocalDate(z: Zone, t: Instant): Date {
    z.local(t) / DAY
  }

  /** At `t` the clocks show the local minute `m`, and no fraction of it has passed. */
  predicate Shows(z: Zone, t: Instant, m: LocalMinute) {
    z.local(t) == m * MINUTE
  }

  /** The answer to a local time names every instant at which the clocks show it, the earlier one first. */
  ghost predicate Resolves(z: Zone, m: LocalMinute) {
    match z.resolve(m)
    case Missing => forall t :: !Shows(z, t, m)
    case Single(t) => forall u :: Shows(z, u, m) <==> u == t
    case Ambiguous(t, v) => t < v && forall u :: Shows(z, u, m) <==> u == t || u == v
  }

  /** The clocks show `m` for the first time at `t`. */
  ghost predicate FirstShown(z: Zone, m: LocalMinute, t: Instant) {
    Shows(z, t, m) && forall u :: Shows(z, u, m) ==> t <= u
  }

  function DateOfMinute(m: LocalMinute): Date {
    m / 1440
  }

  /**
   What the search relies on in the time zone database: local times are resolved to the instants that show them; a local
   minute is first shown on a whole second, later than every minute before it, and no later than any instant of a later
   local date; and offsets stay within a day either way.
   */
  ghost predicate ValidZone(z: Zone) {
    && (forall m :: Resolves(z, m))
    && (forall m, t :: FirstShown(z, m, t) ==> t % SECOND == 0)
    && (forall m, n, t, u :: m < n && FirstShown(z, m, t) && FirstShown(z, n, u) ==> t < u)
    && (forall u, m, t :: FirstShown(z, m, t) && DateOfMinute(m) < LocalDate(z, u) ==> t <= u)
    && (forall u :: -DAY < z.local(u) - u < DAY)
  }

  /** The instant the search takes for a local minute: the only one, or the earlier of two. */
  function Image(z: Zone, m: LocalMinute): Option<Instant> {
    match z.resolve(m)
    case Missing => None
    case Single(t) => Some(t)
    case Ambiguous(t, _) => Some(t)
  }

  /** The instant the search takes is the first one that shows the local minute, if any does. */
  lemma ImageIsFirst(z: Zone, m: LocalMinute)
    requires ValidZone(z)
    ensures forall t :: Image(z, m) == Some(t) <==> FirstShown(z, m, t)
    ensures Image(z, m).None? <==> forall t :: !Shows(z, t, m)
  {
    assert Resolves(z, m);
    var r := z.resolve(m);
    assert r.Single? ==> Shows(z, r.utc, m);
    assert r.Ambiguous? ==> Shows(z, r.earliest, m);
  }

  /** What the proofs use of a zone. */
  ghost predicate ImagesInOrder(z: Zone) {
    && (forall m :: Image(z, m).Some? ==> Image(z, m).value % SECOND == 0)
    && (forall m, n :: m < n && Image(z, m).Some? && Image(z, n).Some? ==> Image(z, m).value < Image(z, n).value)
    && (forall u, m :: Image(z, m).Some? && DateOfMinute(m) < LocalDate(z, u) ==> Image(z, m).value <= u)
    && (forall m :: Image(z, m).Some? ==> -DAY < Image(z, m).value - m * MINUTE < DAY)
    && (forall u :: (LocalDate(z, u) - 1) * DAY < u < (LocalDate(z, u) + 2) * DAY)
  }

  lemma ZonesHaveImagesInOrder(z: Zone)
    requires ValidZone(z)
    ensures ImagesInOrder(z)
    ensures forall m, t :: Image(z, m) == Some(t) <==> FirstShown(z, m, t)
  {
    forall m, t ensures Image(z, m) == Some(t) <==> FirstShown(z, m, t) {
      ImageIsFirst(z, m);
    }
    hide Image, Resolves;
    forall m | Image(z, m).Some? ensures FirstShown(z, m, Image(z, m).value) {
      assert Image(z, m) == Some(Image(z, m).value);
    }
    forall u ensures (LocalDate(z, u) - 1) * DAY < u < (LocalDate(z, u) + 2) * DAY {
      DayOfReading(z.local(u));
    }
  }

  lemma DayOfReading(reading: int)
    ensures reading / DAY * DAY <= reading < (reading / DAY + 1) * DAY
  {
  }

  /** A fixed offset, in seconds east of UTC. */
  function FixedZone(offset: int): Zone {
    Zone(m => LocalResult.Single(m * MINUTE - offset * SECOND), t => t + offset * SECOND)
  }

  lemma FixedZoneIsValid(offset: int)
    requires -86_400 < offset < 86_400
    ensures ValidZone(FixedZone(offset)) && forall m :: Image(FixedZone(offset), m).Some?
  {
    var z := FixedZone(offset);
    forall m, t | FirstShown(z, m, t) ensures t % SECOND == 0 {
      assert t == (m * 60 - offset) * SECOND;
    }
    forall u, m, t | FirstShown(z, m, t) && DateOfMinute(m) < LocalDate(z, u) ensures t <= u {
      MinuteBeforeDate(m, z.local(u));
    }
  }

  /** A local minute of an earlier date is not after a reading of a later one. */
  lemma MinuteBeforeDate(m: LocalMinute, reading: int)
    requires DateOfMinute(m) < reading / DAY
    ensures m * MINUTE < reading
  {
    DayOfReading(reading);
    assert m < (m / 1440 + 1) * 1440;
    assert m * MINUTE < (m / 1440 + 1) * DAY;
  }

  // ----- Fire times

  predicate Matches(s: Schedule, m: LocalMinute) {
    DayMatches(s, DateOfMinute(m)) && s.hours.Contains(m % 1440 / 60) && s.minutes.Contains(m % 60)
  }

  ghost predicate FiresAt(s: Schedule, z: Zone, t: Instant) {
    exists m :: Matches(s, m) && FirstShown(z, m, t)
  }

  /** The first fire time after `after`, over all time. */
  ghost predicate IsNextFire(s: Schedule, z: Zone, after: Instant, t: Instant) {
    FiresAt(s, z, t) && t > after && forall u :: FiresAt(s, z, u) && u > after ==> t <= u
  }

  /** The last fire time in `(low, high]`, over all time. */
  ghost predicate IsLastFire(s: Schedule, z: Zone, low: Instant, high: Instant, t: Instant) {
    FiresAt(s, z, t) && low < t <= high && forall u :: FiresAt(s, z, u) && low < u <= high ==> u <= t
  }

  ghost predicate NoFire(s: Schedule, z: Zone, low: Instant, high: Instant) {
    forall u :: FiresAt(s, z, u) ==> !(low < u <= high)
  }

  /** The search has nothing to find at `m`. */
  ghost predicate Passed(s: Schedule, z: Zone, after: Instant, m: LocalMinute) {
    Matches(s, m) && Image(z, m).Some? ==> Image(z, m).value <= after
  }

  /** The local minutes the search looks at. */
  ghost predicate InSearch(z: Zone, after: Instant, m: LocalMinute) {
    LocalDate(z, after) * 1440 <= m < (LocalDate(z, after) + SEARCH_HORIZON_DAYS) * 1440
  }

  ghost predicate NothingAhead(s: Schedule, z: Zone, after: Instant) {
    forall m :: InSearch(z, after, m) ==> Passed(s, z, after, m)
  }

  lemma MinuteParts(date: Date, hour: int, minute: int)
    requires 0 <= hour < 24 && 0 <= minute < 60
    ensures var m := date * 1440 + hour * 60 + minute;
      DateOfMinute(m) == date && m % 1440 / 60 == hour && m % 60 == minute
  {
    var m := date * 1440 + hour * 60 + minute;
    assert m / 1440 == date && m % 1440 == hour * 60 + minute;
    assert m == (date * 24 + hour) * 60 + minute;
  }

  lemma RestOfHour(hours: int, r: int)
    requires 0 <= r < 60
    ensures (60 * hours + r) % 60 == r
  {
  }

  /** Minutes of one date that fail for a reason the loops skip them for. */
  lemma SkippedMinutes(s: Schedule, z: Zone, after: Instant, date: Date, hour: int)
    requires 0 <= hour < 24
    ensures !DayMatches(s, date) ==> forall m :: date * 1440 <= m < (date + 1) * 1440 ==> Passed(s, z, after, m)
    ensures !s.hours.Contains(hour) ==>
      forall m :: date * 1440 + hour * 60 <= m < date * 1440 + hour * 60 + 60 ==> Passed(s, z, after, m)
  {
    forall m | date * 1440 <= m < (date + 1) * 1440 && !DayMatches(s, date) ensures Passed(s, z, after, m) {
      assert DateOfMinute(m) == date;
    }
    forall m | date * 1440 + hour * 60 <= m < date * 1440 + hour * 60 + 60 && !s.hours.Contains(hour)
      ensures Passed(s, z, after, m)
    {
      MinuteParts(date, hour, m - date * 1440 - hour * 60);
    }
  }

  /** Later minutes have later images. */
  lemma ImagesGrow(z: Zone, m: LocalMinute, n: LocalMinute)
    requires ValidZone(z) && m <= n && Image(z, m).Some? && Image(z, n).Some?
    ensures Image(z, m).value <= Image(z, n).value
  {
    ZonesHaveImagesInOrder(z);
    hide ValidZone, Image;
  }

  lemma EarlierDatesArePast(z: Zone, after: Instant, m: LocalMinute)
    requires ValidZone(z) && m < LocalDate(z, after) * 1440 && Image(z, m).Some?
    ensures Image(z, m).value <= after
  {
    ZonesHaveImagesInOrder(z);
    hide ValidZone, Image;
    assert DateOfMinute(m) < LocalDate(z, after);
  }

  /** A candidate found with nothing before it in the search is the next fire time. */
  lemma FoundIsNext(s: Schedule, z: Zone, after: Instant, m: LocalMinute)
    requires ValidZone(z) && LocalDate(z, after) * 1440 <= m && Matches(s, m)
    requires Image(z, m).Some? && Image(z, m).value > after
    requires forall n :: LocalDate(z, after) * 1440 <= n < m ==> Passed(s, z, after, n)
    ensures IsNextFire(s, z, after, Image(z, m).value)
  {
    hide ValidZone, Matches, FirstShown, Image;
    ImageIsFirst(z, m);
    forall u | FiresAt(s, z, u) && u > after ensures Image(z, m).value <= u {
      var n :| Matches(s, n) && FirstShown(z, n, u);
      ImageIsFirst(z, n);
      var passed := Passed(s, z, after, n);
      if n < LocalDate(z, after) * 1440 {
        EarlierDatesArePast(z, after, n);
      } else if n >= m {
        ImagesGrow(z, m, n);
      }
    }
  }

  /** What the innermost loop decides about one minute. */
  lemma OneMinute(s: Schedule, z: Zone, after: Instant, date: Date, hour: int, minute: int)
    requires 0 <= hour < 24 && 0 <= minute < 60 && DayMatches(s, date) && s.hours.Contains(hour)
    ensures var m := date * 1440 + hour * 60 + minute;
      && (Matches(s, m) <==> s.minutes.Contains(minute))
      && (Passed(s, z, after, m) <==>
            !s.minutes.Contains(minute) || Image(z, m).None? || Image(z, m).value <= after)
  {
    MinuteParts(date, hour, minute);
  }

  /** The search for the next fire time. */
  method NextAfter(s: Schedule, z: Zone, after: Instant) returns (r: Option<Instant>)
    requires ValidZone(z)
    ensures r.Some? ==> IsNextFire(s, z, after, r.value)
    ensures r.None? <==> NothingAhead(s, z, after)
  {
    hide ValidZone, Passed, Matches, DayMatches, IsNextFire, Image;
    var start := LocalDate(z, after);
    for dayOffset := 0 to SEARCH_HORIZON_DAYS
      invariant forall m :: start * 1440 <= m < (start + dayOffset) * 1440 ==> Passed(s, z, after, m)
    {
      var date := start + dayOffset;
      SkippedMinutes(s, z, after, date, 0);
      if !DayMatches(s, date) {
        continue;
      }
      for hour := 0 to 24
        invariant forall m :: start * 1440 <= m < date * 1440 + hour * 60 ==> Passed(s, z, after, m)
      {
        SkippedMinutes(s, z, after, date, hour);
        if !s.hours.Contains(hour) {
          continue;
        }
        for minute := 0 to 60
          invariant forall m :: start * 1440 <= m < date * 1440 + hour * 60 + minute ==> Passed(s, z, after, m)
        {
          OneMinute(s, z, after, date, hour, minute);
          if !s.minutes.Contains(minute) {
            continue;
          }
          var candidate := Image(z, date * 1440 + hour * 60 + minute);
          if candidate.None? {
            continue;
          }
          if candidate.value > after {
            FoundIsNext(s, z, after, date * 1440 + hour * 60 + minute);
            assert InSearch(z, after, date * 1440 + hour * 60 + minute);
            return candidate;
          }
        }
      }
    }
    r := None;
  }

  // ----- The latest fire time

  lemma FiresOnSeconds(s: Schedule, z: Zone, t: Instant)
    requires ValidZone(z) && FiresAt(s, z, t)
    ensures t % SECOND == 0
  {
  }

  /** A local minute whose image lies between `low` and 1826 days later is one the search from `low` looks at. */
  lemma NearbyIsInSearch(z: Zone, low: Instant, m: LocalMinute)
    requires ValidZone(z) && Image(z, m).Some? && low < Image(z, m).value <= low + 1826 * DAY
    ensures InSearch(z, low, m)
  {
    var start, u := LocalDate(z, low), Image(z, m).value;
    ZonesHaveImagesInOrder(z);
    hide ValidZone, Image, LocalDate;
    if m < start * 1440 {
      EarlierDatesArePast(z, low, m);
    }
    assert m * MINUTE < u + DAY;
    assert low < (start + 2) * DAY;
    assert DAY == 1440 * MINUTE;
  }

  /** Within 1826 days the search from `low` misses no fire time up to `high`. */
  lemma ShortSpanIsSearched(s: Schedule, z: Zone, low: Instant, high: Instant)
    requires ValidZone(z) && high - low <= 1826 * DAY && NothingAhead(s, z, low)
    ensures NoFire(s, z, low, high)
  {
    hide ValidZone, Matches, InSearch, FirstShown, Image;
    forall u | FiresAt(s, z, u) ensures !(low < u <= high) {
      var m :| Matches(s, m) && FirstShown(z, m, u);
      ImageIsFirst(z, m);
      if u > low && u <= low + 1826 * DAY {
        NearbyIsInSearch(z, low, m);
        var passed := Passed(s, z, low, m);
      }
    }
  }

  /** No search from `low`, or from a fire time after it, comes up empty while there is a fire time left up to `high`. */
  ghost predicate InReach(s: Schedule, z: Zone, low: Instant, high: Instant) {
    forall t :: low <= t <= high && (t == low || FiresAt(s, z, t)) && NothingAhead(s, z, t) ==> NoFire(s, z, t, high)
  }

  /** That is so when `low` and every fire time, unless it is the last, is followed by one within 1826 days. */
  lemma CloseFireTimesAreInReach(s: Schedule, z: Zone, low: Instant, high: Instant)
    requires ValidZone(z)
    requires forall t :: low <= t <= high && (t == low || FiresAt(s, z, t)) && !NoFire(s, z, t, high)
               ==> !NoFire(s, z, t, t + 1826 * DAY)
    ensures InReach(s, z, low, high)
  {
    hide ValidZone, FiresAt, NothingAhead, NoFire;
    forall t | low <= t <= high && (t == low || FiresAt(s, z, t)) && NothingAhead(s, z, t)
      ensures NoFire(s, z, t, high)
    {
      ShortSpanIsSearched(s, z, t, t + 1826 * DAY);
    }
  }

  /** And so in every span of at most 1826 days. */
  lemma ShortSpansAreInReach(s: Schedule, z: Zone, low: Instant, high: Instant)
    requires ValidZone(z) && high - low <= 1826 * DAY
    ensures InReach(s, z, low, high)
  {
    hide ValidZone, FiresAt, NothingAhead, NoFire;
    forall t | low <= t <= high && (t == low || FiresAt(s, z, t)) && NothingAhead(s, z, t)
      ensures NoFire(s, z, t, high)
    {
      ShortSpanIsSearched(s, z, t, high);
    }
  }

  /**
   The search for the latest fire time, from one second before `notBefore`. It steps from fire time to fire time, so it
   ends at the last one up to `now` if and only if no single search on the way comes up empty too early.
   */
  method LatestAtOrBefore(s: Schedule, z: Zone, now: Instant, notBefore: Instant) returns (r: Option<Instant>)
    requires ValidZone(z)
    ensures r.Some? ==> FiresAt(s, z, r.value) && notBefore - SECOND < r.value <= now
    ensures var reached := if r.Some? then r.value else notBefore - SECOND;
      NoFire(s, z, reached, now) || NothingAhead(s, z, reached)
    ensures InReach(s, z, notBefore - SECOND, now) <==>
      if r.Some? then IsLastFire(s, z, notBefore - SECOND, now, r.value) else NoFire(s, z, notBefore - SECOND, now)
  {
    hide ValidZone, FiresAt, NothingAhead;
    var cursor := notBefore - SECOND;
    r := None;
    while true
      invariant r.Some? ==> FiresAt(s, z, r.value) && notBefore - SECOND < r.value <= now
      invariant cursor == if r.Some? then r.value else notBefore - SECOND
      invariant forall u :: FiresAt(s, z, u) && notBefore - SECOND < u <= cursor ==> r.Some? && u <= r.value
      invariant forall u :: notBefore - SECOND <= u < cursor && (u == notBefore - SECOND || FiresAt(s, z, u)) ==>
                  !NothingAhead(s, z, u)
      decreases now - cursor
    {
      var next := NextAfter(s, z, cursor);
      if next.None? || next.value > now {
        break;
      }
      r := next;
      cursor := next.value;
    }
  }

  /** From a whole second on, the latest fire time is the greatest one in the closed interval. */
  lemma LatestOnWholeSeconds(s: Schedule, z: Zone, notBefore: Instant, now: Instant, t: Instant)
    requires ValidZone(z) && notBefore % SECOND == 0 && IsLastFire(s, z, notBefore - SECOND, now, t)
    ensures notBefore <= t <= now && FiresAt(s, z, t)
    ensures forall u :: FiresAt(s, z, u) && notBefore <= u <= now ==> u <= t
  {
    hide FiresAt, ValidZone;
    FiresOnSeconds(s, z, t);
    SecondsApart(t, notBefore);
  }

  lemma SecondsApart(t: Instant, u: Instant)
    requires t % SECOND == 0 && u % SECOND == 0 && t > u - SECOND
    ensures t >= u
  {
    var a, b := t / SECOND, u / SECOND;
    assert t == a * SECOND && u == b * SECOND;
  }
}

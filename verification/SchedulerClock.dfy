/** Which clock readings make the windows of the scheduler overlap, and what comes of it. */
module SchedulerClock {
  import opened Wrappers
  import opened Cron
  import opened CronGrammar
  import opened Expressions
  import opened Schedule
  import opened Scheduler

  /** The reading at construction and those of the ticks. */
  function Readings(start: Instant, hs: seq<Happening>): (r: seq<Instant>)
    ensures |r| >= 1 && r[0] == start
  {
    if hs == [] then [start]
    else
      var front, last := Readings(start, hs[..|hs| - 1]), hs[|hs| - 1];
      if last.Ticked? then front + [last.now] else front
  }

  /** Each window reaches from one reading to the next. */
  lemma {:induction false} WindowsAreSteps(objectives: seq<Objective>, start: Instant, hs: seq<Happening>)
    ensures var r, rs := Runs(objectives, start, hs), Readings(start, hs);
      && |r.windows| == |rs| - 1 && r.lastChecked == rs[|rs| - 1]
      && forall i :: 0 <= i < |r.windows| ==> r.windows[i] == (rs[i], rs[i + 1])
  {
    hide StartedIn;
    if hs != [] {
      WindowsAreSteps(objectives, start, hs[..|hs| - 1]);
    }
  }

  // ----- When an instant lies in two windows

  ghost predicate InTwoWindows(ws: seq<(Instant, Instant)>, t: Instant) {
    exists i, j :: 0 <= i < j < |ws| && InWindow(ws[i], t) && InWindow(ws[j], t)
  }

  /** Between two readings the clock passes `t` upwards. */
  predicate Rises(rs: seq<Instant>, a: nat, b: nat, t: Instant) {
    a < b < |rs| && rs[a] < t <= rs[b]
  }

  /** The clock passes `t`, is set back before it, and passes it again. */
  ghost predicate PassedTwice(rs: seq<Instant>, t: Instant) {
    exists a: nat, b: nat, c: nat, d: nat :: b < c && Rises(rs, a, b, t) && Rises(rs, c, d, t)
  }

  lemma {:induction false} PassesBetween(rs: seq<Instant>, a: nat, b: nat, t: Instant) returns (i: nat)
    requires Rises(rs, a, b, t)
    ensures a <= i < b && rs[i] < t <= rs[i + 1]
    decreases b - a
  {
    if rs[a + 1] >= t {
      i := a;
    } else {
      i := PassesBetween(rs, a + 1, b, t);
    }
  }

  /** An instant lies in two windows of a run if and only if the clock passed it twice. */
  lemma TwoWindowsExactlyWhen(objectives: seq<Objective>, start: Instant, hs: seq<Happening>, t: Instant)
    ensures InTwoWindows(Runs(objectives, start, hs).windows, t) <==> PassedTwice(Readings(start, hs), t)
  {
    WindowsAreSteps(objectives, start, hs);
    hide Runs, Readings;
    var ws, rs := Runs(objectives, start, hs).windows, Readings(start, hs);
    if InTwoWindows(ws, t) {
      var i, j :| 0 <= i < j < |ws| && InWindow(ws[i], t) && InWindow(ws[j], t);
      assert ws[i] == (rs[i], rs[i + 1]) && ws[j] == (rs[j], rs[j + 1]) && i + 1 < j;
      assert Rises(rs, i, i + 1, t) && Rises(rs, j, j + 1, t);
    }
    if PassedTwice(rs, t) {
      var a: nat, b: nat, c: nat, d: nat :| b < c && Rises(rs, a, b, t) && Rises(rs, c, d, t);
      var i := PassesBetween(rs, a, b, t);
      var j := PassesBetween(rs, c, d, t);
      assert InWindow(ws[i], t) && InWindow(ws[j], t);
    }
  }

  // ----- When there is such an instant

  /** Low, high, low and high again. */
  predicate Repeats(rs: seq<Instant>, a: nat, b: nat, c: nat, d: nat) {
    a < b < c < d < |rs| && Max(rs[a], rs[c]) < Min(rs[b], rs[d])
  }

  ghost predicate SetBackAndRepeated(rs: seq<Instant>) {
    exists a: nat, b: nat, c: nat, d: nat :: Repeats(rs, a, b, c, d)
  }

  /** Some instant lies in two windows if and only if the readings go up, back below and up again past a common value. */
  lemma SomeInstantRepeatsExactlyWhen(objectives: seq<Objective>, start: Instant, hs: seq<Happening>)
    ensures (exists t :: InTwoWindows(Runs(objectives, start, hs).windows, t)) <==> SetBackAndRepeated(Readings(start, hs))
  {
    hide Runs, Readings, InTwoWindows;
    var ws, rs := Runs(objectives, start, hs).windows, Readings(start, hs);
    if exists t :: InTwoWindows(ws, t) {
      var t :| InTwoWindows(ws, t);
      TwoWindowsExactlyWhen(objectives, start, hs, t);
      var a: nat, b: nat, c: nat, d: nat :| b < c && Rises(rs, a, b, t) && Rises(rs, c, d, t);
      assert Repeats(rs, a, b, c, d);
    }
    if SetBackAndRepeated(rs) {
      var a: nat, b: nat, c: nat, d: nat :| Repeats(rs, a, b, c, d);
      var t := Min(rs[b], rs[d]);
      assert Rises(rs, a, b, t) && Rises(rs, c, d, t);
      TwoWindowsExactlyWhen(objectives, start, hs, t);
    }
  }

  /** A tick raises the clock from a reading below an earlier one. */
  predicate RaisesFromBelow(rs: seq<Instant>, b: nat, k: nat) {
    b < k && k + 1 < |rs| && rs[k] < rs[b] && rs[k] < rs[k + 1]
  }

  /** A clock that is never set back behind the start repeats an instant exactly when a tick raises it from below. */
  lemma RepeatsAboveStartExactlyWhen(objectives: seq<Objective>, start: Instant, hs: seq<Happening>)
    requires forall i :: 0 <= i < |Readings(start, hs)| ==> start <= Readings(start, hs)[i]
    ensures (exists t :: InTwoWindows(Runs(objectives, start, hs).windows, t)) <==>
      exists b: nat, k: nat :: RaisesFromBelow(Readings(start, hs), b, k)
  {
    SomeInstantRepeatsExactlyWhen(objectives, start, hs);
    hide Runs, Readings, InTwoWindows;
    var rs := Readings(start, hs);
    if SetBackAndRepeated(rs) {
      var a: nat, b: nat, c: nat, d: nat :| Repeats(rs, a, b, c, d);
      var t := Min(rs[b], rs[d]);
      var k := PassesBetween(rs, c, d, t);
      assert RaisesFromBelow(rs, b, k);
    }
    if exists b: nat, k: nat :: RaisesFromBelow(rs, b, k) {
      var b: nat, k: nat :| RaisesFromBelow(rs, b, k);
      assert Repeats(rs, 0, b, k, k + 1);
    }
  }

  // ----- What comes of it

  lemma DueAtItsFireTime(o: Objective, t: Instant)
    requires o.enabled && ValidZone(o.zone) && FiresAt(o.schedule, o.zone, t)
    ensures Due(o, t - SECOND, t) && !Due(o, t, t - SECOND)
  {
    FireIsAhead(o.schedule, o.zone, t);
    hide ValidZone, FiresAt, NothingAhead;
  }

  /** One objective alone. */
  lemma OneObjective(o: Objective, since: Instant, now: Instant, running: set<ObjectiveId>)
    ensures StartedIn([o], since, now, running) == if Due(o, since, now) && o.id !in running then [o.id] else []
  {
    hide Due;
    assert [o][..0] == [];
  }

  lemma NextTick(o: Objective, start: Instant, hs: seq<Happening>, now: Instant)
    ensures var r := Runs([o], start, hs);
      Runs([o], start, hs + [Ticked(now)]) ==
      if Due(o, r.lastChecked, now) && o.id !in r.running then
        Run(now, r.running + {o.id}, r.windows + [(r.lastChecked, now)], r.log + [CycleStarted(o.id)])
      else Run(now, r.running, r.windows + [(r.lastChecked, now)], r.log)
  {
    assert (hs + [Ticked(now)])[..|hs|] == hs;
    hide Due, StartedIn;
    OneTick(o, Runs([o], start, hs), now);
  }

  lemma OneTick(o: Objective, r: Run, now: Instant)
    ensures After([o], r, Ticked(now)) ==
      if Due(o, r.lastChecked, now) && o.id !in r.running then
        Run(now, r.running + {o.id}, r.windows + [(r.lastChecked, now)], r.log + [CycleStarted(o.id)])
      else Run(now, r.running, r.windows + [(r.lastChecked, now)], r.log)
  {
    OneObjective(o, r.lastChecked, now, r.running);
    hide Due, StartedIn;
    assert StartEntries([o.id]) == [CycleStarted(o.id)] && StartEntries([]) == [];
    hide StartEntries;
    assert r.log + [] == r.log;
    assert (set id | id in [o.id]) == {o.id};
    assert r.running + (set id: ObjectiveId | id in []) == r.running;
  }

  lemma NextEnd(o: Objective, start: Instant, hs: seq<Happening>)
    requires o.id in Runs([o], start, hs).running
    ensures var r := Runs([o], start, hs);
      Runs([o], start, hs + [Ended(o.id)]) == r.(running := r.running - {o.id}, log := r.log + [CycleEnded(o.id)])
  {
    hide StartedIn;
    assert (hs + [Ended(o.id)])[..|hs|] == hs;
  }

  /** The cycle of a fire time starts and ends, and the clock is set back by a second. */
  lemma UpToTheSetBack(o: Objective, t: Instant)
    requires Due(o, t - SECOND, t) && !Due(o, t, t - SECOND)
    ensures Runs([o], t - SECOND, [Ticked(t)] + [Ended(o.id)] + [Ticked(t - SECOND)])
      == Run(t - SECOND, {}, [(t - SECOND, t), (t, t - SECOND)], [CycleStarted(o.id), CycleEnded(o.id)])
  {
    var s := t - SECOND;
    var h := [Ticked(t)];
    NothingYet(o, s);
    hide Due, Runs;
    assert [] + [Ticked(t)] == h;
    NextTick(o, s, [], t);
    assert Runs([o], s, h) == Run(t, {o.id}, [(s, t)], [CycleStarted(o.id)]);
    NextEnd(o, s, h);
    assert Runs([o], s, h + [Ended(o.id)]) == Run(t, {}, [(s, t)], [CycleStarted(o.id), CycleEnded(o.id)]);
    NextTick(o, s, h + [Ended(o.id)], s);
  }

  /**
   A clock that is set back by a second after a fire time of an enabled objective: the fire time lies in two windows, and
   when its cycle has ended in between, it starts a second one.
   */
  lemma AClockSetBackRepeatsACycle(o: Objective, t: Instant)
    requires o.enabled && ValidZone(o.zone) && FiresAt(o.schedule, o.zone, t)
    ensures var r := Runs([o], t - SECOND, [Ticked(t)] + [Ended(o.id)] + [Ticked(t - SECOND)] + [Ticked(t)]);
      && InTwoWindows(r.windows, t)
      && r.log == [CycleStarted(o.id), CycleEnded(o.id), CycleStarted(o.id)]
  {
    DueAtItsFireTime(o, t);
    hide Due, FiresAt, ValidZone, Runs;
    UpToTheSetBack(o, t);
    NextTick(o, t - SECOND, [Ticked(t)] + [Ended(o.id)] + [Ticked(t - SECOND)], t);
    var ws := Runs([o], t - SECOND, [Ticked(t)] + [Ended(o.id)] + [Ticked(t - SECOND)] + [Ticked(t)]).windows;
    assert InWindow(ws[0], t) && InWindow(ws[2], t);
  }

  lemma NothingYet(o: Objective, start: Instant)
    ensures Runs([o], start, []) == Run(start, {}, [], [])
  {
  }

  /** There are such objectives: `* * * * *` fires at every minute of UTC. */
  lemma EveryMinuteFires(m: LocalMinute)
    ensures var r := ParseFields(["*", "*", "*", "*", "*"]);
      r.Ok? && ValidZone(FixedZone(0)) && FiresAt(r.value, FixedZone(0), m * MINUTE)
  {
    hide Field, ValidZone, FixedZone, PlainNames, CronField.Contains, FirstShown;
    NamesArePlain();
    FixedZoneIsValid(0);
    StarField(0, 59, []);
    StarField(0, 23, []);
    StarField(1, 31, []);
    StarField(1, 12, MONTH_NAMES);
    StarField(0, 7, WEEKDAY_NAMES);
    var s := ParseFields(["*", "*", "*", "*", "*"]).value;
    StarMatches(s, m);
    hide ParseFields, Matches;
    FirstShownInUtc(m);
  }

  lemma FirstShownInUtc(m: LocalMinute)
    ensures FirstShown(FixedZone(0), m, m * MINUTE)
  {
  }

  lemma StarMatches(s: Schedule, m: LocalMinute)
    requires forall v :: 0 <= v <= 59 ==> s.minutes.Contains(v)
    requires forall v :: 0 <= v <= 23 ==> s.hours.Contains(v)
    requires forall v :: 1 <= v <= 12 ==> s.months.Contains(v)
    requires !s.daysOfMonth.restricted && !s.daysOfWeek.restricted
    ensures Matches(s, m)
  {
    assert 0 <= m % 1440 / 60 <= 23 && 0 <= m % 60 <= 59;
  }
}

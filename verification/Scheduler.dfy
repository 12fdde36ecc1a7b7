/**
 The objective scheduler (crates/application/src/objective/scheduler.rs): the due slot of a window, the tick that starts
 cycles, and what a whole run of ticks and cycle ends guarantees.
 */
module Scheduler {
  import opened Wrappers
  import opened Schedule

  type ObjectiveId = string

  datatype Objective = Objective(id: ObjectiveId, enabled: bool, schedule: Schedule, zone: Zone)

  /** Up to this length of a window no fire time is out of reach. */
  const MAX_WINDOW: int := 1825 * DAY

  /** A window `(since, now]` has a slot for the objective: one search from `since` reaches a fire time in it. */
  ghost predicate Due(o: Objective, since: Instant, now: Instant) {
    o.enabled && !NothingAhead(o.schedule, o.zone, since) && !NoFire(o.schedule, o.zone, since, now)
  }

  /** A window misses no fire time when it is short, or when the search from its start finds any. */
  lemma ShortWindowsMissNothing(o: Objective, since: Instant, now: Instant)
    requires ValidZone(o.zone) && (now - since <= MAX_WINDOW || !NothingAhead(o.schedule, o.zone, since))
    ensures Due(o, since, now) <==> o.enabled && !NoFire(o.schedule, o.zone, since, now)
  {
    if NothingAhead(o.schedule, o.zone, since) {
      ShortSpanIsSearched(o.schedule, o.zone, since, now);
    }
  }

  /** A fire time is in reach of a search that starts one second before it. */
  lemma FireIsAhead(s: Schedule, z: Zone, t: Instant)
    requires ValidZone(z) && FiresAt(s, z, t)
    ensures !NothingAhead(s, z, t - SECOND)
  {
    var m :| Matches(s, m) && FirstShown(z, m, t);
    ImageIsFirst(z, m);
    hide ValidZone, Matches, FirstShown, Image;
    NearbyIsInSearch(z, t - SECOND, m);
    assert !Passed(s, z, t - SECOND, m);
  }

  lemma NextFires(s: Schedule, z: Zone, since: Instant, next: Instant)
    requires IsNextFire(s, z, since, next)
    ensures FiresAt(s, z, next) && next > since
  {
    hide FiresAt;
  }

  lemma FiresFrom(s: Schedule, z: Zone, now: Instant, t: Instant)
    requires FiresAt(s, z, t) && t <= now
    ensures !NoFire(s, z, t - SECOND, now)
  {
    hide FiresAt;
  }

  lemma NextDecides(s: Schedule, z: Zone, since: Instant, now: Instant, next: Instant)
    requires IsNextFire(s, z, since, next)
    ensures NoFire(s, z, since, now) <==> next > now
  {
    hide FiresAt;
    if next <= now {
      assert since < next <= now;
    }
  }

  /** The last fire time from the next one on is the last one of the window, and the other way round. */
  lemma LatestFromNext(s: Schedule, z: Zone, since: Instant, now: Instant, next: Instant, t: Instant)
    requires ValidZone(z) && IsNextFire(s, z, since, next) && next <= now && FiresAt(s, z, t) && next - SECOND < t <= now
    ensures IsLastFire(s, z, next - SECOND, now, t) <==> IsLastFire(s, z, since, now, t)
  {
    FiresFromNext(s, z, since, next);
    hide FiresAt, ValidZone;
  }

  /** The fire times from the next one on are those after `since`. */
  lemma FiresFromNext(s: Schedule, z: Zone, since: Instant, next: Instant)
    requires ValidZone(z) && IsNextFire(s, z, since, next)
    ensures forall u :: FiresAt(s, z, u) && u > next - SECOND ==> u >= next
    ensures forall u :: FiresAt(s, z, u) ==> (u > next - SECOND <==> u > since)
  {
    hide FiresAt, ValidZone;
    forall u | FiresAt(s, z, u) && u > next - SECOND ensures u >= next {
      FiresOnSeconds(s, z, u);
      FiresOnSeconds(s, z, next);
      SecondsApart(u, next);
    }
  }

  /** What is in reach from `low` is in reach from `start`, if `start` finds and the fire times after it are after `low`. */
  lemma ReachCarries(s: Schedule, z: Zone, low: Instant, start: Instant, now: Instant)
    requires InReach(s, z, low, now) && !NothingAhead(s, z, start)
    requires forall u :: FiresAt(s, z, u) ==> (u > low <==> u > start)
    ensures InReach(s, z, start, now)
  {
    hide FiresAt, NothingAhead, NoFire;
    forall t | start <= t <= now && (t == start || FiresAt(s, z, t)) && NothingAhead(s, z, t)
      ensures NoFire(s, z, t, now)
    {
      assert t > low && FiresAt(s, z, t);
    }
  }

  lemma ReachFromNext(s: Schedule, z: Zone, since: Instant, now: Instant, next: Instant)
    requires ValidZone(z) && IsNextFire(s, z, since, next)
    requires !NothingAhead(s, z, since) && !NothingAhead(s, z, next - SECOND)
    ensures InReach(s, z, next - SECOND, now) <==> InReach(s, z, since, now)
  {
    FiresFromNext(s, z, since, next);
    hide FiresAt, ValidZone, NothingAhead, NoFire, InReach, IsNextFire;
    if InReach(s, z, since, now) {
      ReachCarries(s, z, since, next - SECOND, now);
    }
    if InReach(s, z, next - SECOND, now) {
      ReachCarries(s, z, next - SECOND, since, now);
    }
  }

  /** The slot of a window, if the objective is enabled and has one. */
  method DueSlot(o: Objective, since: Instant, now: Instant) returns (r: Option<Instant>)
    requires ValidZone(o.zone)
    ensures r.Some? <==> Due(o, since, now)
    ensures r.Some? ==>
      (InReach(o.schedule, o.zone, since, now) <==> IsLastFire(o.schedule, o.zone, since, now, r.value))
    ensures r.Some? && now - since <= MAX_WINDOW ==> IsLastFire(o.schedule, o.zone, since, now, r.value)
  {
    hide ValidZone, NothingAhead, FiresAt, NoFire, IsNextFire, IsLastFire, InReach;
    if !o.enabled {
      return None;
    }
    var next := NextAfter(o.schedule, o.zone, since);
    if next.None? {
      return None;
    }
    NextDecides(o.schedule, o.zone, since, now, next.value);
    if next.value > now {
      return None;
    }
    NextFires(o.schedule, o.zone, since, next.value);
    FireIsAhead(o.schedule, o.zone, next.value);
    r := LatestAtOrBefore(o.schedule, o.zone, now, next.value);
    FiresFrom(o.schedule, o.zone, now, next.value);
    ReachFromNext(o.schedule, o.zone, since, now, next.value);
    assert r.Some?;
    LatestFromNext(o.schedule, o.zone, since, now, next.value, r.value);
    if now - since <= MAX_WINDOW {
      ShortSpansAreInReach(o.schedule, o.zone, since, now);
    }
  }

  // ----- The tick

  /** The ids a tick starts, in order: those due and not running, each once. */
  ghost function StartedIn(objectives: seq<Objective>, since: Instant, now: Instant, running: set<ObjectiveId>)
    : seq<ObjectiveId>
  {
    if objectives == [] then []
    else
      var before := StartedIn(objectives[..|objectives| - 1], since, now, running);
      var o := objectives[|objectives| - 1];
      if Due(o, since, now) && o.id !in running && o.id !in before then before + [o.id] else before
  }

  class ObjectiveScheduler {
    const objectives: seq<Objective>
    var running: set<ObjectiveId>
    var lastChecked: Instant

    constructor (objectives: seq<Objective>, now: Instant)
      ensures this.objectives == objectives && running == {} && lastChecked == now
    {
      this.objectives, running, lastChecked := objectives, {}, now;
    }

    /** Whether a cycle may start; the id is marked in any case. */
    method MarkRunning(id: ObjectiveId) returns (marked: bool)
      modifies this`running
      ensures marked <==> id !in old(running)
      ensures running == old(running) + {id}
    {
      marked := id !in running;
      running := running + {id};
    }

    /** The drop of a `RunningGuard`, when a cycle ends or panics. */
    method DropGuard(id: ObjectiveId)
      modifies this`running
      ensures running == old(running) - {id}
    {
      running := running - {id};
    }

    method Tick(now: Instant) returns (started: seq<ObjectiveId>)
      requires forall o :: o in objectives ==> ValidZone(o.zone)
      modifies this
      ensures lastChecked == now
      ensures started == StartedIn(objectives, old(lastChecked), now, old(running))
      ensures running == old(running) + set id | id in started
    {
      hide ValidZone, Due;
      var since := lastChecked;
      lastChecked := now;
      started := [];
      for i := 0 to |objectives|
        invariant lastChecked == now
        invariant started == StartedIn(objectives[..i], since, now, old(running))
        invariant running == old(running) + set id | id in started
      {
        var o := objectives[i];
        assert objectives[..i + 1][..i] == objectives[..i];
        var slot := DueSlot(o, since, now);
        if slot.None? {
          continue;
        }
        var marked := MarkRunning(o.id);
        if !marked {
          continue;
        }
        started := started + [o.id];
      }
      assert objectives[..|objectives|] == objectives;
    }

    /** Ticks and ends of cycles one after the other take a new scheduler where the run of them does. */
    method Follow(hs: seq<Happening>)
      requires running == {} && forall o :: o in objectives ==> ValidZone(o.zone)
      modifies this
      ensures var r := Runs(objectives, old(lastChecked), hs); lastChecked == r.lastChecked && running == r.running
    {
      hide ValidZone, StartedIn;
      for i := 0 to |hs|
        invariant var r := Runs(objectives, old(lastChecked), hs[..i]); lastChecked == r.lastChecked && running == r.running
      {
        assert hs[..i + 1][..i] == hs[..i];
        match hs[i] {
          case Ticked(now) =>
            var _ := Tick(now);
          case Ended(id) =>
            DropGuard(id);
        }
      }
      assert hs[..|hs|] == hs;
    }
  }

  /** With distinct ids an objective is started exactly when it is due and not running. */
  lemma {:induction false} StartedExactlyWhenDue(objectives: seq<Objective>, since: Instant, now: Instant,
                                                 running: set<ObjectiveId>, o: Objective)
    requires o in objectives
    requires forall i, j :: 0 <= i < j < |objectives| ==> objectives[i].id != objectives[j].id
    ensures o.id in StartedIn(objectives, since, now, running) <==> Due(o, since, now) && o.id !in running
  {
    hide Due;
    var front, last := objectives[..|objectives| - 1], objectives[|objectives| - 1];
    StartedAreListed(front, since, now, running);
    if o in front {
      StartedExactlyWhenDue(front, since, now, running, o);
    }
  }

  lemma {:induction false} StartedAreListed(objectives: seq<Objective>, since: Instant, now: Instant,
                                            running: set<ObjectiveId>)
    ensures forall id :: id in StartedIn(objectives, since, now, running) ==>
              id !in running && exists o :: o in objectives && o.id == id
    ensures forall i, j :: 0 <= i < j < |StartedIn(objectives, since, now, running)| ==>
              StartedIn(objectives, since, now, running)[i] != StartedIn(objectives, since, now, running)[j]
  {
    hide Due;
    if objectives != [] {
      var front, last := objectives[..|objectives| - 1], objectives[|objectives| - 1];
      StartedAreListed(front, since, now, running);
      assert forall o :: o in front ==> o in objectives;
      assert last in objectives;
    }
  }

  // ----- Runs

  /** A tick reads the clock; a cycle ends, by whatever way. */
  datatype Happening = Ticked(now: Instant) | Ended(id: ObjectiveId)

  /** `windows` are those of the ticks so far; `log` has the starts and the ends of cycles. */
  datatype Entry = CycleStarted(id: ObjectiveId) | CycleEnded(id: ObjectiveId)

  datatype Run = Run(
    lastChecked: Instant,
    running: set<ObjectiveId>,
    windows: seq<(Instant, Instant)>,
    log: seq<Entry>)

  function StartEntries(ids: seq<ObjectiveId>): seq<Entry> {
    seq(|ids|, i requires 0 <= i < |ids| => CycleStarted(ids[i]))
  }

  /** A cycle ends only if it runs: there is one guard per mark. */
  ghost function After(objectives: seq<Objective>, r: Run, h: Happening): Run {
    match h
    case Ticked(now) =>
      var started := StartedIn(objectives, r.lastChecked, now, r.running);
      Run(now, r.running + (set id | id in started), r.windows + [(r.lastChecked, now)], r.log + StartEntries(started))
    case Ended(id) =>
      if id in r.running then r.(running := r.running - {id}, log := r.log + [CycleEnded(id)]) else r
  }

  ghost function Runs(objectives: seq<Objective>, start: Instant, hs: seq<Happening>): Run {
    if hs == [] then Run(start, {}, [], [])
    else After(objectives, Runs(objectives, start, hs[..|hs| - 1]), hs[|hs| - 1])
  }

  /** The clock never goes back over the run. */
  ghost predicate ClockIsMonotone(objectives: seq<Objective>, start: Instant, hs: seq<Happening>) {
    forall i :: 0 <= i < |hs| && hs[i].Ticked? ==> Runs(objectives, start, hs[..i]).lastChecked <= hs[i].now
  }

  /** The windows of a run follow one another from its start to its last reading, without gap or overlap. */
  lemma {:induction false} WindowsTile(objectives: seq<Objective>, start: Instant, hs: seq<Happening>)
    requires ClockIsMonotone(objectives, start, hs)
    ensures var r := Runs(objectives, start, hs);
      && start <= r.lastChecked
      && (forall i :: 0 <= i < |r.windows| ==> start <= r.windows[i].0 <= r.windows[i].1 <= r.lastChecked)
      && (forall t :: start < t <= r.lastChecked ==> Covered(r.windows, t))
      && (forall i, j :: 0 <= i < j < |r.windows| ==> r.windows[i].1 <= r.windows[j].0)
  {
    hide StartedIn;
    if hs != [] {
      var front, h := hs[..|hs| - 1], hs[|hs| - 1];
      assert forall i :: 0 <= i < |front| ==> front[..i] == hs[..i];
      WindowsTile(objectives, start, front);
      var p, r := Runs(objectives, start, front), Runs(objectives, start, hs);
      assert hs[..|hs| - 1] == front;
      if h.Ticked? {
        forall t | start < t <= r.lastChecked ensures Covered(r.windows, t) {
          if t <= p.lastChecked {
            assert Covered(p.windows, t);
            var i :| 0 <= i < |p.windows| && InWindow(p.windows[i], t);
            assert InWindow(r.windows[i], t);
          } else {
            assert InWindow(r.windows[|p.windows|], t);
          }
        }
      }
    }
  }

  predicate InWindow(w: (Instant, Instant), t: Instant) {
    w.0 < t <= w.1
  }

  ghost predicate Covered(ws: seq<(Instant, Instant)>, t: Instant) {
    exists i :: 0 <= i < |ws| && InWindow(ws[i], t)
  }

  /** Every fire time after construction that a tick has passed lies in exactly one window. */
  lemma EachFireTimeHasOneWindow(objectives: seq<Objective>, start: Instant, hs: seq<Happening>, t: Instant)
    requires ClockIsMonotone(objectives, start, hs)
    requires start < t <= Runs(objectives, start, hs).lastChecked
    ensures var ws := Runs(objectives, start, hs).windows;
      exists i :: 0 <= i < |ws| && InWindow(ws[i], t) && forall j :: 0 <= j < |ws| && InWindow(ws[j], t) ==> j == i
  {
    WindowsTile(objectives, start, hs);
    hide Runs, ClockIsMonotone;
    var ws := Runs(objectives, start, hs).windows;
    assert Covered(ws, t);
    var i :| 0 <= i < |ws| && InWindow(ws[i], t);
    assert forall j :: 0 <= j < |ws| && InWindow(ws[j], t) ==> j == i;
  }

  ghost predicate FiresInWindow(o: Objective, since: Instant, now: Instant) {
    exists t :: FiresAt(o.schedule, o.zone, t) && InWindow((since, now), t)
  }

  lemma FiresInWindowOrNot(o: Objective, since: Instant, now: Instant)
    ensures FiresInWindow(o, since, now) <==> !NoFire(o.schedule, o.zone, since, now)
  {
    hide FiresAt;
    if !NoFire(o.schedule, o.zone, since, now) {
      var t :| FiresAt(o.schedule, o.zone, t) && since < t <= now;
      assert InWindow((since, now), t);
    }
  }

  lemma TickLogsStarts(objectives: seq<Objective>, start: Instant, hs: seq<Happening>, now: Instant)
    ensures var p := Runs(objectives, start, hs); var r := Runs(objectives, start, hs + [Ticked(now)]);
      |p.log| <= |r.log| && r.log[|p.log|..] == StartEntries(StartedIn(objectives, p.lastChecked, now, p.running))
  {
    hide StartedIn;
    assert (hs + [Ticked(now)])[..|hs|] == hs;
  }

  lemma StartEntriesHas(ids: seq<ObjectiveId>, id: ObjectiveId)
    ensures CycleStarted(id) in StartEntries(ids) <==> id in ids
  {
    if id in ids {
      var i :| 0 <= i < |ids| && ids[i] == id;
      assert StartEntries(ids)[i] == CycleStarted(id);
    }
  }

  /**
   The tick that closes a window starts a cycle of an enabled objective exactly when the window holds one of its fire
   times and no cycle of it is running; for windows of more than five years, if the search from their start finds any.
   */
  lemma WindowStartsACycle(objectives: seq<Objective>, start: Instant, hs: seq<Happening>, now: Instant, o: Objective)
    requires o in objectives && o.enabled && ValidZone(o.zone)
    requires forall i, j :: 0 <= i < j < |objectives| ==> objectives[i].id != objectives[j].id
    requires var since := Runs(objectives, start, hs).lastChecked;
      now - since <= MAX_WINDOW || !NothingAhead(o.schedule, o.zone, since)
    ensures var p := Runs(objectives, start, hs); var r := Runs(objectives, start, hs + [Ticked(now)]);
      |p.log| <= |r.log| && (CycleStarted(o.id) in r.log[|p.log|..] <==>
        o.id !in p.running && FiresInWindow(o, p.lastChecked, now))
  {
    hide Due, StartedIn, Runs, ValidZone, FiresInWindow, StartEntries, NoFire, NothingAhead;
    var p := Runs(objectives, start, hs);
    StartedExactlyWhenDue(objectives, p.lastChecked, now, p.running, o);
    ShortWindowsMissNothing(o, p.lastChecked, now);
    TickLogsStarts(objectives, start, hs, now);
    StartEntriesHas(StartedIn(objectives, p.lastChecked, now, p.running), o.id);
    FiresInWindowOrNot(o, p.lastChecked, now);
  }

  // ----- Cycles of one objective never overlap

  ghost function Open(log: seq<Entry>, id: ObjectiveId): int {
    multiset(log)[CycleStarted(id)] as int - multiset(log)[CycleEnded(id)] as int
  }

  /** The log so far has as many starts as ends of an objective, and one start more while it runs. */
  lemma {:induction false} RunningIsOpen(objectives: seq<Objective>, start: Instant, hs: seq<Happening>, id: ObjectiveId)
    ensures var r := Runs(objectives, start, hs); Open(r.log, id) == if id in r.running then 1 else 0
  {
    if hs != [] {
      var front, h := hs[..|hs| - 1], hs[|hs| - 1];
      RunningIsOpen(objectives, start, front, id);
      var p := Runs(objectives, start, front);
      if h.Ticked? {
        var started := StartedIn(objectives, p.lastChecked, h.now, p.running);
        StartedAreListed(objectives, p.lastChecked, h.now, p.running);
        StartEntriesCount(started, id);
      }
    }
  }

  lemma {:induction false} StartEntriesCount(ids: seq<ObjectiveId>, id: ObjectiveId)
    requires forall i, j :: 0 <= i < j < |ids| ==> ids[i] != ids[j]
    ensures multiset(StartEntries(ids))[CycleStarted(id)] == if id in ids then 1 else 0
    ensures multiset(StartEntries(ids))[CycleEnded(id)] == 0
  {
    if ids != [] {
      var front, last := ids[..|ids| - 1], ids[|ids| - 1];
      StartEntriesCount(front, id);
      assert StartEntries(ids) == StartEntries(front) + [CycleStarted(last)];
      assert ids == front + [last];
    }
  }

  lemma OpenGrows(log: seq<Entry>, ids: seq<ObjectiveId>, id: ObjectiveId)
    requires forall i, j :: 0 <= i < j < |ids| ==> ids[i] != ids[j]
    ensures Open(log + StartEntries(ids), id) == Open(log, id) + if id in ids then 1 else 0
  {
    StartEntriesCount(ids, id);
    hide StartEntries;
  }

  /** At every point of the log at most one cycle of an objective is open. */
  lemma {:induction false} CyclesNeverOverlap(objectives: seq<Objective>, start: Instant, hs: seq<Happening>, k: nat,
                                              id: ObjectiveId)
    requires k <= |Runs(objectives, start, hs).log|
    ensures 0 <= Open(Runs(objectives, start, hs).log[..k], id) <= 1
  {
    hide Open, StartedIn;
    var r := Runs(objectives, start, hs);
    if hs == [] {
      RunningIsOpen(objectives, start, hs, id);
      assert r.log[..k] == r.log;
    } else {
      var front, h := hs[..|hs| - 1], hs[|hs| - 1];
      var p := Runs(objectives, start, front);
      if k <= |p.log| {
        CyclesNeverOverlap(objectives, start, front, k, id);
        assert r.log[..k] == p.log[..k];
      } else if h.Ticked? {
        var started := StartedIn(objectives, p.lastChecked, h.now, p.running);
        StartedAreListed(objectives, p.lastChecked, h.now, p.running);
        RunningIsOpen(objectives, start, front, id);
        var n := k - |p.log|;
        assert r.log[..k] == p.log + StartEntries(started[..n]);
        OpenGrows(p.log, started[..n], id);
      } else {
        RunningIsOpen(objectives, start, hs, id);
        assert r.log[..k] == r.log;
      }
    }
  }
}

/** Which steps an event touches: the completions of a message output, and the step a tool call belongs to. */
module ProgressCalls {
  import opened Wrappers
  import opened Text
  import opened ProgressState
  import opened ProgressTrace

  // ----- Message outputs

  predicate IsOpen(s: State, id: StepId) {
    id in s.steps && s.steps[id].lifecycle == Active
  }

  /** The steps listed are completed and nothing else changes. */
  ghost predicate CompletedExactly(s: State, ids: seq<StepId>, after: State) {
    && after.steps.Keys == s.steps.Keys
    && (forall id :: id in s.steps ==>
          after.steps[id] == if id in ids then s.steps[id].(lifecycle := Completed) else s.steps[id])
    && after.active == s.active && after.taskSteps == s.taskSteps && after.next == s.next
  }

  /** One completion for each of the steps listed that was open. */
  ghost predicate AnnouncesExactly(s: State, ids: seq<StepId>, updates: seq<Update>) {
    && (forall i, j :: 0 <= i < j < |updates| ==> updates[i] != updates[j])
    && (forall u :: u in updates ==> u.id in ids && IsOpen(s, u.id) && u == CompletedUpdate(s.steps[u.id]))
    && (forall id :: id in ids && IsOpen(s, id) ==> CompletedUpdate(s.steps[id]) in updates)
  }

  lemma {:induction false} CompleteAllIsExact(s: State, ids: seq<StepId>)
    requires StepsAreNamed(s) && forall i, j :: 0 <= i < j < |ids| ==> ids[i] != ids[j]
    ensures var (after, updates) := CompleteAll(s, ids);
      CompletedExactly(s, ids, after) && AnnouncesExactly(s, ids, updates)
  {
    hide NameOf;
    if ids != [] {
      var front, last := ids[..|ids| - 1], ids[|ids| - 1];
      CompleteAllIsExact(s, front);
      assert last !in front && ids == front + [last];
      CompleteOneMore(s, front, last);
    }
  }

  lemma CompleteOneMore(s: State, front: seq<StepId>, last: StepId)
    requires forall id :: id in s.steps ==> s.steps[id].id == id
    requires last !in front
    requires CompletedExactly(s, front, CompleteAll(s, front).0) && AnnouncesExactly(s, front, CompleteAll(s, front).1)
    ensures var (before, updates) := CompleteAll(s, front);
      var (after, step) := MarkCompleted(before, last);
      && CompletedExactly(s, front + [last], after)
      && AnnouncesExactly(s, front + [last], if step.Some? then updates + [CompletedUpdate(step.value)] else updates)
  {
    hide CompleteAll;
    var (before, updates) := CompleteAll(s, front);
    var (after, step) := MarkCompleted(before, last);
    var ids := front + [last];
    assert forall id :: id in ids <==> id in front || id == last;
    if step.Some? {
      var u := CompletedUpdate(step.value);
      assert u == CompletedUpdate(s.steps[last]) && u.id == last;
      assert u !in updates;
      assert u in updates + [u];
    }
  }

  /**
   A message output emits exactly one completion for each open step of its owner, in some order, and nothing else. It
   leaves the steps and the active step of every other owner as they were.
   */
  lemma MessageCompletesItsOwner(s: State, owner: OwnerId, after: State, updates: seq<Update>)
    requires Indexed(s) && ProjectsMessage(s, owner, after, updates)
    ensures forall i, j :: 0 <= i < j < |updates| ==> updates[i] != updates[j]
    ensures forall u :: u in updates ==>
      IsOpen(s, u.id) && s.steps[u.id].owner == owner && u == CompletedUpdate(s.steps[u.id])
    ensures forall id :: IsOpen(s, id) && s.steps[id].owner == owner ==> CompletedUpdate(s.steps[id]) in updates
    ensures after.steps.Keys == s.steps.Keys
    ensures forall id :: id in s.steps ==>
      after.steps[id] == if s.steps[id].owner == owner then s.steps[id].(lifecycle := Completed) else s.steps[id]
    ensures after.active == s.active - {owner} && after.taskSteps == s.taskSteps && after.next == s.next
  {
    var ids :| ListsStepsOf(s, owner, ids)
      && after == ClearActive(CompleteAll(s, ids).0, owner) && updates == CompleteAll(s, ids).1;
    CompleteAllIsExact(s, ids);
    hide CompleteAll, StepsAreNamed, ActiveStepsExist, TaskStepsExist;
  }

  // ----- Summaries

  /**
   A summary with a title opens one new step of its owner and makes it the active one. It completes the owner's active
   step if none of its calls is running, and leaves every other step as it was.
   */
  lemma SummaryOpensOneStep(s: State, owner: OwnerId, title: string, summary: string)
    requires Indexed(s) && s.next < U64_MAX && Trim(title) != []
    ensures var (after, updates) := ProjectSummary(s, owner, title, summary);
      var id := NameOf(s.next + 1);
      && id !in s.steps && after.steps.Keys == s.steps.Keys + {id}
      && after.steps[id] == ProgressStep(id, owner, title, s.next + 1, Active, map[])
      && after.active == s.active[owner := id] && after.taskSteps == s.taskSteps
      && (forall x :: x in s.steps ==>
            after.steps[x] == if owner in s.active && x == s.active[owner] && !IsBusy(s.steps[x])
                              then s.steps[x].(lifecycle := Completed) else s.steps[x])
      && updates != [] && updates[|updates| - 1] == ScopeStarted(id, owner, title, SummaryDetail(summary))
  {
    var (idle, completed) := CompleteActiveIfIdle(s, owner);
    IdleShows(s, owner, SummaryCreated(owner, title, summary));
    IdleIsExact(s, owner);
    hide CompleteActiveIfIdle, StepsAreNamed, ActiveStepsExist, TaskStepsExist, IsBusy, Trim, SummaryDetail, ViewOf, Show;
    CreateKeepsIndexed(idle, owner, title);
    NextNameIs(idle, owner, title);
    hide Create, NameOf, Indexed;
    var (created, id) := Create(idle, owner, title);
    var (after, updates) := ProjectSummary(s, owner, title, summary);
    assert after == SetActive(created, owner, id);
    assert updates[|updates| - 1] == ScopeStarted(id, owner, title, SummaryDetail(summary));
    hide ProjectSummary;
  }

  lemma NextNameIs(s: State, owner: OwnerId, title: string)
    requires StepsAreNamed(s) && s.next < U64_MAX
    ensures Create(s, owner, title).1 == NameOf(s.next + 1)
  {
    NextNameIsFree(s);
  }

  lemma IdleIsExact(s: State, owner: OwnerId)
    requires ActiveStepsExist(s)
    ensures var after := CompleteActiveIfIdle(s, owner).0;
      && after.steps.Keys == s.steps.Keys && after.active == s.active
      && (forall x :: x in s.steps ==>
            after.steps[x] == if owner in s.active && x == s.active[owner] && !IsBusy(s.steps[x])
                              then s.steps[x].(lifecycle := Completed) else s.steps[x])
  {
    hide IsBusy;
  }

  // ----- The step of a tool call

  predicate StartsCall(t: Turn, key: string) {
    t.event.ToolStarted? && TaskKey(t.event.owner, t.event.task) == key
  }

  predicate ShownOn(t: Turn, id: StepId) {
    |t.updates| == 1 && t.updates[0].id == id
  }

  /** What one event does to the index of tool calls: no entry ever moves, and only the start of a call adds one. */
  lemma EntriesStay(s: State, e: Event, after: State, updates: seq<Update>)
    requires Indexed(s) && s.next < U64_MAX && Projects(s, e, after, updates)
    ensures forall k :: k in s.taskSteps ==> k in after.taskSteps && after.taskSteps[k] == s.taskSteps[k]
    ensures forall k :: k in after.taskSteps ==> k in s.taskSteps || StartsCall(Turn(e, updates, after), k)
    ensures e.ToolStarted? ==>
      TaskKey(e.owner, e.task) in after.taskSteps
      && ShownOn(Turn(e, updates, after), after.taskSteps[TaskKey(e.owner, e.task)])
  {
    hide TaskKey, NameOf, CompleteAll, Create, LatestCompleted;
    match e
    case SummaryCreated(owner, title, summary) =>
      SummaryKeepsEntries(s, owner, title, summary);
    case ToolStarted(owner, task, title) =>
      ToolStartEntries(s, owner, task, title);
    case ToolCompleted(owner, task) =>
    case MessageOutputCreated(owner) =>
      MessageCompletesItsOwner(s, owner, after, updates);
  }

  lemma SummaryKeepsEntries(s: State, owner: OwnerId, title: string, summary: string)
    ensures ProjectSummary(s, owner, title, summary).0.taskSteps == s.taskSteps
  {
    hide NameOf, FirstFree, IsBusy;
  }

  lemma ToolStartEntries(s: State, owner: OwnerId, task: TaskId, title: string)
    requires Indexed(s) && s.next < U64_MAX
    ensures var (after, updates, r) := ProjectToolStarted(s, owner, task, title);
      && (TaskKey(owner, task) in s.taskSteps ==> r.id == s.taskSteps[TaskKey(owner, task)])
      && after.taskSteps == s.taskSteps[TaskKey(owner, task) := r.id]
      && r.id in after.steps
      && updates == [ScopeUpdated(r.id, after.steps[r.id].owner, after.steps[r.id].title, InProgress, Some(title + "\n"))]
  {
    hide ResolveStarted, Indexed, ViewOf, TaskKey;
    var (resolved, r) := ResolveStarted(s, owner, task, "Tool executions");
    ResolvedIsIndexed(s, owner, task, "Tool executions");
    ResolveEntries(s, owner, task, "Tool executions");
    ReopeningShows(resolved, r.id, owner, task);
  }

  lemma ResolveEntries(s: State, owner: OwnerId, task: TaskId, defaultTitle: string)
    requires Indexed(s)
    ensures var (after, r) := ResolveStarted(s, owner, task, defaultTitle);
      && (TaskKey(owner, task) in s.taskSteps ==> r.id == s.taskSteps[TaskKey(owner, task)])
      && (after.taskSteps == s.taskSteps || after.taskSteps == s.taskSteps[TaskKey(owner, task) := r.id])
  {
    hide TaskKey, NameOf, LatestCompleted, FirstFree, StepsAreNamed, ActiveStepsExist;
  }

  lemma {:induction false} EntriesAreStarts(turns: seq<Turn>)
    requires IsStream(turns) && |turns| < U64_MAX
    ensures var index := StateAfter(turns).taskSteps;
      && (forall k :: k in index ==> exists i :: 0 <= i < |turns| && StartsCall(turns[i], k))
      && (forall i, k :: 0 <= i < |turns| && StartsCall(turns[i], k) ==> k in index && ShownOn(turns[i], index[k]))
  {
    hide Projects, Indexed, StartsCall;
    if turns != [] {
      var front, last := turns[..|turns| - 1], turns[|turns| - 1];
      EntriesAreStarts(front);
      StreamIsIndexed(front);
      EntriesStay(StateAfter(front), last.event, last.after, last.updates);
      var index, before := StateAfter(turns).taskSteps, StateAfter(front).taskSteps;
      assert last == Turn(last.event, last.updates, last.after);
      forall k | k in index ensures exists i :: 0 <= i < |turns| && StartsCall(turns[i], k) {
        if k in before {
          var i :| 0 <= i < |front| && StartsCall(front[i], k);
          assert StartsCall(turns[i], k);
        } else {
          assert StartsCall(turns[|turns| - 1], k);
        }
      }
      forall i, k | 0 <= i < |turns| && StartsCall(turns[i], k) ensures k in index && ShownOn(turns[i], index[k]) {
        if i < |front| {
          assert StartsCall(front[i], k);
        } else {
          LastStartIsShown(last, k);
        }
      }
    }
  }

  lemma LastStartIsShown(t: Turn, k: string)
    requires StartsCall(t, k)
    ensures t.event.ToolStarted? && TaskKey(t.event.owner, t.event.task) == k
  {
  }

  /**
   The completion of a tool call finds the step its start was shown on, of every start of it; it finds none exactly
   when no call with its key was started before.
   */
  lemma CompletionFindsItsStart(turns: seq<Turn>, owner: OwnerId, task: TaskId)
    requires IsStream(turns) && |turns| < U64_MAX
    ensures var found := ResolveCompleted(StateAfter(turns), owner, task); var key := TaskKey(owner, task);
      && (forall i :: 0 <= i < |turns| && StartsCall(turns[i], key) ==> found.Some? && ShownOn(turns[i], found.value))
      && (found.None? ==> ProjectToolCompleted(StateAfter(turns), owner, task) == (StateAfter(turns), None))
      && (found.None? <==> forall i :: 0 <= i < |turns| ==> !StartsCall(turns[i], key))
  {
    EntriesAreStarts(turns);
    StreamIsIndexed(turns);
    hide StepsAreNamed, ActiveStepsExist, IsStream, TaskKey, StartsCall;
  }

  // ----- Owners

  /** Steps stay, and with them their owners and titles. */
  lemma StepsStay(s: State, e: Event, after: State, updates: seq<Update>)
    requires Indexed(s) && s.next < U64_MAX && Projects(s, e, after, updates)
    ensures forall id :: id in s.steps ==>
      id in after.steps && after.steps[id].owner == s.steps[id].owner && after.steps[id].title == s.steps[id].title
  {
    hide NameOf, TaskKey, LatestCompleted, FirstFree, IsBusy, Create, ResolveStarted, RecordCall, Reopen, MarkCompleted,
      CompleteAll;
    match e
    case SummaryCreated(owner, title, summary) =>
      if Trim(title) != [] {
        IdleShows(s, owner, e);
        IdleKeepsSteps(s, owner);
        CreateKeepsIndexed(CompleteActiveIfIdle(s, owner).0, owner, title);
      }
    case ToolStarted(owner, task, title) =>
      ResolvedIsIndexed(s, owner, task, "Tool executions");
      var (resolved, r) := ResolveStarted(s, owner, task, "Tool executions");
      RecordingKeepsSteps(resolved, r.id, owner, task, InProgress);
    case ToolCompleted(owner, task) =>
      var found := ResolveCompleted(s, owner, task);
      if found.Some? {
        RecordingKeepsSteps(s, found.value, owner, task, Complete);
      }
    case MessageOutputCreated(owner) =>
      MessageCompletesItsOwner(s, owner, after, updates);
  }

  lemma RecordingKeepsSteps(s: State, id: StepId, owner: OwnerId, task: TaskId, status: Status)
    ensures var after := RecordCall(s, id, owner, task, status);
      && (forall x :: x in s.steps ==>
            x in after.steps && after.steps[x].owner == s.steps[x].owner && after.steps[x].title == s.steps[x].title)
      && (forall x :: x in s.steps ==>
            x in Reopen(after, id).steps && Reopen(after, id).steps[x].owner == s.steps[x].owner
            && Reopen(after, id).steps[x].title == s.steps[x].title)
  {
    hide TaskKey;
  }

  lemma IdleKeepsSteps(s: State, owner: OwnerId)
    ensures forall id :: id in s.steps ==>
      id in CompleteActiveIfIdle(s, owner).0.steps
      && CompleteActiveIfIdle(s, owner).0.steps[id].owner == s.steps[id].owner
      && CompleteActiveIfIdle(s, owner).0.steps[id].title == s.steps[id].title
  {
    hide IsBusy;
  }

  /** A call whose key is new, or recorded on a step of its owner, is shown on a step of its owner. */
  lemma StartIsShownOnOwnStep(s: State, owner: OwnerId, task: TaskId, title: string)
    requires Indexed(s) && s.next < U64_MAX
    requires TaskKey(owner, task) in s.taskSteps ==> s.steps[s.taskSteps[TaskKey(owner, task)]].owner == owner
    ensures var (after, _, r) := ProjectToolStarted(s, owner, task, title);
      r.id in after.steps && after.steps[r.id].owner == owner
  {
    var (resolved, r) := ResolveStarted(s, owner, task, "Tool executions");
    ResolvedIsIndexed(s, owner, task, "Tool executions");
    ResolvedOwner(s, owner, task, "Tool executions");
    hide ResolveStarted, Indexed, TaskKey;
    RecordingKeepsSteps(resolved, r.id, owner, task, InProgress);
  }

  lemma ResolvedOwner(s: State, owner: OwnerId, task: TaskId, defaultTitle: string)
    requires Indexed(s) && s.next < U64_MAX
    requires TaskKey(owner, task) in s.taskSteps ==> s.steps[s.taskSteps[TaskKey(owner, task)]].owner == owner
    ensures var (after, r) := ResolveStarted(s, owner, task, defaultTitle);
      r.id in after.steps && after.steps[r.id].owner == owner
  {
    ResolvedIsIndexed(s, owner, task, defaultTitle);
    hide NameOf, StepsAreNamed, LatestCompleted, FirstFree, TaskKey;
  }

  /** The start of a call is shown on a step of its owner. */
  predicate OnOwnStep(t: Turn) {
    t.event.ToolStarted? ==> |t.updates| == 1 && t.updates[0].owner == t.event.owner
  }

  /** What the start of a call shows is a step of the state, with the owner it has there. */
  ghost predicate ShowsStepOf(t: Turn, s: State) {
    t.event.ToolStarted? ==>
      && |t.updates| == 1 && t.updates[0].id in s.steps && s.steps[t.updates[0].id].owner == t.updates[0].owner
      && TaskKey(t.event.owner, t.event.task) in s.taskSteps
      && s.taskSteps[TaskKey(t.event.owner, t.event.task)] == t.updates[0].id
  }

  lemma ShownStays(t: Turn, s: State, e: Event, after: State, updates: seq<Update>)
    requires Indexed(s) && s.next < U64_MAX && Projects(s, e, after, updates) && ShowsStepOf(t, s)
    ensures ShowsStepOf(t, after)
  {
    EntriesStay(s, e, after, updates);
    StepsStay(s, e, after, updates);
    hide Projects, Indexed, TaskKey;
  }

  lemma StartIsShown(s: State, e: Event, after: State, updates: seq<Update>)
    requires Indexed(s) && s.next < U64_MAX && Projects(s, e, after, updates)
    ensures ShowsStepOf(Turn(e, updates, after), after)
  {
    if e.ToolStarted? {
      ToolStartEntries(s, e.owner, e.task, e.title);
      hide ProjectToolStarted, Indexed, TaskKey;
    }
  }

  lemma {:induction false} StartsStayShown(turns: seq<Turn>)
    requires IsStream(turns) && |turns| < U64_MAX
    ensures forall i :: 0 <= i < |turns| ==> ShowsStepOf(turns[i], StateAfter(turns))
  {
    if turns != [] {
      hide Projects, Indexed, ShowsStepOf;
      var front, last := turns[..|turns| - 1], turns[|turns| - 1];
      StartsStayShown(front);
      StreamIsIndexed(front);
      StartIsShown(StateAfter(front), last.event, last.after, last.updates);
      assert last == Turn(last.event, last.updates, last.after);
      forall i | 0 <= i < |front| ensures ShowsStepOf(turns[i], last.after) {
        assert ShowsStepOf(front[i], StateAfter(front));
        ShownStays(front[i], StateAfter(front), last.event, last.after, last.updates);
      }
    }
  }

  /** Two calls of different owners under one key. */
  predicate Clash(t: Turn, u: Turn) {
    && t.event.ToolStarted? && u.event.ToolStarted?
    && TaskKey(t.event.owner, t.event.task) == TaskKey(u.event.owner, u.event.task)
    && t.event.owner != u.event.owner
  }

  ghost predicate NoClash(turns: seq<Turn>) {
    forall i, j :: 0 <= i < |turns| && 0 <= j < |turns| ==> !Clash(turns[i], turns[j])
  }

  /** The last start of a stream without clashes is on its own step, if the earlier ones are. */
  lemma LastStaysWithItsOwner(turns: seq<Turn>)
    requires IsStream(turns) && 0 < |turns| < U64_MAX && NoClash(turns)
    requires forall i :: 0 <= i < |turns| - 1 ==> OnOwnStep(turns[i])
    ensures OnOwnStep(turns[|turns| - 1])
  {
    var front, last := turns[..|turns| - 1], turns[|turns| - 1];
    var s := StateAfter(front);
    if last.event.ToolStarted? {
      var e := last.event;
      var key := TaskKey(e.owner, e.task);
      StreamIsIndexed(front);
      EntriesAreStarts(front);
      StartsStayShown(front);
      hide IsStream, Indexed, TaskKey;
      if key in s.taskSteps {
        var i :| 0 <= i < |front| && StartsCall(front[i], key);
        assert !Clash(turns[i], last) && OnOwnStep(turns[i]) && front[i] == turns[i];
        assert ShowsStepOf(front[i], s);
      }
      hide NoClash;
      StartIsShownOnOwnStep(s, e.owner, e.task, e.title);
      ToolStartEntries(s, e.owner, e.task, e.title);
      hide ProjectToolStarted;
    }
  }

  lemma {:induction false} WithoutClashesAllStay(turns: seq<Turn>)
    requires IsStream(turns) && |turns| < U64_MAX && NoClash(turns)
    ensures forall i :: 0 <= i < |turns| ==> OnOwnStep(turns[i])
  {
    if turns != [] {
      var front := turns[..|turns| - 1];
      assert IsStream(front);
      assert NoClash(front) by {
        assert forall i :: 0 <= i < |front| ==> front[i] == turns[i];
      }
      hide OnOwnStep, NoClash, IsStream;
      WithoutClashesAllStay(front);
      assert forall i :: 0 <= i < |front| ==> front[i] == turns[i];
      LastStaysWithItsOwner(turns);
    }
  }

  /** Every tool call is shown on a step of its own owner if and only if no two owners start calls under one key. */
  lemma CallsStayExactlyWhen(turns: seq<Turn>)
    requires IsStream(turns) && |turns| < U64_MAX
    ensures (forall i :: 0 <= i < |turns| ==> OnOwnStep(turns[i])) <==> NoClash(turns)
  {
    if NoClash(turns) {
      WithoutClashesAllStay(turns);
    } else {
      var i, j :| 0 <= i < |turns| && 0 <= j < |turns| && Clash(turns[i], turns[j]);
      StartsStayShown(turns);
      hide IsStream, TaskKey;
      assert ShowsStepOf(turns[i], StateAfter(turns)) && ShowsStepOf(turns[j], StateAfter(turns));
      assert !(OnOwnStep(turns[i]) && OnOwnStep(turns[j]));
    }
  }

  predicate NoColons(e: Event) {
    e.ToolStarted? ==> ':' !in e.task
  }

  /** So without colons in task ids every tool call is shown on a step of its own owner. */
  lemma CallsStayWithTheirOwner(turns: seq<Turn>)
    requires IsStream(turns) && |turns| < U64_MAX
    requires forall i :: 0 <= i < |turns| ==> NoColons(turns[i].event)
    ensures forall i :: 0 <= i < |turns| ==> OnOwnStep(turns[i])
  {
    forall i, j | 0 <= i < |turns| && 0 <= j < |turns| ensures !Clash(turns[i], turns[j]) {
      assert NoColons(turns[i].event) && NoColons(turns[j].event);
      if Clash(turns[i], turns[j]) {
        TaskKeysDiffer(turns[i].event.owner, turns[i].event.task, turns[j].event.owner, turns[j].event.task);
      }
    }
    hide IsStream, OnOwnStep;
    CallsStayExactlyWhen(turns);
  }

  // ----- The owners of the program

  const RUNNER: OwnerId := "task_runner"

  /** A spawned agent: its name, which has no colon, and the 32 digits of a UUID. */
  predicate IsAgent(owner: OwnerId, name: string, digits: string) {
    ':' !in name && ':' !in digits && |digits| == 32 && owner == name + ":" + digits
  }

  /** The owners that occur: the task runner and the agents it spawns. */
  ghost predicate IsProgramOwner(owner: OwnerId) {
    owner == RUNNER || exists name, digits :: IsAgent(owner, name, digits)
  }

  /** An agent called like the runner, and a task of the runner that begins with the digits of that agent. */
  ghost predicate MeetsNamesake(runner: OwnerId, runnerTask: TaskId, agent: OwnerId, task: TaskId) {
    runner == RUNNER && exists digits :: IsAgent(agent, RUNNER, digits) && runnerTask == digits + ":" + task
  }

  lemma AgentsDiffer(o1: OwnerId, t1: TaskId, o2: OwnerId, t2: TaskId, n1: string, d1: string, n2: string, d2: string)
    requires IsAgent(o1, n1, d1) && IsAgent(o2, n2, d2) && TaskKey(o1, t1) == TaskKey(o2, t2)
    ensures o1 == o2
  {
    var k := TaskKey(o1, t1);
    assert k[|n1|] == ':' && k[|n2|] == ':' && n1 == k[..|n1|] && n2 == k[..|n2|];
    assert forall i :: 0 <= i < |n1| ==> n1[i] == k[i];
    assert forall i :: 0 <= i < |n2| ==> n2[i] == k[i];
    assert d1 == k[|n1| + 1..|n1| + 33] && d2 == k[|n2| + 1..|n2| + 33];
  }

  lemma RunnerMeetsNamesake(t: TaskId, agent: OwnerId, task: TaskId, name: string, digits: string)
    requires IsAgent(agent, name, digits) && TaskKey(RUNNER, t) == TaskKey(agent, task)
    ensures MeetsNamesake(RUNNER, t, agent, task)
  {
    var k := TaskKey(RUNNER, t);
    assert ':' !in RUNNER;
    assert k[|RUNNER|] == ':' && k[|name|] == ':' && RUNNER == k[..|RUNNER|] && name == k[..|name|];
    assert forall i :: 0 <= i < |name| ==> name[i] == k[i];
    assert forall i :: 0 <= i < |RUNNER| ==> RUNNER[i] == k[i];
    assert |name| == |RUNNER|;
    assert k[|RUNNER| + 1..] == t && k[|name| + 1..] == digits + ":" + task;
    assert IsAgent(agent, RUNNER, digits);
  }

  lemma NamesakeSharesKey(t: TaskId, agent: OwnerId, task: TaskId)
    requires MeetsNamesake(RUNNER, t, agent, task)
    ensures TaskKey(RUNNER, t) == TaskKey(agent, task) && RUNNER != agent
  {
    var digits :| IsAgent(agent, RUNNER, digits) && t == digits + ":" + task;
    assert |agent| == |RUNNER| + 33;
  }

  /** Two owners of the program share a key exactly when one is the runner and the other an agent of the same name. */
  lemma ProgramOwnersClashExactlyWhen(o1: OwnerId, t1: TaskId, o2: OwnerId, t2: TaskId)
    requires IsProgramOwner(o1) && IsProgramOwner(o2)
    ensures TaskKey(o1, t1) == TaskKey(o2, t2) && o1 != o2 <==>
      MeetsNamesake(o1, t1, o2, t2) || MeetsNamesake(o2, t2, o1, t1)
  {
    hide TaskKey, MeetsNamesake, IsAgent;
    if MeetsNamesake(o1, t1, o2, t2) {
      IsRunner(o1, t1, o2, t2);
      NamesakeSharesKey(t1, o2, t2);
    } else if MeetsNamesake(o2, t2, o1, t1) {
      IsRunner(o2, t2, o1, t1);
      NamesakeSharesKey(t2, o1, t1);
    } else if TaskKey(o1, t1) == TaskKey(o2, t2) && o1 != o2 {
      if o1 == RUNNER {
        var name, digits :| IsAgent(o2, name, digits);
        RunnerMeetsNamesake(t1, o2, t2, name, digits);
      } else if o2 == RUNNER {
        var name, digits :| IsAgent(o1, name, digits);
        RunnerMeetsNamesake(t2, o1, t1, name, digits);
      } else {
        var n1, d1 :| IsAgent(o1, n1, d1);
        var n2, d2 :| IsAgent(o2, n2, d2);
        AgentsDiffer(o1, t1, o2, t2, n1, d1, n2, d2);
      }
    }
  }

  lemma IsRunner(runner: OwnerId, t: TaskId, agent: OwnerId, task: TaskId)
    requires MeetsNamesake(runner, t, agent, task)
    ensures runner == RUNNER
  {
  }

  /** So a call of the runner can be shown on the step of an agent called like it. */
  lemma AColonCanCrossOwners(agent: OwnerId, digits: string, task: TaskId) returns (turns: seq<Turn>)
    requires IsAgent(agent, RUNNER, digits)
    ensures IsStream(turns) && |turns| == 2
    ensures turns[1].event == ToolStarted(RUNNER, digits + ":" + task, "y")
    ensures |turns[1].updates| == 1 && turns[1].updates[0].owner == agent && !OnOwnStep(turns[1])
  {
    var other := digits + ":" + task;
    assert MeetsNamesake(RUNNER, other, agent, task);
    NamesakeSharesKey(other, agent, task);
    hide MeetsNamesake, IsAgent;
    var e1, e2 := ToolStarted(agent, task, "x"), ToolStarted(RUNNER, other, "y");
    var (s1, u1, r1) := ProjectToolStarted(Initial, agent, task, "x");
    var (s2, u2, r2) := ProjectToolStarted(s1, RUNNER, other, "y");
    turns := [Turn(e1, u1, s1), Turn(e2, u2, s2)];
    assert turns[..1] == [Turn(e1, u1, s1)] && turns[..1][..0] == [];
    assert IsStream(turns[..1]);
    hide LatestCompleted, FirstFree, NameOf, TaskKey;
    assert r1.id in s1.steps && s1.steps[r1.id].owner == agent && s1.taskSteps[TaskKey(agent, task)] == r1.id;
    assert r2.id == r1.id;
  }
}

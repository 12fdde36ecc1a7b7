/** Which calls run on a step, told by the events of the stream, and what that decides. */
module ProgressRunning {
  import opened Wrappers
  import opened Text
  import opened ProgressState
  import opened ProgressTrace
  import opened ProgressCalls
  import opened ProgressSteps

  /** A call of this task is started, on this step. */
  predicate StartsOn(t: Turn, id: StepId, task: TaskId) {
    t.event.ToolStarted? && t.event.task == task && ShownOn(t, id)
  }

  /** The call of the completion at `l` was started before, on this step. */
  ghost predicate EndsOn(turns: seq<Turn>, l: nat, id: StepId, task: TaskId)
    requires l < |turns|
  {
    turns[l].event.ToolCompleted? && turns[l].event.task == task &&
    exists j :: 0 <= j < l && StartsCall(turns[j], TaskKey(turns[l].event.owner, task)) && ShownOn(turns[j], id)
  }

  /** A call of the task was started on the step and not completed since. */
  ghost predicate Running(turns: seq<Turn>, id: StepId, task: TaskId) {
    exists k: nat :: k < |turns| && StartsOn(turns[k], id, task)
      && forall l: nat :: k < l < |turns| ==> !EndsOn(turns, l, id, task)
  }

  /** What the state keeps of that. */
  predicate CallRuns(s: State, id: StepId, task: TaskId) {
    id in s.steps && task in s.steps[id].calls && s.steps[id].calls[task] == InProgress
  }

  lemma SummaryCalls(s: State, owner: OwnerId, title: string, summary: string, id: StepId, task: TaskId)
    requires Indexed(s) && s.next < U64_MAX
    ensures CallRuns(ProjectSummary(s, owner, title, summary).0, id, task) <==> CallRuns(s, id, task)
  {
    hide Indexed, Trim, NameOf, ProjectSummary;
    if Trim(title) != [] {
      SummaryOpensOneStep(s, owner, title, summary);
    } else {
      BlankSummaryDoesNothing(s, owner, title, summary);
    }
  }

  lemma RecordedCalls(s: State, id: StepId, owner: OwnerId, task: TaskId, status: Status, x: StepId, u: TaskId)
    requires id in s.steps
    ensures var after := RecordCall(s, id, owner, task, status);
      && (CallRuns(after, x, u) <==> if x == id && u == task then status == InProgress else CallRuns(s, x, u))
      && (CallRuns(Reopen(after, id), x, u) <==> CallRuns(after, x, u))
      && after.steps.Keys == s.steps.Keys
  {
    hide TaskKey;
  }

  lemma ResolvedCalls(s: State, owner: OwnerId, task: TaskId, defaultTitle: string, x: StepId, u: TaskId)
    requires Indexed(s) && s.next < U64_MAX
    ensures CallRuns(ResolveStarted(s, owner, task, defaultTitle).0, x, u) <==> CallRuns(s, x, u)
  {
    hide TaskKey, NameOf, FirstFree, LatestCompleted;
    NextNameIsFree(ClearActive(s, owner));
  }

  lemma ToolStartCalls(s: State, owner: OwnerId, task: TaskId, title: string, x: StepId, u: TaskId)
    requires Indexed(s) && s.next < U64_MAX
    ensures var (after, updates, r) := ProjectToolStarted(s, owner, task, title);
      && |updates| == 1 && updates[0].id == r.id
      && (CallRuns(after, x, u) <==> (x == r.id && u == task) || CallRuns(s, x, u))
  {
    ToolStartEntries(s, owner, task, title);
    ResolvedIsIndexed(s, owner, task, "Tool executions");
    ResolvedCalls(s, owner, task, "Tool executions", x, u);
    hide ResolveStarted, Indexed, CallRuns, Reopen, RecordCall;
    var (resolved, r) := ResolveStarted(s, owner, task, "Tool executions");
    RecordedCalls(resolved, r.id, owner, task, InProgress, x, u);
  }

  /** What one event does to the calls that run. */
  lemma CallsAfter(s: State, e: Event, after: State, updates: seq<Update>, id: StepId, task: TaskId)
    requires Indexed(s) && s.next < U64_MAX && Projects(s, e, after, updates)
    ensures CallRuns(after, id, task) <==>
      || StartsOn(Turn(e, updates, after), id, task)
      || (CallRuns(s, id, task)
          && !(e.ToolCompleted? && e.task == task && ResolveCompleted(s, e.owner, e.task) == Some(id)))
  {
    hide Indexed, ProjectSummary, ProjectToolStarted, RecordCall, ProjectsMessage, IsComplete;
    match e
    case SummaryCreated(o, title, summary) => SummaryCalls(s, o, title, summary, id, task);
    case ToolStarted(o, t, title) => ToolStartCalls(s, o, t, title, id, task);
    case ToolCompleted(o, t) =>
      var found := ResolveCompleted(s, o, t);
      if found.Some? {
        RecordedCalls(s, found.value, o, t, Complete, id, task);
      }
    case MessageOutputCreated(o) => MessageCompletesItsOwner(s, o, after, updates);
  }

  /** The last turn ends the call if it is the completion of a call that resolves to the step. */
  lemma LastEnds(turns: seq<Turn>, id: StepId, task: TaskId)
    requires IsStream(turns) && 0 < |turns| < U64_MAX
    ensures var front, e := turns[..|turns| - 1], turns[|turns| - 1].event;
      EndsOn(turns, |turns| - 1, id, task) <==>
        e.ToolCompleted? && e.task == task && ResolveCompleted(StateAfter(front), e.owner, e.task) == Some(id)
  {
    var front, e := turns[..|turns| - 1], turns[|turns| - 1].event;
    if e.ToolCompleted? && e.task == task {
      CompletionFindsItsStart(front, e.owner, e.task);
      hide IsStream, StartsCall, ResolveCompleted, TaskKey, StateAfter;
      assert forall j :: 0 <= j < |front| ==> front[j] == turns[j];
    }
  }

  lemma EndsInFront(turns: seq<Turn>, id: StepId, task: TaskId)
    requires turns != []
    ensures var front := turns[..|turns| - 1];
      forall l: nat :: l < |front| ==> (EndsOn(front, l, id, task) <==> EndsOn(turns, l, id, task))
  {
    var front := turns[..|turns| - 1];
    hide StartsCall, ShownOn, TaskKey;
    forall l: nat | l < |front| ensures EndsOn(front, l, id, task) <==> EndsOn(turns, l, id, task) {
      assert forall j :: 0 <= j <= l ==> front[j] == turns[j];
    }
  }

  lemma RunningGrows(turns: seq<Turn>, id: StepId, task: TaskId)
    requires turns != []
    ensures var front, last := turns[..|turns| - 1], turns[|turns| - 1];
      Running(turns, id, task) <==>
        StartsOn(last, id, task) || (Running(front, id, task) && !EndsOn(turns, |turns| - 1, id, task))
  {
    var front, last := turns[..|turns| - 1], turns[|turns| - 1];
    EndsInFront(turns, id, task);
    hide StartsOn, EndsOn;
    assert forall j :: 0 <= j < |front| ==> front[j] == turns[j];
    if Running(front, id, task) && !EndsOn(turns, |turns| - 1, id, task) {
      var k: nat :| k < |front| && StartsOn(front[k], id, task)
        && forall l: nat :: k < l < |front| ==> !EndsOn(front, l, id, task);
      assert StartsOn(turns[k], id, task) && forall l: nat :: k < l < |turns| ==> !EndsOn(turns, l, id, task);
    }
    if Running(turns, id, task) && !StartsOn(last, id, task) {
      var k: nat :| k < |turns| && StartsOn(turns[k], id, task)
        && forall l: nat :: k < l < |turns| ==> !EndsOn(turns, l, id, task);
      assert StartsOn(front[k], id, task) && forall l: nat :: k < l < |front| ==> !EndsOn(front, l, id, task);
    }
  }

  /** The state knows exactly the calls that run. */
  lemma {:induction false} CallsAreTracked(turns: seq<Turn>, id: StepId, task: TaskId)
    requires IsStream(turns) && |turns| < U64_MAX
    ensures CallRuns(StateAfter(turns), id, task) <==> Running(turns, id, task)
  {
    if turns != [] {
      hide Projects, Indexed, Running, EndsOn, CallRuns, StartsOn, ResolveCompleted;
      var front, last := turns[..|turns| - 1], turns[|turns| - 1];
      CallsAreTracked(front, id, task);
      StreamIsIndexed(front);
      CallsAfter(StateAfter(front), last.event, last.after, last.updates, id, task);
      assert last == Turn(last.event, last.updates, last.after);
      LastEnds(turns, id, task);
      RunningGrows(turns, id, task);
    } else {
      assert !Running(turns, id, task);
    }
  }

  // ----- What it decides

  /** Active steps are open. */
  ghost predicate ActiveStepsOpen(s: State) {
    forall o :: o in s.active ==> s.active[o] in s.steps && s.steps[s.active[o]].lifecycle == Active
  }

  lemma ToolStartLifecycles(s: State, owner: OwnerId, task: TaskId, title: string)
    requires Indexed(s) && s.next < U64_MAX
    ensures var (after, _, r) := ProjectToolStarted(s, owner, task, title);
      && r.id in after.steps && after.steps[r.id].lifecycle == Active
      && forall x :: x in s.steps && x != r.id ==> x in after.steps && after.steps[x].lifecycle == s.steps[x].lifecycle
  {
    ResolvedIsIndexed(s, owner, task, "Tool executions");
    hide ResolveStarted, Indexed, TaskKey;
  }

  lemma OpenAfter(s: State, e: Event, after: State, updates: seq<Update>)
    requires Indexed(s) && s.next < U64_MAX && Projects(s, e, after, updates) && ActiveStepsOpen(s)
    ensures ActiveStepsOpen(after)
  {
    hide Indexed, ProjectSummary, ProjectToolStarted, ProjectsMessage, Trim, TaskKey, NameOf, ActiveStepsOpen;
    match e
    case SummaryCreated(o, title, summary) => SummaryKeepsOpen(s, o, title, summary);
    case ToolStarted(o, task, title) => ToolStartKeepsOpen(s, o, task, title);
    case ToolCompleted(o, task) => CompletionKeepsOpen(s, o, task);
    case MessageOutputCreated(o) => MessageKeepsOpen(s, o, after, updates);
  }

  lemma SummaryKeepsOpen(s: State, owner: OwnerId, title: string, summary: string)
    requires Indexed(s) && s.next < U64_MAX && ActiveStepsOpen(s)
    ensures ActiveStepsOpen(ProjectSummary(s, owner, title, summary).0)
  {
    assert ActiveStepsExist(s);
    hide Indexed, ProjectSummary, Trim, NameOf;
    if Trim(title) != [] {
      SummaryOpensOneStep(s, owner, title, summary);
    } else {
      BlankSummaryDoesNothing(s, owner, title, summary);
    }
  }

  lemma ToolStartKeepsOpen(s: State, owner: OwnerId, task: TaskId, title: string)
    requires Indexed(s) && s.next < U64_MAX && ActiveStepsOpen(s)
    ensures ActiveStepsOpen(ProjectToolStarted(s, owner, task, title).0)
  {
    hide Indexed, ProjectToolStarted, TaskKey, NameOf;
    ToolStartActive(s, owner, task, title);
    ToolStartLifecycles(s, owner, task, title);
  }

  lemma CompletionKeepsOpen(s: State, owner: OwnerId, task: TaskId)
    requires ActiveStepsOpen(s)
    ensures ActiveStepsOpen(ProjectToolCompleted(s, owner, task).0)
  {
    hide ProjectToolCompleted;
    CompletionLifecycles(s, owner, task);
  }

  lemma MessageKeepsOpen(s: State, owner: OwnerId, after: State, updates: seq<Update>)
    requires Indexed(s) && ActiveStepsOpen(s) && ProjectsMessage(s, owner, after, updates)
    ensures ActiveStepsOpen(after)
  {
    assert ActiveStepsExist(s);
    hide Indexed, ProjectsMessage;
    MessageCompletesItsOwner(s, owner, after, updates);
  }

  lemma CompletionLifecycles(s: State, owner: OwnerId, task: TaskId)
    ensures var after := ProjectToolCompleted(s, owner, task).0;
      && after.active == s.active
      && forall x :: x in s.steps ==> x in after.steps && after.steps[x].lifecycle == s.steps[x].lifecycle
  {
    hide TaskKey, IsComplete;
  }

  lemma {:induction false} StreamKeepsActiveOpen(turns: seq<Turn>)
    requires IsStream(turns) && |turns| < U64_MAX
    ensures ActiveStepsOpen(StateAfter(turns))
  {
    if turns != [] {
      hide Projects, Indexed, ActiveStepsOpen;
      var front, last := turns[..|turns| - 1], turns[|turns| - 1];
      StreamKeepsActiveOpen(front);
      StreamIsIndexed(front);
      OpenAfter(StateAfter(front), last.event, last.after, last.updates);
    }
  }

  /** Some call on the step runs. */
  ghost predicate AnyRunning(turns: seq<Turn>, id: StepId) {
    exists task :: Running(turns, id, task)
  }

  lemma BusyMeansRunning(turns: seq<Turn>, id: StepId)
    requires IsStream(turns) && |turns| < U64_MAX && id in StateAfter(turns).steps
    ensures IsBusy(StateAfter(turns).steps[id]) <==> AnyRunning(turns, id)
  {
    hide IsStream, Running;
    forall task ensures CallRuns(StateAfter(turns), id, task) <==> Running(turns, id, task) {
      CallsAreTracked(turns, id, task);
    }
    if IsBusy(StateAfter(turns).steps[id]) {
      var task :| task in StateAfter(turns).steps[id].calls && StateAfter(turns).steps[id].calls[task] == InProgress;
      assert CallRuns(StateAfter(turns), id, task);
    }
    if AnyRunning(turns, id) {
      var task :| Running(turns, id, task);
      assert CallRuns(StateAfter(turns), id, task);
    }
  }

  /** The updates of a summary: the completion of the owner's active step, if there is one to announce, and its own step. */
  function SummarySays(s: State, owner: OwnerId, title: string, summary: string, completes: bool): seq<Update>
    requires completes ==> owner in s.active && s.active[owner] in s.steps
  {
    (if completes then [ScopeCompleted(s.active[owner], owner, s.steps[s.active[owner]].title)] else [])
    + [ScopeStarted(NameOf(s.next + 1), owner, title, if Trim(summary) == [] then None else Some(Trim(summary) + "\n"))]
  }

  lemma SummaryUpdates(s: State, owner: OwnerId, title: string, summary: string)
    requires Indexed(s) && s.next < U64_MAX && ActiveStepsOpen(s) && Trim(title) != []
    ensures ProjectSummary(s, owner, title, summary).1
      == SummarySays(s, owner, title, summary, owner in s.active && !IsBusy(s.steps[s.active[owner]]))
  {
    var (idle, completed) := CompleteActiveIfIdle(s, owner);
    IdleShows(s, owner, SummaryCreated(owner, title, summary));
    CreateKeepsIndexed(idle, owner, title);
    NextNameIs(idle, owner, title);
    IdleSays(s, owner);
    hide Indexed, ActiveStepsOpen, IsBusy, NameOf, Trim, SummaryDetail, Create, Show, ViewOf, CompleteActiveIfIdle;
  }

  lemma IdleSays(s: State, owner: OwnerId)
    requires Indexed(s) && ActiveStepsOpen(s)
    ensures var completed := CompleteActiveIfIdle(s, owner).1;
      && (completed.Some? <==> owner in s.active && !IsBusy(s.steps[s.active[owner]]))
      && (completed.Some? ==>
            CompletedUpdate(completed.value) == ScopeCompleted(s.active[owner], owner, s.steps[s.active[owner]].title))
  {
    assert owner in s.active ==> s.steps[s.active[owner]].owner == owner && s.steps[s.active[owner]].id == s.active[owner];
    hide Indexed, ActiveStepsOpen, IsBusy;
  }

  /**
   A summary completes the active step of its owner exactly when every call started on that step has been completed since
   its last start, and then opens its own step; it says nothing else.
   */
  lemma SummaryCompletesExactlyWhen(turns: seq<Turn>)
    requires IsStream(turns) && 0 < |turns| < U64_MAX
    requires TitledSummary(turns[|turns| - 1].event, turns[|turns| - 1].event.owner)
    ensures var front, last := turns[..|turns| - 1], turns[|turns| - 1];
      var owner, s := last.event.owner, StateAfter(front);
      && (owner in s.active ==> s.active[owner] in s.steps)
      && last.updates == SummarySays(s, owner, last.event.title, last.event.summary,
                                     owner in s.active && !AnyRunning(front, s.active[owner]))
  {
    var front, last := turns[..|turns| - 1], turns[|turns| - 1];
    var owner, s := last.event.owner, StateAfter(front);
    hide Indexed, ActiveStepsOpen, AnyRunning, IsBusy, NameOf, SummaryDetail, Trim, ProjectSummary, Projects,
      SummarySays;
    assert IsStream(front) && Projects(s, last.event, last.after, last.updates);
    hide IsStream, StateAfter;
    SummaryProjects(s, last.event, last.after, last.updates);
    StreamIsIndexed(front);
    StreamKeepsActiveOpen(front);
    if owner in s.active {
      ActiveIsStep(s, owner);
      BusyMeansRunning(front, s.active[owner]);
    }
    SummaryUpdates(s, owner, last.event.title, last.event.summary);
  }

  lemma SummaryProjects(s: State, e: Event, after: State, updates: seq<Update>)
    requires Projects(s, e, after, updates) && e.SummaryCreated?
    ensures updates == ProjectSummary(s, e.owner, e.title, e.summary).1
  {
    hide ProjectSummary;
  }

  lemma ActiveIsStep(s: State, owner: OwnerId)
    requires Indexed(s) && owner in s.active
    ensures s.active[owner] in s.steps
  {
  }

  /**
   The completion of a call says that its step goes on exactly when some call on the step still runs; when none does, and
   when the call was never started, it says nothing.
   */
  lemma CompletionSaysExactlyWhen(turns: seq<Turn>)
    requires IsStream(turns) && 0 < |turns| < U64_MAX && turns[|turns| - 1].event.ToolCompleted?
    ensures var front, last := turns[..|turns| - 1], turns[|turns| - 1];
      var s := StateAfter(front);
      match ResolveCompleted(s, last.event.owner, last.event.task)
      case None => last.updates == []
      case Some(id) =>
        && id in s.steps
        && last.updates ==
           if AnyRunning(turns, id) then [ScopeUpdated(id, s.steps[id].owner, s.steps[id].title, InProgress, None)] else []
  {
    var front, last := turns[..|turns| - 1], turns[|turns| - 1];
    var s, e := StateAfter(front), last.event;
    StreamIsIndexed(front);
    var found := ResolveCompleted(s, e.owner, e.task);
    if found.Some? {
      CompletionUpdates(s, e.owner, e.task);
      BusyMeansRunning(turns, found.value);
    }
    hide AnyRunning, IsBusy, Indexed, ResolveCompleted, IsStream;
  }

  lemma CompletionUpdates(s: State, owner: OwnerId, task: TaskId)
    requires Indexed(s) && ResolveCompleted(s, owner, task).Some?
    ensures var id := ResolveCompleted(s, owner, task).value; var (after, updates) := ProjectToolCompleted(s, owner, task);
      && id in s.steps && id in after.steps
      && updates == Some(if IsBusy(after.steps[id])
                         then [ScopeUpdated(id, s.steps[id].owner, s.steps[id].title, InProgress, None)] else [])
  {
    hide IsBusy, TaskKey, NameOf, ActiveStepsExist, TaskStepsExist;
    var id := ResolveCompleted(s, owner, task).value;
    var after := ProjectToolCompleted(s, owner, task).0;
    assert task in after.steps[id].calls;
  }
}

/** Which step a new call is shown on, and when a step is completed, told by the events of the stream alone. */
module ProgressSteps {
  import opened Wrappers
  import opened Text
  import opened ProgressState
  import opened ProgressTrace
  import opened ProgressCalls

  // ----- The active step of an owner

  predicate TitledSummary(e: Event, owner: OwnerId) {
    e.SummaryCreated? && e.owner == owner && Trim(e.title) != []
  }

  predicate IsMessage(e: Event, owner: OwnerId) {
    e.MessageOutputCreated? && e.owner == owner
  }

  /** No call with the key of the tool start at `k` was started before. */
  ghost predicate IsFirstStart(turns: seq<Turn>, k: nat)
    requires k < |turns|
  {
    turns[k].event.ToolStarted? &&
    forall j :: 0 <= j < k ==> !StartsCall(turns[j], TaskKey(turns[k].event.owner, turns[k].event.task))
  }

  /** A summary with a title and the first start of a call leave their owner with an active step. */
  ghost predicate Activates(turns: seq<Turn>, k: nat, owner: OwnerId)
    requires k < |turns|
  {
    TitledSummary(turns[k].event, owner) || (IsFirstStart(turns, k) && turns[k].event.owner == owner)
  }

  /** Some event of the owner left it with an active step, and no message output of the owner came after that. */
  ghost predicate HasActive(turns: seq<Turn>, owner: OwnerId) {
    exists k: nat :: k < |turns| && Activates(turns, k, owner)
      && forall l :: k < l < |turns| ==> !IsMessage(turns[l].event, owner)
  }

  /** The start of a call: what it does to the active steps, and where it puts a new call. */
  lemma ToolStartActive(s: State, owner: OwnerId, task: TaskId, title: string)
    requires Indexed(s) && s.next < U64_MAX
    ensures var (after, updates, r) := ProjectToolStarted(s, owner, task, title); var key := TaskKey(owner, task);
      && (key in s.taskSteps || owner in s.active ==>
            after.active == s.active && after.steps.Keys == s.steps.Keys && r.reopenedFrom == None)
      && (key !in s.taskSteps && owner in s.active ==> r.id == s.active[owner])
      && (key !in s.taskSteps && owner !in s.active ==>
            r.id == NameOf(s.next + 1) && r.id !in s.steps
            && after.active == s.active[owner := r.id] && after.steps.Keys == s.steps.Keys + {r.id})
  {
    hide TaskKey, NameOf, FirstFree, LatestCompleted;
    var key := TaskKey(owner, task);
    if key !in s.taskSteps && owner !in s.active {
      var cleared := ClearActive(s, owner);
      assert cleared == s;
      NextNameIsFree(s);
    }
  }

  /** What one event does to the active steps. */
  lemma ActiveAfter(s: State, e: Event, after: State, updates: seq<Update>, owner: OwnerId)
    requires Indexed(s) && s.next < U64_MAX && Projects(s, e, after, updates)
    ensures var starts := e.ToolStarted? && e.owner == owner && TaskKey(e.owner, e.task) !in s.taskSteps;
      && (owner in after.active <==>
            TitledSummary(e, owner) || starts || (owner in s.active && !IsMessage(e, owner)))
      && (owner in s.active && !TitledSummary(e, owner) && !IsMessage(e, owner) ==>
            owner in after.active && after.active[owner] == s.active[owner])
      && (TitledSummary(e, owner) ==> updates != [] && after.active[owner] == updates[|updates| - 1].id)
  {
    hide Indexed, TaskKey, NameOf, Trim, ProjectSummary, ProjectToolStarted, RecordCall, ProjectsMessage;
    match e
    case SummaryCreated(o, title, summary) =>
      if Trim(title) != [] {
        SummaryOpensOneStep(s, o, title, summary);
      } else {
        BlankSummaryDoesNothing(s, o, title, summary);
      }
    case ToolStarted(o, task, title) => ToolStartActive(s, o, task, title);
    case ToolCompleted(o, task) => CompletionKeepsActive(s, o, task);
    case MessageOutputCreated(o) => MessageCompletesItsOwner(s, o, after, updates);
  }

  lemma BlankSummaryDoesNothing(s: State, owner: OwnerId, title: string, summary: string)
    requires Trim(title) == []
    ensures ProjectSummary(s, owner, title, summary) == (s, [])
  {
    hide Trim;
  }

  lemma CompletionKeepsActive(s: State, owner: OwnerId, task: TaskId)
    ensures ProjectToolCompleted(s, owner, task).0.active == s.active
  {
  }

  /** An owner has an active step exactly when something left it with one since its last message output. */
  lemma {:induction false} ActiveExactlyWhen(turns: seq<Turn>, owner: OwnerId)
    requires IsStream(turns) && |turns| < U64_MAX
    ensures owner in StateAfter(turns).active <==> HasActive(turns, owner)
  {
    if turns != [] {
      hide Projects, Indexed, TaskKey, Activates, IsMessage;
      var front, last := turns[..|turns| - 1], turns[|turns| - 1];
      ActiveExactlyWhen(front, owner);
      StreamIsIndexed(front);
      ActiveAfter(StateAfter(front), last.event, last.after, last.updates, owner);
      LastActivates(turns, owner);
      HasActiveGrows(turns, owner);
    }
  }

  lemma {:induction false} StreamFront(turns: seq<Turn>, n: nat)
    requires IsStream(turns) && n <= |turns|
    ensures IsStream(turns[..n])
    decreases |turns|
  {
    if n < |turns| {
      StreamFront(turns[..|turns| - 1], n);
      assert turns[..|turns| - 1][..n] == turns[..n];
    } else {
      assert turns[..n] == turns;
    }
  }

  /** A key is new exactly when no call with it was started. */
  lemma KeyIsNew(front: seq<Turn>, key: string)
    requires IsStream(front) && |front| < U64_MAX
    ensures key !in StateAfter(front).taskSteps <==> forall j :: 0 <= j < |front| ==> !StartsCall(front[j], key)
  {
    hide IsStream, StartsCall, ShownOn;
    EntriesAreStarts(front);
  }

  lemma FirstStartIsNew(turns: seq<Turn>, j: nat)
    requires IsStream(turns) && j < |turns| < U64_MAX && turns[j].event.ToolStarted?
    ensures IsStream(turns[..j])
    ensures IsFirstStart(turns, j) <==>
      TaskKey(turns[j].event.owner, turns[j].event.task) !in StateAfter(turns[..j]).taskSteps
  {
    hide StartsCall, TaskKey, Projects;
    StreamFront(turns, j);
    KeyIsNew(turns[..j], TaskKey(turns[j].event.owner, turns[j].event.task));
    assert forall l :: 0 <= l < j ==> turns[..j][l] == turns[l];
  }

  lemma LastActivates(turns: seq<Turn>, owner: OwnerId)
    requires IsStream(turns) && 0 < |turns| < U64_MAX
    ensures var front, last := turns[..|turns| - 1], turns[|turns| - 1];
      Activates(turns, |turns| - 1, owner) <==>
        || TitledSummary(last.event, owner)
        || (last.event.ToolStarted? && last.event.owner == owner
            && TaskKey(last.event.owner, last.event.task) !in StateAfter(front).taskSteps)
  {
    hide IsStream, TaskKey, StateAfter;
    if turns[|turns| - 1].event.ToolStarted? {
      FirstStartIsNew(turns, |turns| - 1);
      hide IsFirstStart;
    }
  }

  lemma HasActiveGrows(turns: seq<Turn>, owner: OwnerId)
    requires turns != []
    ensures var front, last := turns[..|turns| - 1], turns[|turns| - 1];
      HasActive(turns, owner) <==>
        (Activates(turns, |turns| - 1, owner) || (HasActive(front, owner) && !IsMessage(last.event, owner)))
  {
    var front, last := turns[..|turns| - 1], turns[|turns| - 1];
    forall k: nat | k < |front| ensures Activates(front, k, owner) == Activates(turns, k, owner) {
      assert forall j :: 0 <= j <= k ==> front[j] == turns[j];
      hide StartsCall, TitledSummary;
    }
    hide Activates, IsMessage;
    assert forall j :: 0 <= j < |front| ==> front[j] == turns[j];
    if HasActive(front, owner) && !IsMessage(last.event, owner) {
      var k: nat :| k < |front| && Activates(front, k, owner)
        && forall l :: k < l < |front| ==> !IsMessage(front[l].event, owner);
      assert Activates(turns, k, owner) && forall l :: k < l < |turns| ==> !IsMessage(turns[l].event, owner);
    }
    if HasActive(turns, owner) && !Activates(turns, |turns| - 1, owner) {
      var k: nat :| k < |turns| && Activates(turns, k, owner)
        && forall l :: k < l < |turns| ==> !IsMessage(turns[l].event, owner);
      assert Activates(front, k, owner) && forall l :: k < l < |front| ==> !IsMessage(front[l].event, owner);
    }
  }

  // ----- Where a new call is shown

  /** The step of a summary stays its owner's active one up to the next summary or message output of that owner. */
  lemma {:induction false} SummaryStaysActive(turns: seq<Turn>, k: nat, owner: OwnerId)
    requires IsStream(turns) && |turns| < U64_MAX && k < |turns| && TitledSummary(turns[k].event, owner)
    requires forall l :: k < l < |turns| ==> !TitledSummary(turns[l].event, owner) && !IsMessage(turns[l].event, owner)
    ensures turns[k].updates != [] && owner in StateAfter(turns).active
    ensures StateAfter(turns).active[owner] == turns[k].updates[|turns[k].updates| - 1].id
    decreases |turns|
  {
    hide Projects, Indexed, TitledSummary, IsMessage, TaskKey;
    var front, last := turns[..|turns| - 1], turns[|turns| - 1];
    StreamIsIndexed(front);
    ActiveAfter(StateAfter(front), last.event, last.after, last.updates, owner);
    if k < |front| {
      assert forall l :: 0 <= l < |front| ==> front[l] == turns[l];
      SummaryStaysActive(front, k, owner);
    }
  }

  /** Where a new call is shown, and what that shows. */
  lemma NewCallIsShown(s: State, owner: OwnerId, task: TaskId, title: string)
    requires Indexed(s) && s.next < U64_MAX && TaskKey(owner, task) !in s.taskSteps
    ensures var (after, updates, r) := ProjectToolStarted(s, owner, task, title);
      && |updates| == 1 && updates[0].id == r.id
      && (owner in s.active ==> r.id == s.active[owner] && after.steps.Keys == s.steps.Keys)
      && (owner !in s.active ==> r.id !in s.steps && after.steps.Keys == s.steps.Keys + {r.id})
  {
    ToolStartActive(s, owner, task, title);
    ToolStartEntries(s, owner, task, title);
    hide ProjectToolStarted, Indexed, TaskKey;
  }

  lemma TurnProjects(turns: seq<Turn>, j: nat)
    requires IsStream(turns) && j < |turns|
    ensures Projects(StateAfter(turns[..j]), turns[j].event, turns[j].after, turns[j].updates)
  {
    StreamFront(turns, j + 1);
    assert turns[..j + 1][..j] == turns[..j] && turns[..j + 1][j] == turns[j];
    hide Projects;
  }

  lemma ActiveBefore(turns: seq<Turn>, k: nat, j: nat, owner: OwnerId)
    requires IsStream(turns) && |turns| < U64_MAX && k < j < |turns| && TitledSummary(turns[k].event, owner)
    requires forall l :: k < l < j ==> !TitledSummary(turns[l].event, owner) && !IsMessage(turns[l].event, owner)
    ensures turns[k].updates != [] && Indexed(StateAfter(turns[..j])) && StateAfter(turns[..j]).next < U64_MAX
    ensures owner in StateAfter(turns[..j]).active
    ensures StateAfter(turns[..j]).active[owner] == turns[k].updates[|turns[k].updates| - 1].id
  {
    hide Projects, Indexed, TitledSummary, IsMessage;
    var front := turns[..j];
    StreamFront(turns, j);
    assert forall l :: 0 <= l < j ==> front[l] == turns[l];
    hide IsStream;
    SummaryStaysActive(front, k, owner);
    StreamIsIndexed(front);
  }

  lemma StartShowsNewCall(s: State, e: Event, after: State, updates: seq<Update>)
    requires Indexed(s) && s.next < U64_MAX && Projects(s, e, after, updates)
    requires e.ToolStarted? && TaskKey(e.owner, e.task) !in s.taskSteps && e.owner in s.active
    ensures ShownOn(Turn(e, updates, after), s.active[e.owner]) && after.steps.Keys == s.steps.Keys
  {
    hide Indexed, TaskKey, ProjectToolStarted;
    NewCallIsShown(s, e.owner, e.task, e.title);
  }

  lemma StateBefore(turns: seq<Turn>, j: nat)
    requires 0 < j <= |turns|
    ensures StateAfter(turns[..j]) == turns[j - 1].after
  {
  }

  /**
   The first start of a call after a summary of its owner, with no other summary and no message output of the owner in
   between, is shown on the step that summary opened, and adds no step.
   */
  lemma NewCallJoinsTheSummary(turns: seq<Turn>, k: nat, j: nat)
    requires IsStream(turns) && |turns| < U64_MAX && k < j < |turns| && IsFirstStart(turns, j)
    requires var owner := turns[j].event.owner;
      && TitledSummary(turns[k].event, owner)
      && forall l :: k < l < j ==> !TitledSummary(turns[l].event, owner) && !IsMessage(turns[l].event, owner)
    ensures turns[k].updates != [] && ShownOn(turns[j], turns[k].updates[|turns[k].updates| - 1].id)
    ensures turns[j].after.steps.Keys == turns[j - 1].after.steps.Keys
  {
    var e := turns[j].event;
    hide Projects, TaskKey, TitledSummary, IsMessage, IsFirstStart, StateAfter;
    FirstStartIsNew(turns, j);
    TurnProjects(turns, j);
    ActiveBefore(turns, k, j, e.owner);
    hide IsStream;
    StartShowsNewCall(StateAfter(turns[..j]), e, turns[j].after, turns[j].updates);
    StateBefore(turns, j);
  }

  /** `x` is the owner's completed step of greatest number. */
  ghost predicate LastCompletedOf(s: State, owner: OwnerId, x: StepId) {
    IsCompletedOf(s, owner, x) && forall y :: IsCompletedOf(s, owner, y) ==> s.steps[y].number <= s.steps[x].number
  }

  /** The title of a step that is opened for a call, and the step it is taken from. */
  lemma OpenedForACall(s: State, owner: OwnerId, task: TaskId, title: string)
    requires Indexed(s) && s.next < U64_MAX && TaskKey(owner, task) !in s.taskSteps && owner !in s.active
    ensures var (after, updates, r) := ProjectToolStarted(s, owner, task, title);
      && r.id !in s.steps && after.steps.Keys == s.steps.Keys + {r.id}
      && (forall x :: LastCompletedOf(s, owner, x) ==>
            && r.reopenedFrom == Some(x)
            && updates == [ScopeUpdated(r.id, owner, s.steps[x].title, InProgress, Some(title + "\n"))])
      && ((forall x :: !IsCompletedOf(s, owner, x)) ==>
            && r.reopenedFrom == None
            && updates == [ScopeUpdated(r.id, owner, "Tool executions", InProgress, Some(title + "\n"))])
  {
    ToolStartActive(s, owner, task, title);
    ToolStartEntries(s, owner, task, title);
    OpenedTitle(s, owner, task, title);
    LatestIsLatest(s, owner, s.next);
    var latest := LatestCompleted(s, owner, s.next);
    assert StepsAreNamed(s);
    hide ProjectToolStarted, Indexed, TaskKey, LatestCompleted, NameOf;
    forall x | LastCompletedOf(s, owner, x) ensures latest.Some? && latest.value.id == x {
      NumbersDiffer(s, x, latest.value.id);
    }
  }

  lemma NumbersDiffer(s: State, x: StepId, y: StepId)
    requires StepsAreNamed(s) && x in s.steps && y in s.steps && s.steps[x].number == s.steps[y].number
    ensures x == y
  {
  }

  lemma OpenedTitle(s: State, owner: OwnerId, task: TaskId, title: string)
    requires Indexed(s) && s.next < U64_MAX && TaskKey(owner, task) !in s.taskSteps && owner !in s.active
    ensures var (after, _, r) := ProjectToolStarted(s, owner, task, title);
      var latest := LatestCompleted(s, owner, s.next);
      && r.id in after.steps && after.steps[r.id].owner == owner
      && after.steps[r.id].title == (if latest.Some? then latest.value.title else "Tool executions")
      && r.reopenedFrom == if latest.Some? then Some(latest.value.id) else None
  {
    assert ClearActive(s, owner) == s;
    NextNameIsFree(s);
    hide TaskKey, NameOf, FirstFree, LatestCompleted, StepsAreNamed, ActiveStepsExist, TaskStepsExist;
  }

  /**
   The first start of a call whose owner has no active step adds exactly one step, titled like the owner's completed step
   of greatest number, or "Tool executions" if it has none.
   */
  lemma NewCallOpensAStep(turns: seq<Turn>)
    requires IsStream(turns) && 0 < |turns| < U64_MAX && IsFirstStart(turns, |turns| - 1)
    requires !HasActive(turns[..|turns| - 1], turns[|turns| - 1].event.owner)
    ensures var s, t := StateAfter(turns[..|turns| - 1]), turns[|turns| - 1];
      && |t.updates| == 1 && t.updates[0].id !in s.steps && t.after.steps.Keys == s.steps.Keys + {t.updates[0].id}
      && (forall x :: LastCompletedOf(s, t.event.owner, x) ==>
            t.updates[0] == ScopeUpdated(t.updates[0].id, t.event.owner, s.steps[x].title, InProgress,
                                         Some(t.event.title + "\n")))
      && ((forall x :: !IsCompletedOf(s, t.event.owner, x)) ==>
            t.updates[0] == ScopeUpdated(t.updates[0].id, t.event.owner, "Tool executions", InProgress,
                                         Some(t.event.title + "\n")))
  {
    var front, t := turns[..|turns| - 1], turns[|turns| - 1];
    var e, s := t.event, StateAfter(front);
    FirstStartIsNew(turns, |turns| - 1);
    StreamIsIndexed(front);
    ActiveExactlyWhen(front, e.owner);
    hide HasActive, TaskKey, IsFirstStart, Indexed, IsCompletedOf;
    OpenedForACall(s, e.owner, e.task, e.title);
    NewCallIsShown(s, e.owner, e.task, e.title);
    hide ProjectToolStarted, LastCompletedOf;
    CompletedOrNone(s, e.owner);
  }

  /** An owner has a last completed step or no completed step. */
  lemma CompletedOrNone(s: State, owner: OwnerId)
    requires Indexed(s)
    ensures (exists x :: LastCompletedOf(s, owner, x)) || (forall x :: !IsCompletedOf(s, owner, x))
  {
    LatestIsLatest(s, owner, s.next);
    hide LatestCompleted, NameOf;
    var latest := LatestCompleted(s, owner, s.next);
    if latest.Some? {
      assert LastCompletedOf(s, owner, latest.value.id);
    }
  }

  // ----- The numbers of the steps

  function StepName(n: nat): StepId {
    "progress-step-" + Decimal(n)
  }

  /** The steps are numbered from one on, without gaps. */
  ghost predicate NumbersUsed(s: State) {
    forall n: nat :: 1 <= n <= s.next ==> StepName(n) in s.steps
  }

  ghost predicate NamedByNumber(s: State) {
    forall id :: id in s.steps ==> 1 <= s.steps[id].number <= s.next && id == StepName(s.steps[id].number)
  }

  lemma NamesAreNumbers(s: State)
    requires Indexed(s)
    ensures NamedByNumber(s)
  {
    hide Decimal;
  }

  lemma NumbersGrow(s: State, after: State)
    requires NumbersUsed(s) && s.steps.Keys <= after.steps.Keys
    requires after.next == s.next || (after.next == s.next + 1 && NameOf(s.next + 1) in after.steps)
    ensures NumbersUsed(after)
  {
    hide Decimal;
    assert StepName(s.next + 1) == NameOf(s.next + 1);
    hide StepName, NameOf;
  }

  /** An event adds no step, or the one with the next number. */
  lemma EventNumbers(s: State, e: Event, after: State, updates: seq<Update>)
    requires Indexed(s) && s.next < U64_MAX && Projects(s, e, after, updates)
    ensures s.steps.Keys <= after.steps.Keys
    ensures after.next == s.next || (after.next == s.next + 1 && NameOf(s.next + 1) in after.steps)
  {
    match e
    case SummaryCreated(o, title, summary) => SummaryNumbers(s, o, title, summary);
    case ToolStarted(o, task, title) => ToolStartNumbers(s, o, task, title);
    case ToolCompleted(o, task) =>
    case MessageOutputCreated(o) => MessageCompletesItsOwner(s, o, after, updates);
  }

  lemma SummaryNumbers(s: State, owner: OwnerId, title: string, summary: string)
    requires Indexed(s) && s.next < U64_MAX
    ensures var after := ProjectSummary(s, owner, title, summary).0;
      && s.steps.Keys <= after.steps.Keys
      && (after.next == s.next || (after.next == s.next + 1 && NameOf(s.next + 1) in after.steps))
  {
    IdleShows(s, owner, MessageOutputCreated(owner));
    IdleIsExact(s, owner);
    hide CompleteActiveIfIdle, NameOf, FirstFree, Trim, SummaryDetail, StepsAreNamed, ActiveStepsExist, TaskStepsExist;
    var idle := CompleteActiveIfIdle(s, owner).0;
    CreateKeepsIndexed(idle, owner, title);
    NextNameIs(idle, owner, title);
  }

  lemma ToolStartNumbers(s: State, owner: OwnerId, task: TaskId, title: string)
    requires Indexed(s) && s.next < U64_MAX
    ensures var after := ProjectToolStarted(s, owner, task, title).0;
      && s.steps.Keys <= after.steps.Keys
      && (after.next == s.next || (after.next == s.next + 1 && NameOf(s.next + 1) in after.steps))
  {
    NextNameIsFree(s);
    hide NameOf, FirstFree, LatestCompleted, TaskKey, StepsAreNamed, ActiveStepsExist, TaskStepsExist;
  }

  /** The steps of a stream are `progress-step-1`, `progress-step-2` and so on. */
  lemma {:induction false} StepsAreNumbered(turns: seq<Turn>)
    requires IsStream(turns) && |turns| < U64_MAX
    ensures NumbersUsed(StateAfter(turns)) && NamedByNumber(StateAfter(turns))
  {
    hide Projects, NamedByNumber, Indexed;
    StreamIsIndexed(turns);
    NamesAreNumbers(StateAfter(turns));
    if turns != [] {
      hide NumbersUsed;
      var front, last := turns[..|turns| - 1], turns[|turns| - 1];
      StepsAreNumbered(front);
      StreamIsIndexed(front);
      EventNumbers(StateAfter(front), last.event, last.after, last.updates);
      NumbersGrow(StateAfter(front), last.after);
    }
  }
}

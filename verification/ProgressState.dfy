/**
 The step state behind a task's progress stream (crates/application/src/progress/state.rs) and the projection of
 progress events to scope updates (crates/application/src/progress/projector.rs), as functions on a value.
 */
module ProgressState {
  import opened Wrappers
  import opened Text

  type OwnerId = string
  type TaskId = string
  type StepId = string

  datatype Status = InProgress | Complete

  datatype Lifecycle = Active | Completed

  datatype ProgressStep = ProgressStep(
    id: StepId,
    owner: OwnerId,
    title: string,
    number: u64,
    lifecycle: Lifecycle,
    calls: map<TaskId, Status>)

  datatype State = State(
    active: map<OwnerId, StepId>,
    steps: map<StepId, ProgressStep>,
    taskSteps: map<string, StepId>,
    next: u64)

  datatype Update =
    | ScopeStarted(id: StepId, owner: OwnerId, title: string, detail: Option<string>)
    | ScopeUpdated(id: StepId, owner: OwnerId, title: string, status: Status, detail: Option<string>)
    | ScopeCompleted(id: StepId, owner: OwnerId, title: string)

  const Initial: State := State(map[], map[], map[], 0)

  // ----- Identifiers

  function NameOf(n: nat): StepId {
    "progress-step-" + Decimal(n)
  }

  function SaturatingNext(n: u64): u64 {
    if n == U64_MAX then n else n + 1
  }

  /** The first number from `n` on whose name is not taken; the last number of all if every one is. */
  function FirstFree(steps: map<StepId, ProgressStep>, n: u64): u64
    decreases U64_MAX - n
  {
    if n == U64_MAX || NameOf(n) !in steps then n else FirstFree(steps, n + 1)
  }

  function TaskKey(owner: OwnerId, task: TaskId): string {
    owner + ":" + task
  }

  lemma NamesDiffer(m: nat, n: nat)
    requires NameOf(m) == NameOf(n)
    ensures m == n
  {
    DecimalDenotes(m);
    DecimalDenotes(n);
    var prefix := |"progress-step-"|;
    assert NameOf(m)[prefix..] == Decimal(m) && NameOf(n)[prefix..] == Decimal(n);
  }

  /** Without a colon in the task ids, the key tells owner and task apart. */
  lemma TaskKeysDiffer(o1: OwnerId, t1: TaskId, o2: OwnerId, t2: TaskId)
    requires ':' !in t1 && ':' !in t2 && TaskKey(o1, t1) == TaskKey(o2, t2)
    ensures o1 == o2 && t1 == t2
  {
    var k := TaskKey(o1, t1);
    assert k[|o1|] == ':' && k[|o2|] == ':';
    assert forall i :: |o1| < i < |k| ==> k[i] == t1[i - |o1| - 1];
    assert forall i :: |o2| < i < |k| ==> k[i] == t2[i - |o2| - 1];
    assert o1 == k[..|o1|] && o2 == k[..|o2|] && t1 == k[|o1| + 1..] && t2 == k[|o2| + 1..];
  }

  // ----- Operations of the state

  function Create(s: State, owner: OwnerId, title: string): (State, StepId) {
    var n := FirstFree(s.steps, SaturatingNext(s.next));
    var step := ProgressStep(NameOf(n), owner, title, n, Active, map[]);
    (s.(steps := s.steps[NameOf(n) := step], next := n), NameOf(n))
  }

  function SetActive(s: State, owner: OwnerId, id: StepId): State {
    s.(active := s.active[owner := id])
  }

  function ClearActive(s: State, owner: OwnerId): State {
    s.(active := s.active - {owner})
  }

  predicate IsCompletedOf(s: State, owner: OwnerId, id: StepId) {
    id in s.steps && s.steps[id].owner == owner && s.steps[id].lifecycle == Completed
  }

  /** The completed step of an owner with the greatest number, of those up to `n`. */
  function LatestCompleted(s: State, owner: OwnerId, n: nat): Option<ProgressStep> {
    if IsCompletedOf(s, owner, NameOf(n)) then Some(s.steps[NameOf(n)])
    else if n == 0 then None
    else LatestCompleted(s, owner, n - 1)
  }

  datatype Resolution = Resolution(id: StepId, reopenedFrom: Option<StepId>)

  /** The step a started tool call is shown on: the call's own, the owner's active one, or a new one. */
  function ResolveStarted(s: State, owner: OwnerId, task: TaskId, defaultTitle: string): (State, Resolution) {
    var key := TaskKey(owner, task);
    if key in s.taskSteps && s.taskSteps[key] in s.steps then (s, Resolution(s.taskSteps[key], None))
    else if owner in s.active && s.active[owner] in s.steps then
      (s.(taskSteps := s.taskSteps[key := s.active[owner]]), Resolution(s.active[owner], None))
    else
      var cleared := ClearActive(s, owner);
      var latest := LatestCompleted(cleared, owner, cleared.next);
      var (created, id) := Create(cleared, owner, if latest.Some? then latest.value.title else defaultTitle);
      (SetActive(created, owner, id), Resolution(id, if latest.Some? then Some(latest.value.id) else None))
  }

  function ResolveCompleted(s: State, owner: OwnerId, task: TaskId): Option<StepId> {
    var key := TaskKey(owner, task);
    if key in s.taskSteps && s.taskSteps[key] in s.steps then Some(s.taskSteps[key]) else None
  }

  function RecordCall(s: State, id: StepId, owner: OwnerId, task: TaskId, status: Status): State {
    var steps :=
      if id in s.steps then
        var step := s.steps[id];
        s.steps[id := step.(calls := step.calls[task := status])]
      else s.steps;
    s.(steps := steps, taskSteps := s.taskSteps[TaskKey(owner, task) := id])
  }

  function Reopen(s: State, id: StepId): State {
    if id in s.steps then s.(steps := s.steps[id := s.steps[id].(lifecycle := Active)]) else s
  }

  function MarkCompleted(s: State, id: StepId): (State, Option<ProgressStep>) {
    if id !in s.steps || s.steps[id].lifecycle == Completed then (s, None)
    else
      var step := s.steps[id].(lifecycle := Completed);
      (s.(steps := s.steps[id := step]), Some(step))
  }

  predicate IsBusy(step: ProgressStep) {
    exists t :: t in step.calls && step.calls[t] == InProgress
  }

  predicate IsComplete(step: ProgressStep) {
    step.calls != map[] && !IsBusy(step)
  }

  function CompleteActiveIfIdle(s: State, owner: OwnerId): (State, Option<ProgressStep>) {
    if owner !in s.active then (s, None)
    else if s.active[owner] !in s.steps then (ClearActive(s, owner), None)
    else if IsBusy(s.steps[s.active[owner]]) then (s, None)
    else MarkCompleted(s, s.active[owner])
  }

  // ----- Projections of events

  function CompletedUpdate(step: ProgressStep): Update {
    ScopeCompleted(step.id, step.owner, step.title)
  }

  function SummaryDetail(summary: string): Option<string> {
    if Trim(summary) == [] then None else Some(Trim(summary) + "\n")
  }

  function ProjectSummary(s: State, owner: OwnerId, title: string, summary: string): (State, seq<Update>) {
    if Trim(title) == [] then (s, [])
    else
      var (idle, completed) := CompleteActiveIfIdle(s, owner);
      var (created, id) := Create(idle, owner, title);
      var step := created.steps[id];
      (SetActive(created, owner, id),
       (if completed.Some? then [CompletedUpdate(completed.value)] else [])
       + [ScopeStarted(step.id, step.owner, step.title, SummaryDetail(summary))])
  }

  function ProjectToolStarted(s: State, owner: OwnerId, task: TaskId, title: string)
    : (State, seq<Update>, Resolution)
  {
    var (resolved, r) := ResolveStarted(s, owner, task, "Tool executions");
    var after := Reopen(RecordCall(resolved, r.id, owner, task, InProgress), r.id);
    (after,
     if r.id in after.steps then
       var step := after.steps[r.id];
       [ScopeUpdated(step.id, step.owner, step.title, InProgress, Some(title + "\n"))]
     else [],
     r)
  }

  /** No updates at all when the call belongs to no step. */
  function ProjectToolCompleted(s: State, owner: OwnerId, task: TaskId): (State, Option<seq<Update>>) {
    match ResolveCompleted(s, owner, task)
    case None => (s, None)
    case Some(id) =>
      var after := RecordCall(s, id, owner, task, Complete);
      (after,
       if id !in after.steps || IsComplete(after.steps[id]) then Some([])
       else
         var step := after.steps[id];
         Some([ScopeUpdated(step.id, step.owner, step.title, InProgress, None)]))
  }

  /** Completes the steps listed, one after the other. */
  function CompleteAll(s: State, ids: seq<StepId>): (State, seq<Update>) {
    if ids == [] then (s, [])
    else
      var (before, updates) := CompleteAll(s, ids[..|ids| - 1]);
      var (after, step) := MarkCompleted(before, ids[|ids| - 1]);
      (after, if step.Some? then updates + [CompletedUpdate(step.value)] else updates)
  }

  /** The ids of an owner's steps, in whatever order the map gives them. */
  ghost predicate ListsStepsOf(s: State, owner: OwnerId, ids: seq<StepId>) {
    && (forall i, j :: 0 <= i < j < |ids| ==> ids[i] != ids[j])
    && (forall id :: id in ids <==> id in s.steps && s.steps[id].owner == owner)
  }

  ghost predicate ProjectsMessage(s: State, owner: OwnerId, after: State, updates: seq<Update>) {
    exists ids :: ListsStepsOf(s, owner, ids)
      && after == ClearActive(CompleteAll(s, ids).0, owner) && updates == CompleteAll(s, ids).1
  }

  // ----- The index invariant

  ghost predicate StepsAreNamed(s: State) {
    forall id :: id in s.steps ==>
      s.steps[id].id == id && 1 <= s.steps[id].number <= s.next && id == NameOf(s.steps[id].number)
  }

  ghost predicate ActiveStepsExist(s: State) {
    forall o :: o in s.active ==> s.active[o] in s.steps && s.steps[s.active[o]].owner == o
  }

  ghost predicate TaskStepsExist(s: State) {
    forall k :: k in s.taskSteps ==> s.taskSteps[k] in s.steps
  }

  /** The maps agree: names are those of the numbers, and the two indexes point at existing steps. */
  ghost predicate Indexed(s: State) {
    StepsAreNamed(s) && ActiveStepsExist(s) && TaskStepsExist(s)
  }

  /** The name tried first is free: the search for one never has to go on. */
  lemma NextNameIsFree(s: State)
    requires StepsAreNamed(s) && s.next < U64_MAX
    ensures NameOf(s.next + 1) !in s.steps
    ensures FirstFree(s.steps, SaturatingNext(s.next)) == s.next + 1
  {
    if NameOf(s.next + 1) in s.steps {
      NamesDiffer(s.next + 1, s.steps[NameOf(s.next + 1)].number);
    }
  }

  lemma CreateKeepsIndexed(s: State, owner: OwnerId, title: string)
    requires Indexed(s) && s.next < U64_MAX
    ensures var (after, id) := Create(s, owner, title);
      && id !in s.steps
      && after == s.(steps := s.steps[id := ProgressStep(id, owner, title, s.next + 1, Active, map[])], next := s.next + 1)
      && Indexed(after) && Indexed(SetActive(after, owner, id))
  {
    NextNameIsFree(s);
    hide FirstFree, NameOf;
  }

  lemma RecordCallKeepsIndexed(s: State, id: StepId, owner: OwnerId, task: TaskId, status: Status)
    requires Indexed(s) && id in s.steps
    ensures Indexed(RecordCall(s, id, owner, task, status))
  {
    hide NameOf, TaskKey;
  }

  lemma LifecyclesKeepIndexed(s: State, id: StepId, owner: OwnerId)
    requires Indexed(s)
    ensures Indexed(Reopen(s, id)) && Indexed(MarkCompleted(s, id).0) && Indexed(ClearActive(s, owner))
  {
    hide NameOf;
  }

  lemma {:induction false} LatestIsLatest(s: State, owner: OwnerId, n: nat)
    requires StepsAreNamed(s)
    ensures match LatestCompleted(s, owner, n)
      case None => forall id :: IsCompletedOf(s, owner, id) ==> s.steps[id].number > n
      case Some(x) =>
        && IsCompletedOf(s, owner, x.id) && s.steps[x.id] == x && x.number <= n
        && forall id :: IsCompletedOf(s, owner, id) && s.steps[id].number <= n ==> s.steps[id].number <= x.number
  {
    hide NameOf;
    if IsCompletedOf(s, owner, NameOf(n)) {
      NamesDiffer(n, s.steps[NameOf(n)].number);
    } else if n > 0 {
      LatestIsLatest(s, owner, n - 1);
    }
  }
}

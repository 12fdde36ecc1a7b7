/** The stream of scope updates over any sequence of progress events, in any interleaving of owners. */
module ProgressTrace {
  import opened Wrappers
  import opened Text
  import opened ProgressState

  datatype Event =
    | SummaryCreated(owner: OwnerId, title: string, summary: string)
    | ToolStarted(owner: OwnerId, task: TaskId, title: string)
    | ToolCompleted(owner: OwnerId, task: TaskId)
    | MessageOutputCreated(owner: OwnerId)

  /** One event takes the state to `after` and emits `updates`. */
  ghost predicate Projects(s: State, e: Event, after: State, updates: seq<Update>) {
    match e
    case SummaryCreated(owner, title, summary) => (after, updates) == ProjectSummary(s, owner, title, summary)
    case ToolStarted(owner, task, title) =>
      (after, updates) == (ProjectToolStarted(s, owner, task, title).0, ProjectToolStarted(s, owner, task, title).1)
    case ToolCompleted(owner, task) =>
      var (t, us) := ProjectToolCompleted(s, owner, task);
      after == t && updates == if us.Some? then us.value else []
    case MessageOutputCreated(owner) => ProjectsMessage(s, owner, after, updates)
  }

  // ----- What a reader of the stream sees

  /** A step as the updates show it. */
  datatype Shown = Shown(owner: OwnerId, title: string, open: bool)

  function ViewOf(s: State): map<StepId, Shown> {
    map id | id in s.steps :: Shown(s.steps[id].owner, s.steps[id].title, s.steps[id].lifecycle == Active)
  }

  /**
   The protocol of the stream. A step appears with a start or with the first call of a tool; it is completed only while
   open; and only the start of a tool call, which brings a detail, opens it again.
   */
  function Show(v: map<StepId, Shown>, u: Update, cause: Event): Option<map<StepId, Shown>> {
    match u
    case ScopeStarted(id, owner, title, _) =>
      if id in v || !cause.SummaryCreated? then None else Some(v[id := Shown(owner, title, true)])
    case ScopeUpdated(id, owner, title, _, detail) =>
      if cause.ToolStarted? && detail.Some? && (id in v ==> v[id].owner == owner && v[id].title == title) then
        Some(v[id := Shown(owner, title, true)])
      else if cause.ToolCompleted? && detail.None? && id in v && v[id].owner == owner && v[id].title == title then Some(v)
      else None
    case ScopeCompleted(id, owner, title) =>
      if id in v && v[id] == Shown(owner, title, true) then Some(v[id := Shown(owner, title, false)]) else None
  }

  datatype Emission = Emission(update: Update, cause: Event)

  /** What the reader sees after the emissions; nothing if they break the protocol. */
  function Replay(v: map<StepId, Shown>, es: seq<Emission>): Option<map<StepId, Shown>>
    decreases |es|
  {
    if es == [] then Some(v)
    else match Show(v, es[0].update, es[0].cause)
      case None => None
      case Some(w) => Replay(w, es[1..])
  }

  lemma {:induction false} ReplayInParts(v: map<StepId, Shown>, a: seq<Emission>, b: seq<Emission>)
    ensures Replay(v, a + b) == match Replay(v, a) case None => None case Some(w) => Replay(w, b)
    decreases |a|
  {
    hide Show;
    if a == [] {
      assert a + b == b;
    } else {
      assert (a + b)[1..] == a[1..] + b;
      var next := Show(v, a[0].update, a[0].cause);
      if next.Some? {
        ReplayInParts(next.value, a[1..], b);
      }
    }
  }

  function Caused(updates: seq<Update>, cause: Event): seq<Emission> {
    seq(|updates|, i requires 0 <= i < |updates| => Emission(updates[i], cause))
  }

  lemma ReplayOne(v: map<StepId, Shown>, u: Update, cause: Event)
    ensures Replay(v, Caused([u], cause)) == Show(v, u, cause)
  {
    hide Show;
    assert Caused([u], cause) == [Emission(u, cause)];
    var w := Show(v, u, cause);
    if w.Some? {
      assert Replay(w.value, []) == w;
    }
  }

  // ----- Each event

  lemma CreateShows(s: State, owner: OwnerId, title: string)
    requires Indexed(s) && s.next < U64_MAX
    ensures var (after, id) := Create(s, owner, title);
      id !in ViewOf(s) && ViewOf(SetActive(after, owner, id)) == ViewOf(s)[id := Shown(owner, title, true)]
  {
    CreateKeepsIndexed(s, owner, title);
    hide Indexed, Create;
    var (after, id) := Create(s, owner, title);
    assert after.steps.Keys == s.steps.Keys + {id};
  }

  lemma CompletedView(s: State, id: StepId, cause: Event)
    requires id in s.steps ==> s.steps[id].id == id
    ensures var (after, step) := MarkCompleted(s, id);
      if step.Some? then Show(ViewOf(s), CompletedUpdate(step.value), cause) == Some(ViewOf(after))
      else ViewOf(after) == ViewOf(s)
  {
    var (after, step) := MarkCompleted(s, id);
    if step.Some? {
      assert ViewOf(after) == ViewOf(s)[id := Shown(step.value.owner, step.value.title, false)];
    }
  }

  lemma CompletingShows(s: State, id: StepId, cause: Event)
    requires Indexed(s)
    ensures var (after, step) := MarkCompleted(s, id);
      && Indexed(after) && after.next == s.next && after.taskSteps == s.taskSteps && after.active == s.active
      && (if step.Some? then Show(ViewOf(s), CompletedUpdate(step.value), cause) == Some(ViewOf(after))
          else ViewOf(after) == ViewOf(s))
  {
    hide Show, ViewOf, CompletedUpdate;
    CompletedView(s, id, cause);
    LifecyclesKeepIndexed(s, id, "");
    hide Indexed;
  }

  lemma SummaryReplays(s: State, owner: OwnerId, title: string, summary: string)
    requires Indexed(s) && s.next < U64_MAX
    ensures var (after, updates) := ProjectSummary(s, owner, title, summary);
      && Indexed(after) && after.next <= s.next + 1
      && Replay(ViewOf(s), Caused(updates, SummaryCreated(owner, title, summary))) == Some(ViewOf(after))
  {
    var cause := SummaryCreated(owner, title, summary);
    hide Indexed, Create, Show, ViewOf, MarkCompleted, IsBusy;
    if Trim(title) == [] {
      assert Caused([], cause) == [];
    } else {
      var (idle, completed) := CompleteActiveIfIdle(s, owner);
      IdleShows(s, owner, cause);
      CreateKeepsIndexed(idle, owner, title);
      CreateShows(idle, owner, title);
      var (created, id) := Create(idle, owner, title);
      var started := ScopeStarted(id, owner, title, SummaryDetail(summary));
      StartShows(ViewOf(idle), started, cause);
      ReplayOne(ViewOf(idle), started, cause);
      if completed.Some? {
        var done := CompletedUpdate(completed.value);
        ReplayOne(ViewOf(s), done, cause);
        assert Caused([done] + [started], cause) == Caused([done], cause) + Caused([started], cause);
        ReplayInParts(ViewOf(s), Caused([done], cause), Caused([started], cause));
      } else {
        assert [] + [started] == [started];
      }
    }
  }

  lemma StartShows(v: map<StepId, Shown>, u: Update, cause: Event)
    requires u.ScopeStarted? && cause.SummaryCreated? && u.id !in v
    ensures Show(v, u, cause) == Some(v[u.id := Shown(u.owner, u.title, true)])
  {
  }

  lemma IdleShows(s: State, owner: OwnerId, cause: Event)
    requires Indexed(s)
    ensures var (idle, completed) := CompleteActiveIfIdle(s, owner);
      && Indexed(idle) && idle.next == s.next && idle.taskSteps == s.taskSteps
      && (if completed.Some? then Show(ViewOf(s), CompletedUpdate(completed.value), cause) == Some(ViewOf(idle))
          else ViewOf(idle) == ViewOf(s))
  {
    hide StepsAreNamed, TaskStepsExist, Show, ViewOf, MarkCompleted, IsBusy;
    if owner in s.active {
      CompletingShows(s, s.active[owner], cause);
    }
  }

  /** The step a tool call resolves to exists or is new, and the state is in order. */
  lemma ResolvedIsIndexed(s: State, owner: OwnerId, task: TaskId, defaultTitle: string)
    requires Indexed(s) && s.next < U64_MAX
    ensures var (after, r) := ResolveStarted(s, owner, task, defaultTitle);
      && Indexed(after) && s.next <= after.next <= s.next + 1
      && r.id in after.steps
      && (if r.id in s.steps then after.steps == s.steps
          else after.steps[r.id].owner == owner && after.steps == s.steps[r.id := after.steps[r.id]])
  {
    var key := TaskKey(owner, task);
    hide TaskKey, NameOf, LatestCompleted;
    if key in s.taskSteps && s.taskSteps[key] in s.steps {
    } else if owner in s.active && s.active[owner] in s.steps {
    } else {
      var cleared := ClearActive(s, owner);
      LifecyclesKeepIndexed(s, "", owner);
      var latest := LatestCompleted(cleared, owner, cleared.next);
      CreateKeepsIndexed(cleared, owner, if latest.Some? then latest.value.title else defaultTitle);
    }
  }

  lemma ReopeningShows(s: State, id: StepId, owner: OwnerId, task: TaskId)
    requires Indexed(s) && id in s.steps
    ensures var after := Reopen(RecordCall(s, id, owner, task, InProgress), id);
      && Indexed(after) && after.next == s.next
      && id in after.steps && after.steps[id].id == id
      && after.steps[id].owner == s.steps[id].owner && after.steps[id].title == s.steps[id].title
      && ViewOf(after) == ViewOf(s)[id := Shown(s.steps[id].owner, s.steps[id].title, true)]
  {
    RecordCallKeepsIndexed(s, id, owner, task, InProgress);
    LifecyclesKeepIndexed(RecordCall(s, id, owner, task, InProgress), id, owner);
    assert s.steps[id].id == id;
    hide Indexed, TaskKey;
  }

  lemma ResolvingShows(s: State, after: State, id: StepId)
    requires id in after.steps
    requires if id in s.steps then after.steps == s.steps else after.steps == s.steps[id := after.steps[id]]
    ensures ViewOf(after) == if id in s.steps then ViewOf(s) else
      ViewOf(s)[id := Shown(after.steps[id].owner, after.steps[id].title, after.steps[id].lifecycle == Active)]
  {
  }

  lemma ToolStartReplays(s: State, owner: OwnerId, task: TaskId, title: string)
    requires Indexed(s) && s.next < U64_MAX
    ensures var (after, updates, _) := ProjectToolStarted(s, owner, task, title);
      && Indexed(after) && after.next <= s.next + 1
      && Replay(ViewOf(s), Caused(updates, ToolStarted(owner, task, title))) == Some(ViewOf(after))
  {
    hide ResolveStarted, RecordCall, Reopen, Indexed, Caused, Replay;
    var cause := ToolStarted(owner, task, title);
    var (resolved, r) := ResolveStarted(s, owner, task, "Tool executions");
    ResolvedIsIndexed(s, owner, task, "Tool executions");
    ReopeningShows(resolved, r.id, owner, task);
    ResolvingShows(s, resolved, r.id);
    var step := resolved.steps[r.id];
    assert ViewOf(resolved)[r.id := Shown(step.owner, step.title, true)]
        == ViewOf(s)[r.id := Shown(step.owner, step.title, true)];
    ReplayOne(ViewOf(s), ScopeUpdated(r.id, step.owner, step.title, InProgress, Some(title + "\n")), cause);
  }

  lemma ToolCompletionReplays(s: State, owner: OwnerId, task: TaskId)
    requires Indexed(s)
    ensures var (after, updates) := ProjectToolCompleted(s, owner, task);
      && Indexed(after) && after.next == s.next
      && Replay(ViewOf(s), Caused(if updates.Some? then updates.value else [], ToolCompleted(owner, task)))
         == Some(ViewOf(after))
  {
    var cause := ToolCompleted(owner, task);
    hide TaskKey, NameOf, Caused, Replay, IsComplete;
    assert Caused([], cause) == [] && Replay(ViewOf(s), []) == Some(ViewOf(s)) by {
      EmptyReplay(ViewOf(s), cause);
    }
    var resolved := ResolveCompleted(s, owner, task);
    if resolved.Some? {
      var id := resolved.value;
      RecordCallKeepsIndexed(s, id, owner, task, Complete);
      hide ActiveStepsExist, TaskStepsExist;
      var after := RecordCall(s, id, owner, task, Complete);
      assert ViewOf(after) == ViewOf(s);
      assert after.steps[id].id == id;
      ReplayOne(ViewOf(s), ScopeUpdated(id, after.steps[id].owner, after.steps[id].title, InProgress, None), cause);
    }
  }

  lemma EmptyReplay(v: map<StepId, Shown>, cause: Event)
    ensures Caused([], cause) == [] && Replay(v, []) == Some(v)
  {
  }

  lemma {:induction false} CompletingAllReplays(s: State, ids: seq<StepId>, cause: Event)
    requires Indexed(s)
    ensures var (after, updates) := CompleteAll(s, ids);
      && Indexed(after) && after.next == s.next && after.taskSteps == s.taskSteps && after.active == s.active
      && Replay(ViewOf(s), Caused(updates, cause)) == Some(ViewOf(after))
  {
    hide Indexed, Show, ViewOf, MarkCompleted;
    if ids == [] {
      EmptyReplay(ViewOf(s), cause);
    } else {
      var front := ids[..|ids| - 1];
      CompletingAllReplays(s, front, cause);
      var (before, updates) := CompleteAll(s, front);
      var (after, step) := MarkCompleted(before, ids[|ids| - 1]);
      CompletingShows(before, ids[|ids| - 1], cause);
      if step.Some? {
        var u := CompletedUpdate(step.value);
        ReplayOne(ViewOf(before), u, cause);
        assert Caused(updates + [u], cause) == Caused(updates, cause) + Caused([u], cause);
        ReplayInParts(ViewOf(s), Caused(updates, cause), Caused([u], cause));
      }
    }
  }

  /** One event keeps the maps in agreement and the stream in its protocol. */
  lemma EventReplays(s: State, e: Event, after: State, updates: seq<Update>)
    requires Indexed(s) && s.next < U64_MAX && Projects(s, e, after, updates)
    ensures Indexed(after) && after.next <= s.next + 1
    ensures Replay(ViewOf(s), Caused(updates, e)) == Some(ViewOf(after))
  {
    hide Indexed, Replay, ViewOf, Caused, ProjectSummary, ProjectToolStarted, ProjectToolCompleted, CompleteAll;
    match e
    case SummaryCreated(owner, title, summary) => SummaryReplays(s, owner, title, summary);
    case ToolStarted(owner, task, title) => ToolStartReplays(s, owner, task, title);
    case ToolCompleted(owner, task) => ToolCompletionReplays(s, owner, task);
    case MessageOutputCreated(owner) =>
      var ids :| ListsStepsOf(s, owner, ids)
        && after == ClearActive(CompleteAll(s, ids).0, owner) && updates == CompleteAll(s, ids).1;
      CompletingAllReplays(s, ids, e);
      LifecyclesKeepIndexed(CompleteAll(s, ids).0, "", owner);
      assert ViewOf(after) == ViewOf(CompleteAll(s, ids).0) by {
        ClearingShowsNothing(CompleteAll(s, ids).0, owner);
      }
  }

  lemma ClearingShowsNothing(s: State, owner: OwnerId)
    ensures ViewOf(ClearActive(s, owner)) == ViewOf(s) && ClearActive(s, owner).next == s.next
  {
  }

  // ----- Whole streams

  datatype Turn = Turn(event: Event, updates: seq<Update>, after: State)

  function StateAfter(turns: seq<Turn>): State {
    if turns == [] then Initial else turns[|turns| - 1].after
  }

  ghost predicate IsStream(turns: seq<Turn>) {
    turns != [] ==>
      var front, last := turns[..|turns| - 1], turns[|turns| - 1];
      IsStream(front) && Projects(StateAfter(front), last.event, last.after, last.updates)
  }

  function Emitted(turns: seq<Turn>): seq<Emission> {
    if turns == [] then []
    else
      var last := turns[|turns| - 1];
      Emitted(turns[..|turns| - 1]) + Caused(last.updates, last.event)
  }

  /**
   In every reachable state the maps agree, and a reader who replays the updates alone sees exactly the steps that
   exist, with their owners and titles and whether they are open.
   */
  lemma {:induction false} StreamReplays(turns: seq<Turn>)
    requires IsStream(turns) && |turns| < U64_MAX
    ensures var s := StateAfter(turns);
      Indexed(s) && s.next <= |turns| && Replay(map[], Emitted(turns)) == Some(ViewOf(s))
  {
    hide Projects, Replay, Caused;
    if turns == [] {
      EmptyReplay(map[], MessageOutputCreated(""));
    } else {
      hide Indexed, ViewOf;
      var front, last := turns[..|turns| - 1], turns[|turns| - 1];
      StreamReplays(front);
      EventReplays(StateAfter(front), last.event, last.after, last.updates);
      ReplayInParts(map[], Emitted(front), Caused(last.updates, last.event));
    }
  }

  lemma StreamIsIndexed(turns: seq<Turn>)
    requires IsStream(turns) && |turns| < U64_MAX
    ensures Indexed(StateAfter(turns)) && StateAfter(turns).next <= |turns|
  {
    StreamReplays(turns);
  }

  // ----- What the protocol means

  predicate Completes(e: Emission, id: StepId) {
    e.update.ScopeCompleted? && e.update.id == id
  }

  /** The start of a tool call on the step, shown as an update with a detail. */
  predicate OpensByTool(e: Emission, id: StepId) {
    e.update.ScopeUpdated? && e.update.id == id && e.update.detail.Some? && e.cause.ToolStarted?
  }

  predicate OpensByStart(e: Emission, id: StepId) {
    e.update.ScopeStarted? && e.update.id == id && e.cause.SummaryCreated?
  }

  predicate OpenIn(v: map<StepId, Shown>, id: StepId) {
    id in v && v[id].open
  }

  /** What is not open becomes open only where it is opened. */
  lemma {:induction false} OpenedSomewhere(v: map<StepId, Shown>, es: seq<Emission>, id: StepId) returns (k: nat)
    requires Replay(v, es).Some? && !OpenIn(v, id) && OpenIn(Replay(v, es).value, id)
    ensures k < |es| && (OpensByTool(es[k], id) || (OpensByStart(es[k], id) && id !in v))
    decreases |es|
  {
    var w := Show(v, es[0].update, es[0].cause).value;
    if OpenIn(w, id) {
      k := 0;
    } else {
      var j := OpenedSomewhere(w, es[1..], id);
      k := j + 1;
      assert es[k] == es[1..][j];
      assert id in v ==> id in w;
    }
  }

  lemma ReplayBetween(v: map<StepId, Shown>, es: seq<Emission>, i: nat, j: nat)
    requires i <= j <= |es| && Replay(v, es).Some?
    ensures Replay(v, es[..i]).Some? && Replay(v, es[..j]).Some?
    ensures Replay(v, es[..j]) == Replay(Replay(v, es[..i]).value, es[i..j])
  {
    hide Replay;
    assert es == es[..j] + es[j..] && es[..j] == es[..i] + es[i..j];
    ReplayInParts(v, es[..j], es[j..]);
    ReplayInParts(v, es[..i], es[i..j]);
  }

  /** A completion meets an open step and closes it. */
  lemma CompletionCloses(v: map<StepId, Shown>, es: seq<Emission>, i: nat, id: StepId)
    requires i < |es| && Replay(v, es).Some? && Completes(es[i], id)
    ensures Replay(v, es[..i]).Some? && Replay(v, es[..i + 1]).Some?
    ensures OpenIn(Replay(v, es[..i]).value, id) && !OpenIn(Replay(v, es[..i + 1]).value, id)
    ensures id in Replay(v, es[..i + 1]).value
  {
    ReplayBetween(v, es, i, i + 1);
    assert es[i..i + 1] == Caused([es[i].update], es[i].cause);
    ReplayOne(Replay(v, es[..i]).value, es[i].update, es[i].cause);
    hide Replay, Caused;
  }

  lemma ReopenedWithin(v: map<StepId, Shown>, es: seq<Emission>, i: nat, j: nat, id: StepId) returns (k: nat)
    requires i < j < |es| && Replay(v, es).Some? && Completes(es[i], id) && Completes(es[j], id)
    ensures i < k < j && OpensByTool(es[k], id)
  {
    hide Replay, OpenIn, Completes, OpensByTool, OpensByStart;
    CompletionCloses(v, es, i, id);
    CompletionCloses(v, es, j, id);
    ReplayBetween(v, es, i + 1, j);
    var m := OpenedSomewhere(Replay(v, es[..i + 1]).value, es[i + 1..j], id);
    k := m + i + 1;
    assert es[k] == es[i + 1..j][m];
  }

  lemma OpenedBefore(es: seq<Emission>, i: nat, id: StepId) returns (k: nat)
    requires i < |es| && Replay(map[], es).Some? && Completes(es[i], id)
    ensures k < i && (OpensByStart(es[k], id) || OpensByTool(es[k], id))
  {
    hide Replay, Completes, OpensByTool, OpensByStart;
    CompletionCloses(map[], es, i, id);
    k := OpenedSomewhere(map[], es[..i], id);
  }

  /** The updates of a step never begin with a completion: an opening comes before it. */
  lemma NoCompletionFirst(turns: seq<Turn>, i: nat) returns (k: nat)
    requires IsStream(turns) && |turns| < U64_MAX
    requires i < |Emitted(turns)| && Emitted(turns)[i].update.ScopeCompleted?
    ensures var es := Emitted(turns);
      k < i && (OpensByStart(es[k], es[i].update.id) || OpensByTool(es[k], es[i].update.id))
  {
    hide Indexed, IsStream, Replay, Emitted, OpensByTool, OpensByStart;
    StreamReplays(turns);
    k := OpenedBefore(Emitted(turns), i, Emitted(turns)[i].update.id);
  }

  /** Between two completions of one step a tool call on it was started. */
  lemma ReopenedBetween(turns: seq<Turn>, i: nat, j: nat, id: StepId) returns (k: nat)
    requires IsStream(turns) && |turns| < U64_MAX
    requires i < j < |Emitted(turns)| && Completes(Emitted(turns)[i], id) && Completes(Emitted(turns)[j], id)
    ensures i < k < j && OpensByTool(Emitted(turns)[k], id)
  {
    hide Indexed, IsStream, Replay, Emitted, Completes, OpensByTool;
    StreamReplays(turns);
    k := ReopenedWithin(map[], Emitted(turns), i, j, id);
  }
}

/** The state class and the projector class of the progress stream, proved against the functions of `ProgressState`. */
module ProgressStream {
  import opened Wrappers
  import opened Text
  import opened ProgressState
  import opened ProgressTrace

  class ProgressStreamState {
    var activeProgressStepIdByOwnerId: map<OwnerId, StepId>
    var progressStepById: map<StepId, ProgressStep>
    var progressStepIdByTaskKey: map<string, StepId>
    var nextProgressStepNumber: u64

    ghost function Contents(): State
      reads this
    {
      State(activeProgressStepIdByOwnerId, progressStepById, progressStepIdByTaskKey, nextProgressStepNumber)
    }

    constructor ()
      ensures Contents() == Initial
    {
      activeProgressStepIdByOwnerId, progressStepById, progressStepIdByTaskKey := map[], map[], map[];
      nextProgressStepNumber := 0;
    }

    /** The loop ends if some name is free; the source would go on for ever with 2^64 - 1 steps. */
    method CreateProgressStepIdentifier() returns (id: StepId, number: u64)
      requires NameOf(FirstFree(progressStepById, SaturatingNext(nextProgressStepNumber))) !in progressStepById
      modifies this`nextProgressStepNumber
      ensures number == FirstFree(progressStepById, SaturatingNext(old(nextProgressStepNumber)))
      ensures id == NameOf(number) && nextProgressStepNumber == number
    {
      nextProgressStepNumber := SaturatingNext(nextProgressStepNumber);
      number := nextProgressStepNumber;
      id := NameOf(number);
      while id in progressStepById
        invariant number == nextProgressStepNumber && id == NameOf(number)
        invariant FirstFree(progressStepById, number)
          == FirstFree(progressStepById, SaturatingNext(old(nextProgressStepNumber)))
        decreases U64_MAX - number
      {
        nextProgressStepNumber := SaturatingNext(nextProgressStepNumber);
        number := nextProgressStepNumber;
        id := NameOf(number);
      }
    }

    method CreateProgressStep(owner: OwnerId, title: string) returns (id: StepId)
      requires NameOf(FirstFree(progressStepById, SaturatingNext(nextProgressStepNumber))) !in progressStepById
      modifies this
      ensures (Contents(), id) == Create(old(Contents()), owner, title)
    {
      var number;
      id, number := CreateProgressStepIdentifier();
      progressStepById := progressStepById[id := ProgressStep(id, owner, title, number, Active, map[])];
    }

    method SetActiveProgressStep(owner: OwnerId, id: StepId)
      modifies this`activeProgressStepIdByOwnerId
      ensures Contents() == SetActive(old(Contents()), owner, id)
    {
      activeProgressStepIdByOwnerId := activeProgressStepIdByOwnerId[owner := id];
    }

    method ClearActiveProgressStep(owner: OwnerId)
      modifies this`activeProgressStepIdByOwnerId
      ensures Contents() == ClearActive(old(Contents()), owner)
    {
      activeProgressStepIdByOwnerId := activeProgressStepIdByOwnerId - {owner};
    }

    /** Goes through the steps in any order, keeping the completed one with the greatest number. */
    method ResolveLatestCompletedProgressStepByOwnerId(owner: OwnerId) returns (latest: Option<ProgressStep>)
      requires StepsAreNamed(Contents())
      ensures latest == LatestCompleted(Contents(), owner, nextProgressStepNumber)
    {
      ghost var s := Contents();
      hide NameOf, LatestCompleted;
      latest := None;
      var rest := progressStepById.Keys;
      while rest != {}
        invariant rest <= progressStepById.Keys
        invariant latest.Some? ==>
          IsCompletedOf(s, owner, latest.value.id) && s.steps[latest.value.id] == latest.value
        invariant forall id :: IsCompletedOf(s, owner, id) && id !in rest ==>
          latest.Some? && s.steps[id].number <= latest.value.number
        decreases |rest|
      {
        var id :| id in rest;
        rest := rest - {id};
        var step := progressStepById[id];
        if step.owner == owner && step.lifecycle == Completed
           && (latest.None? || latest.value.number <= step.number) {
          latest := Some(step);
        }
      }
      LatestIsLatest(s, owner, nextProgressStepNumber);
    }

    method ResolveProgressStepForToolStarted(owner: OwnerId, task: TaskId, defaultTitle: string)
      returns (r: Resolution)
      requires StepsAreNamed(Contents()) && nextProgressStepNumber < U64_MAX
      modifies this
      ensures (Contents(), r) == ResolveStarted(old(Contents()), owner, task, defaultTitle)
    {
      hide NameOf, FirstFree, LatestCompleted, TaskKey;
      var key := TaskKey(owner, task);
      if key in progressStepIdByTaskKey && progressStepIdByTaskKey[key] in progressStepById {
        return Resolution(progressStepIdByTaskKey[key], None);
      }
      if owner in activeProgressStepIdByOwnerId {
        var active := activeProgressStepIdByOwnerId[owner];
        if active in progressStepById {
          progressStepIdByTaskKey := progressStepIdByTaskKey[key := active];
          return Resolution(active, None);
        }
        activeProgressStepIdByOwnerId := activeProgressStepIdByOwnerId - {owner};
      }
      assert Contents() == ClearActive(old(Contents()), owner);
      NextNameIsFree(Contents());
      var latest := ResolveLatestCompletedProgressStepByOwnerId(owner);
      var id := CreateProgressStep(owner, if latest.Some? then latest.value.title else defaultTitle);
      SetActiveProgressStep(owner, id);
      r := Resolution(id, if latest.Some? then Some(latest.value.id) else None);
    }

    method UpsertProgressStepToolCallStatus(id: StepId, owner: OwnerId, task: TaskId, status: Status)
      modifies this
      ensures Contents() == RecordCall(old(Contents()), id, owner, task, status)
    {
      if id in progressStepById {
        var step := progressStepById[id];
        progressStepById := progressStepById[id := step.(calls := step.calls[task := status])];
      }
      progressStepIdByTaskKey := progressStepIdByTaskKey[TaskKey(owner, task) := id];
    }

    method MarkProgressStepIncomplete(id: StepId)
      modifies this
      ensures Contents() == Reopen(old(Contents()), id)
    {
      if id in progressStepById {
        progressStepById := progressStepById[id := progressStepById[id].(lifecycle := Active)];
      }
    }

    method MarkProgressStepCompleted(id: StepId) returns (completed: Option<ProgressStep>)
      modifies this
      ensures (Contents(), completed) == MarkCompleted(old(Contents()), id)
    {
      if id !in progressStepById || progressStepById[id].lifecycle == Completed {
        return None;
      }
      progressStepById := progressStepById[id := progressStepById[id].(lifecycle := Completed)];
      completed := Some(progressStepById[id]);
    }

    method CompleteActiveProgressStepIfIdle(owner: OwnerId) returns (completed: Option<ProgressStep>)
      modifies this
      ensures (Contents(), completed) == CompleteActiveIfIdle(old(Contents()), owner)
    {
      if owner !in activeProgressStepIdByOwnerId {
        return None;
      }
      var active := activeProgressStepIdByOwnerId[owner];
      if active !in progressStepById {
        activeProgressStepIdByOwnerId := activeProgressStepIdByOwnerId - {owner};
        return None;
      }
      if IsBusy(progressStepById[active]) {
        return None;
      }
      completed := MarkProgressStepCompleted(active);
    }

    /** The order is that of the map, which is any. */
    method ProgressStepIdsForOwner(owner: OwnerId) returns (ids: seq<StepId>)
      requires StepsAreNamed(Contents())
      ensures ListsStepsOf(Contents(), owner, ids)
    {
      hide NameOf;
      ids := [];
      var rest := progressStepById.Keys;
      while rest != {}
        invariant rest <= progressStepById.Keys
        invariant forall i, j :: 0 <= i < j < |ids| ==> ids[i] != ids[j]
        invariant forall id :: id in ids <==>
          id in progressStepById && id !in rest && progressStepById[id].owner == owner
        decreases |rest|
      {
        var id :| id in rest;
        rest := rest - {id};
        if progressStepById[id].owner == owner {
          assert progressStepById[id].id == id;
          ids := ids + [progressStepById[id].id];
        }
      }
    }
  }

  class ProgressUpdateProjector {
    const state: ProgressStreamState

    constructor ()
      ensures fresh(state) && state.Contents() == Initial
    {
      state := new ProgressStreamState();
    }

    method ProjectProgressSummary(owner: OwnerId, title: string, summary: string) returns (updates: seq<Update>)
      requires Indexed(state.Contents()) && state.nextProgressStepNumber < U64_MAX
      modifies state
      ensures (state.Contents(), updates) == ProjectSummary(old(state.Contents()), owner, title, summary)
      ensures Indexed(state.Contents())
    {
      hide Indexed, Replay, ViewOf, Caused, NameOf, FirstFree, Show, IsBusy, MarkCompleted, CompleteActiveIfIdle, Create;
      SummaryReplays(state.Contents(), owner, title, summary);
      IdleShows(state.Contents(), owner, SummaryCreated(owner, title, summary));
      updates := [];
      if Trim(title) == [] {
        return;
      }
      var completed := state.CompleteActiveProgressStepIfIdle(owner);
      if completed.Some? {
        updates := [CompletedUpdate(completed.value)];
      }
      FreeName(state.Contents());
      CreateKeepsIndexed(state.Contents(), owner, title);
      var id := state.CreateProgressStep(owner, title);
      state.SetActiveProgressStep(owner, id);
      var step := state.progressStepById[id];
      updates := updates + [ScopeStarted(step.id, step.owner, step.title, SummaryDetail(summary))];
    }

    lemma FreeName(s: State)
      requires Indexed(s) && s.next < U64_MAX
      ensures NameOf(FirstFree(s.steps, SaturatingNext(s.next))) !in s.steps
    {
      NextNameIsFree(s);
    }

    method ProjectToolStarted(owner: OwnerId, task: TaskId, title: string)
      returns (updates: seq<Update>, resolved: Resolution)
      requires Indexed(state.Contents()) && state.nextProgressStepNumber < U64_MAX
      modifies state
      ensures (state.Contents(), updates, resolved)
        == ProgressState.ProjectToolStarted(old(state.Contents()), owner, task, title)
      ensures Indexed(state.Contents())
    {
      ToolStartReplays(state.Contents(), owner, task, title);
      assert StepsAreNamed(state.Contents());
      hide Indexed, StepsAreNamed, Replay, ViewOf, Caused, NameOf, FirstFree, ResolveStarted, TaskKey;
      resolved := state.ResolveProgressStepForToolStarted(owner, task, "Tool executions");
      state.UpsertProgressStepToolCallStatus(resolved.id, owner, task, InProgress);
      state.MarkProgressStepIncomplete(resolved.id);
      updates := [];
      if resolved.id in state.progressStepById {
        var step := state.progressStepById[resolved.id];
        updates := [ScopeUpdated(step.id, step.owner, step.title, InProgress, Some(title + "\n"))];
      }
    }

    /** No updates at all when the call belongs to no step. */
    method ProjectToolCompleted(owner: OwnerId, task: TaskId) returns (updates: Option<seq<Update>>)
      requires Indexed(state.Contents())
      modifies state
      ensures (state.Contents(), updates) == ProgressState.ProjectToolCompleted(old(state.Contents()), owner, task)
      ensures Indexed(state.Contents())
    {
      ToolCompletionReplays(state.Contents(), owner, task);
      hide Indexed, Replay, ViewOf, Caused, NameOf, TaskKey, IsComplete;
      var key := TaskKey(owner, task);
      if key !in state.progressStepIdByTaskKey || state.progressStepIdByTaskKey[key] !in state.progressStepById {
        return None;
      }
      var id := state.progressStepIdByTaskKey[key];
      state.UpsertProgressStepToolCallStatus(id, owner, task, Complete);
      if id !in state.progressStepById {
        return Some([]);
      }
      var step := state.progressStepById[id];
      if IsComplete(step) {
        return Some([]);
      }
      updates := Some([ScopeUpdated(step.id, step.owner, step.title, InProgress, None)]);
    }

    method ProjectMessageOutputCreated(owner: OwnerId) returns (updates: seq<Update>)
      requires Indexed(state.Contents())
      modifies state
      ensures ProjectsMessage(old(state.Contents()), owner, state.Contents(), updates)
      ensures Indexed(state.Contents())
    {
      ghost var before := state.Contents();
      var ids := state.ProgressStepIdsForOwner(owner);
      hide Indexed, Replay, ViewOf, Caused, MarkCompleted, ListsStepsOf;
      updates := [];
      for i := 0 to |ids|
        invariant (state.Contents(), updates) == CompleteAll(before, ids[..i])
      {
        assert ids[..i + 1][..i] == ids[..i];
        var completed := state.MarkProgressStepCompleted(ids[i]);
        if completed.Some? {
          updates := updates + [CompletedUpdate(completed.value)];
        }
      }
      assert ids[..|ids|] == ids;
      CompletingAllReplays(before, ids, MessageOutputCreated(owner));
      LifecyclesKeepIndexed(state.Contents(), "", owner);
      state.ClearActiveProgressStep(owner);
    }
  }
}

/** Exactly which cancel requests take effect, and the attempts for which all do. */
module LifecycleRequests {
  import opened Wrappers
  import opened JobQueue
  import opened Lifecycle
  import opened LifecycleInvariants
  import opened LifecycleRetries
  import opened LifecycleEndings
  import opened LifecycleCancellation
  import opened LifecycleTheorems
  import opened LifecycleWaiting
  import Registry = InFlightRegistry

  lemma ExecNothing(c: Config, s: Sys)
    ensures Exec(c, s, []) == s
  {
  }

  // ----- Where the request is lost

  /** Neither a report nor a dead-letter notice was posted for the job. */
  ghost predicate Silent(s: Sys, id: JobId) {
    Reports(s.h.log, id) == 0 && Notices(s.h.log, id) == 0
  }

  lemma PostsReport(c: Config, s: Sys, w: WorkerId, job: Job)
    requires PhaseOf(s, w) == PostingReport(job)
    ensures Reports(Step(c, s, Work(w, Fine)).h.log, job.id) == Reports(s.h.log, job.id) + 1
  {
  }

  lemma GoesOn(c: Config, s: Sys, w: WorkerId, job: Job, token: Token)
    ensures PhaseOf(s, w) == AnnouncingRunning(job, token) ==>
      var t := Step(c, s, Work(w, Fine));
      PhaseOf(t, w) == Executing(job, token) && t.reg == s.reg && Reports(t.h.log, job.id) == Reports(s.h.log, job.id)
    ensures PhaseOf(s, w) == Executing(job, token) && token !in s.reg.cancelled ==>
      var t := Step(c, s, Work(w, RunnerSucceeded)); PhaseOf(t, w) == PostingReport(job) && t.h.log == s.h.log
  {
    if PhaseOf(s, w) == AnnouncingRunning(job, token) {
      LogSay(s.h.log, ControlUpdated(job.id, ShowRunning), job.id);
    }
    hide ClaimNext, AttachToken, CompleteJob, FailJob, RemoveEntry, Announce;
  }

  /** An attempt whose token nobody has cancelled can go on to post its report. */
  lemma RunsToReport(c: Config, s: Sys, w: WorkerId, job: Job, token: Token) returns (more: seq<Action>)
    requires PhaseOf(s, w) == AnnouncingRunning(job, token) || PhaseOf(s, w) == Executing(job, token)
    requires token !in s.reg.cancelled
    ensures Reports(Exec(c, s, more).h.log, job.id) == Reports(s.h.log, job.id) + 1
    decreases PhaseOf(s, w).AnnouncingRunning?
  {
    hide Exec, Step, Reports;
    GoesOn(c, s, w, job, token);
    if PhaseOf(s, w).Executing? {
      var t := Step(c, s, Work(w, RunnerSucceeded));
      PostsReport(c, t, w, job);
      ExecNothing(c, Step(c, t, Work(w, Fine)));
      ExecFrom(c, t, Work(w, Fine), []);
      ExecFrom(c, s, Work(w, RunnerSucceeded), [Work(w, Fine)] + []);
      more := [Work(w, RunnerSucceeded)] + ([Work(w, Fine)] + []);
    } else {
      var rest := RunsToReport(c, Step(c, s, Work(w, Fine)), w, job, token);
      ExecFrom(c, s, Work(w, Fine), rest);
      more := [Work(w, Fine)] + rest;
    }
  }

  lemma RemovesTheRequest(c: Config, s: Sys, v: WorkerId, job: Job)
    requires PhaseOf(s, v) == Removing(job, EndRequeued)
    ensures var t := Step(c, s, Work(v, Fine));
      && t.workers == s.workers[v := Idle] && t.q == s.q && job.id !in t.reg.requests
      && t.reg.cancelled == s.reg.cancelled && t.nextToken == s.nextToken && t.h.log == s.h.log
  {
    hide ClaimNext, AttachToken, CompleteJob, FailJob, Announce;
  }

  lemma AttachesUnaware(c: Config, s: Sys, w: WorkerId, job: Job)
    requires PhaseOf(s, w) == Attaching(job) && job.id !in s.reg.requests
    ensures var t := Step(c, s, Work(w, Fine));
      PhaseOf(t, w) == AnnouncingRunning(job, s.nextToken) && t.reg.cancelled == s.reg.cancelled && t.h.log == s.h.log
  {
    hide ClaimNext, RemoveEntry, CompleteJob, FailJob, Announce;
  }

  /** An attempt that is undecided and not caught can go on to post its report, though the request is on record. */
  lemma NotCaughtEscapes(c: Config, s: Sys, id: JobId) returns (more: seq<Action>)
    requires Holders(s) && Tokens(s) && id in s.h.holder && Undecided(PhaseOf(s, s.h.holder[id]))
    requires id in s.reg.requests && !Caught(s, id)
    ensures Reports(Exec(c, s, more).h.log, id) == Reports(s.h.log, id) + 1
  {
    var w := s.h.holder[id];
    var p := PhaseOf(s, w);
    assert id in s.q.claimed && Held(p) == Some(s.q.claimed[id]) && p.job.id == id;
    assert s.nextToken !in s.reg.cancelled;
    hide Exec, Step, Reports, Holders, Tokens;
    if p.Attaching? {
      var v :| v in s.workers && s.workers[v].Removing? && s.workers[v].ending.EndRequeued? && s.workers[v].job.id == id;
      var gone := Step(c, s, Work(v, Fine));
      RemovesTheRequest(c, s, v, s.workers[v].job);
      assert PhaseOf(gone, w) == p;
      AttachesUnaware(c, gone, w, p.job);
      var rest := RunsToReport(c, Step(c, gone, Work(w, Fine)), w, p.job, s.nextToken);
      ExecFrom(c, gone, Work(w, Fine), rest);
      ExecFrom(c, s, Work(v, Fine), [Work(w, Fine)] + rest);
      more := [Work(v, Fine)] + ([Work(w, Fine)] + rest);
    } else {
      more := RunsToReport(c, s, w, p.job, p.token);
    }
  }

  /** What a recorded request leaves behind when the attempt cannot be caught. */
  lemma RequestMisses(c: Config, s: Sys, actor: ActorId, at: string)
    requires actor in s.actors && s.actors[actor].Requesting?
    requires var id := s.actors[actor].id;
      id in s.h.holder && Undecided(PhaseOf(s, s.h.holder[id])) && !Catchable(s, id)
    ensures var id, r := s.actors[actor].id, Step(c, s, ContinueCancel(actor, at));
      && id in r.reg.requests && r.h == s.h && r.workers == s.workers && !Caught(r, id)
  {
    var id, r := s.actors[actor].id, Step(c, s, ContinueCancel(actor, at));
    assert RemovalPending(r, id) == RemovalPending(s, id);
    hide RemovalPending;
  }

  /** A waiting job without a request on record can be claimed and run to its report. */
  lemma UnawareEscapes(c: Config, s: Sys, id: JobId) returns (more: seq<Action>)
    requires Waits(s, id) && id !in s.reg.requests && s.nextToken !in s.reg.cancelled
    ensures Reports(Exec(c, s, more).h.log, id) == Reports(s.h.log, id) + 1
  {
    hide Exec, Step, Reports, Waits;
    var first, w := WaitingIsClaimed(c, s, id);
    var t := Exec(c, s, first);
    var job := PhaseOf(t, w).job;
    AttachesUnaware(c, t, w, job);
    var rest := RunsToReport(c, Step(c, t, Work(w, Fine)), w, job, t.nextToken);
    ExecFrom(c, t, Work(w, Fine), rest);
    ExecAppend(c, s, first, [Work(w, Fine)] + rest);
    more := first + ([Work(w, Fine)] + rest);
  }

  /** A removal that is still to come drops the request of a waiting job. */
  lemma RemovalEscapes(c: Config, s: Sys, id: JobId) returns (more: seq<Action>)
    requires Tokens(s) && Waits(s, id) && RemovalPending(s, id)
    ensures Reports(Exec(c, s, more).h.log, id) == Reports(s.h.log, id) + 1
  {
    assert s.nextToken !in s.reg.cancelled;
    hide Exec, Step, Reports, Tokens;
    var v :| v in s.workers && s.workers[v].Removing? && s.workers[v].ending.EndRequeued? && s.workers[v].job.id == id;
    RemovesTheRequest(c, s, v, s.workers[v].job);
    var rest := UnawareEscapes(c, Step(c, s, Work(v, Fine)), id);
    ExecFrom(c, s, Work(v, Fine), rest);
    more := [Work(v, Fine)] + rest;
  }

  lemma NoticeSteps(c: Config, s: Sys, w: WorkerId, job: Job)
    ensures PhaseOf(s, w) == Removing(job, EndDead) ==>
      PhaseOf(Step(c, s, Work(w, Fine)), w) == Announcing(job, EndDead)
    ensures PhaseOf(s, w) == Announcing(job, EndDead) ==>
      PhaseOf(Step(c, s, Work(w, Fine)), w) == PostingNotice(job)
    ensures PhaseOf(s, w) == PostingNotice(job) ==> Notices(Step(c, s, Work(w, Fine)).h.log, job.id) > 0
  {
    hide ClaimNext, AttachToken, CompleteJob, FailJob, Registry.Remove;
  }

  /** A worker whose job is dead can go on to post the notice. */
  lemma RunsToNotice(c: Config, s: Sys, w: WorkerId, job: Job) returns (more: seq<Action>)
    requires PhaseOf(s, w) == Removing(job, EndDead)
    ensures Notices(Exec(c, s, more).h.log, job.id) > 0
  {
    hide Exec, Step, Notices;
    var next := Work(w, Fine);
    var t := Step(c, s, next);
    var u := Step(c, t, next);
    NoticeSteps(c, s, w, job);
    NoticeSteps(c, t, w, job);
    NoticeSteps(c, u, w, job);
    ExecOne(c, u, next);
    ExecFrom(c, t, next, [next]);
    ExecFrom(c, s, next, [next] + [next]);
    more := [next] + ([next] + [next]);
  }

  lemma FailsOver(c: Config, s: Sys, w: WorkerId, job: Job, permanent: bool)
    requires Inv(c, s) && PhaseOf(s, w) == Failing(job, permanent)
    ensures var t := Step(c, s, Work(w, Fine));
      && (PhaseOf(t, w) == Removing(job, EndDead) || (PhaseOf(t, w) == Removing(job, EndRequeued) && Unplaced(t, job.id)))
      && t.reg == s.reg && t.nextToken == s.nextToken && t.h.log == s.h.log
  {
    HeldIsStored(s, w);
    ClaimedIsOnlyClaimed(s, job.id);
    DeadAndKnown(s, job.id);
    hide Inv, Holders, Places, Timing, Endings, Tokens, Step;
    FailShape(c, s, w, job, permanent);
  }

  lemma FailShape(c: Config, s: Sys, w: WorkerId, job: Job, permanent: bool)
    requires PhaseOf(s, w) == Failing(job, permanent) && job.id in s.q.claimed
    requires job.id in s.h.known && job.id !in s.h.completed && job.id !in s.h.cancelled && !IsDead(s, job.id)
    ensures var t := Step(c, s, Work(w, Fine));
      && (PhaseOf(t, w) == Removing(job, EndDead) || (PhaseOf(t, w) == Removing(job, EndRequeued) && Unplaced(t, job.id)))
      && t.reg == s.reg && t.nextToken == s.nextToken && t.h.log == s.h.log
  {
    hide ClaimNext, AttachToken, CompleteJob, RemoveEntry, Announce;
  }

  /** An attempt that is about to fail, from which its own worker goes on to lose the request. */
  lemma FailingEscapes(c: Config, s: Sys, w: WorkerId, job: Job, permanent: bool) returns (more: seq<Action>)
    requires Inv(c, s) && PhaseOf(s, w) == Failing(job, permanent)
    ensures !Silent(Exec(c, s, more), job.id)
  {
    var t := Step(c, s, Work(w, Fine));
    FailsOver(c, s, w, job, permanent);
    StepKeepsInv(c, s, Work(w, Fine));
    assert Places(t) && Tokens(t);
    hide Exec, Step, Reports, Notices, Inv, Places, Tokens, Unplaced;
    var rest;
    if PhaseOf(t, w).ending.EndDead? {
      rest := RunsToNotice(c, t, w, job);
    } else {
      WaitsIsUnplaced(t, job.id);
      assert w in t.workers && RemovalPending(t, job.id);
      rest := RemovalEscapes(c, t, job.id);
    }
    ExecFrom(c, s, Work(w, Fine), rest);
    more := [Work(w, Fine)] + rest;
  }

  // ----- The exact condition

  ghost predicate StaysSilent(c: Config, before: seq<Action>, actor: ActorId, at: string, id: JobId, more: seq<Action>) {
    Silent(Exec(c, INIT, before + [ContinueCancel(actor, at)] + more), id)
  }

  /** The job is in the queue, waiting or claimed, and no report of it is posted. */
  ghost predicate Unanswered(s: Sys, id: JobId) {
    Waits(s, id) || (id in s.q.claimed && !IsReported(s, id))
  }

  /**
   What a caller can look up when the request is about to be recorded: the attempt can be caught, or it is being completed
   as cancelled already, or the job waits and no worker is about to remove an entry of it.
   */
  ghost predicate Heeded(s: Sys, id: JobId) {
    Catchable(s, id) || Leaving(s, id) || (Waits(s, id) && !RemovalPending(s, id))
  }

  /**
   A request that is recorded for a job that is not over and not reported keeps report and notice from being posted, on
   every run that follows, if and only if it is heeded.
   */
  lemma CancelTakesEffectExactlyWhen(c: Config, before: seq<Action>, actor: ActorId, at: string)
    requires var s := Exec(c, INIT, before);
      actor in s.actors && s.actors[actor].Requesting? && Unanswered(s, s.actors[actor].id)
    ensures var s := Exec(c, INIT, before); var id := s.actors[actor].id;
      Heeded(s, id) <==> forall more :: StaysSilent(c, before, actor, at, id, more)
  {
    var s := Exec(c, INIT, before);
    var id := s.actors[actor].id;
    hide Exec, Heeded, Settled, Unanswered, Silent;
    if Heeded(s, id) {
      forall more ensures StaysSilent(c, before, actor, at, id, more) {
        HeededRequestsSettle(c, before, actor, at, more);
      }
    } else {
      var more := RequestIsLost(c, before, actor, at);
    }
  }

  /**
   After a heeded request the job waits with the request on record, or its attempt is caught, or it ended cancelled, or it
   was taken out of the queue.
   */
  lemma HeededRequestsSettle(c: Config, before: seq<Action>, actor: ActorId, at: string, more: seq<Action>)
    requires var s := Exec(c, INIT, before);
      actor in s.actors && s.actors[actor].Requesting? && Heeded(s, s.actors[actor].id)
    ensures var id := Exec(c, INIT, before).actors[actor].id;
      var t := Exec(c, INIT, before + [ContinueCancel(actor, at)] + more);
      Settled(t, id) && Silent(t, id)
  {
    var s := Exec(c, INIT, before);
    var id, r := s.actors[actor].id, Step(c, s, ContinueCancel(actor, at));
    Always(c, before);
    AfterRequest(c, before, actor, at, more);
    assert Registry.Sound(s.reg) && Places(s) && Holders(s) && Endings(s);
    hide Exec, Step, Inv, Places, Holders, Endings, Tokens, Timing, Settled;
    StepKeepsInv(c, s, ContinueCancel(actor, at));
    HeededSettles(c, s, actor, at);
    RunKeepsSettled(c, r, more, id);
    InvParts(c, Exec(c, r, more));
    SettledIsSilent(Exec(c, r, more), id);
  }

  lemma InvParts(c: Config, s: Sys)
    requires Inv(c, s)
    ensures Places(s) && Holders(s) && Endings(s) && Tokens(s)
  {
    hide Places, Holders, Endings, Tokens, Timing;
  }

  lemma HeededSettles(c: Config, s: Sys, actor: ActorId, at: string)
    requires Registry.Sound(s.reg) && Places(s) && Holders(s) && Endings(s)
    requires actor in s.actors && s.actors[actor].Requesting? && Heeded(s, s.actors[actor].id)
    ensures Settled(Step(c, s, ContinueCancel(actor, at)), s.actors[actor].id)
  {
    var id, r := s.actors[actor].id, Step(c, s, ContinueCancel(actor, at));
    hide Holders, Places, Endings, Waits, Catchable;
    if Catchable(s, id) {
      hide Step, Unheard;
      RequestCatches(c, s, actor, at);
    } else if Leaving(s, id) {
      hide Step;
      StepKeepsDoomed(c, s, ContinueCancel(actor, at), id);
    } else {
      WaitsIsUnplaced(s, id);
      assert IsDead(r, id) == IsDead(s, id) && RemovalPending(r, id) == RemovalPending(s, id);
    }
  }

  lemma RequestIsLost(c: Config, before: seq<Action>, actor: ActorId, at: string) returns (more: seq<Action>)
    requires var s := Exec(c, INIT, before);
      && actor in s.actors && s.actors[actor].Requesting?
      && Unanswered(s, s.actors[actor].id) && !Heeded(s, s.actors[actor].id)
    ensures !StaysSilent(c, before, actor, at, Exec(c, INIT, before).actors[actor].id, more)
  {
    var s := Exec(c, INIT, before);
    var r := Step(c, s, ContinueCancel(actor, at));
    Always(c, before);
    hide Exec, Step, Heeded, Unanswered;
    StepKeepsInv(c, s, ContinueCancel(actor, at));
    more := UnheededEscapes(c, s, actor, at);
    AfterRequest(c, before, actor, at, more);
  }

  lemma UnheededEscapes(c: Config, s: Sys, actor: ActorId, at: string) returns (more: seq<Action>)
    requires actor in s.actors && s.actors[actor].Requesting?
    requires Unanswered(s, s.actors[actor].id) && !Heeded(s, s.actors[actor].id)
    requires Inv(c, s) && Inv(c, Step(c, s, ContinueCancel(actor, at)))
    ensures !Silent(Exec(c, Step(c, s, ContinueCancel(actor, at)), more), s.actors[actor].id)
  {
    var id, r := s.actors[actor].id, Step(c, s, ContinueCancel(actor, at));
    InvParts(c, s);
    InvParts(c, r);
    hide Exec, Inv, Step, Places, Holders, Endings, Tokens, Waits, Catchable, Reports, Notices;
    RecordingShape(c, s, actor, at);
    if Waits(s, id) {
      more := RemovalEscapes(c, r, id);
    } else {
      var w := s.h.holder[id];
      var p := PhaseOf(s, w);
      HolderPhase(s, id);
      if Undecided(p) {
        RequestMisses(c, s, actor, at);
        more := NotCaughtEscapes(c, r, id);
      } else if p.PostingReport? {
        PostsReport(c, r, w, p.job);
        ExecOne(c, r, Work(w, Fine));
        more := [Work(w, Fine)];
      } else {
        more := FailingEscapes(c, r, w, p.job, p.permanent);
      }
    }
  }

  lemma RecordingShape(c: Config, s: Sys, actor: ActorId, at: string)
    requires actor in s.actors && s.actors[actor].Requesting?
    ensures var id, r := s.actors[actor].id, Step(c, s, ContinueCancel(actor, at));
      && r.q == s.q && r.workers == s.workers && r.h == s.h
      && (Waits(r, id) <==> Waits(s, id)) && (RemovalPending(r, id) <==> RemovalPending(s, id))
  {
  }

  /** The phases of the worker of a claimed job. */
  lemma HolderPhase(s: Sys, id: JobId)
    requires Holders(s) && Endings(s) && id in s.q.claimed && !IsReported(s, id) && !Leaving(s, id)
    ensures id in s.h.holder
    ensures var p := PhaseOf(s, s.h.holder[id]);
      (Undecided(p) || p.PostingReport? || p.Failing?) && p.job.id == id
  {
    assert Held(PhaseOf(s, s.h.holder[id])) == Some(s.q.claimed[id]);
    assert s.h.holder[id] in s.workers;
  }

  // ----- Attempts that can always be caught

  /**
   An attempt claimed while no earlier attempt of the job had its entry left to remove can be caught all along; so if the
   removals come before the next claims, as the back-off is meant to see to, no request is lost.
   */
  lemma CleanAttemptsAreCatchable(c: Config, actions: seq<Action>, id: JobId)
    requires var s := Exec(c, INIT, actions);
      id in s.h.holder && id in s.h.clean && Undecided(PhaseOf(s, s.h.holder[id]))
    ensures Catchable(Exec(c, INIT, actions), id)
  {
    Always(c, actions);
    var s := Exec(c, INIT, actions);
    assert Holders(s) && Tokens(s);
    hide Exec, Inv, Places, Timing, Endings;
    assert id in s.q.claimed && Held(PhaseOf(s, s.h.holder[id])) == Some(s.q.claimed[id]);
    assert s.h.holder[id] in s.workers;
  }
}

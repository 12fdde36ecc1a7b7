/** A cancel request against a job that waits for its next attempt, and how a waiting job comes to be claimed. */
module LifecycleWaiting {
  import opened Wrappers
  import opened JobQueue
  import opened Lifecycle
  import opened LifecycleInvariants
  import opened LifecycleRetries
  import opened LifecycleEndings
  import opened LifecycleCancellation
  import opened LifecycleTheorems
  import Registry = InFlightRegistry

  /** The job is pending, or delayed until its back-off is over. */
  ghost predicate Waits(s: Sys, id: JobId) {
    id in IdsOf(s.q.pending) || id in IdsOf(JobsOf(s.q.delayed))
  }

  /** The job was enqueued, nobody runs it and it is not over. */
  ghost predicate Unplaced(s: Sys, id: JobId) {
    id in s.h.known && id !in s.q.claimed && id !in s.h.completed && id !in s.h.cancelled && !IsDead(s, id)
  }

  lemma WaitsIsUnplaced(s: Sys, id: JobId)
    requires Places(s)
    ensures Waits(s, id) <==> Unplaced(s, id)
  {
    DeadAndKnown(s, id);
    var pending, delayed := multiset(IdsOf(s.q.pending)), multiset(IdsOf(JobsOf(s.q.delayed)));
    assert Waits(s, id) <==> pending[id] + delayed[id] > 0;
    assert pending[id] + delayed[id] + multiset(s.q.claimed.Keys)[id] + DeadIds(s)[id]
      + multiset(s.h.completed)[id] + multiset(s.h.cancelled)[id] == multiset(s.h.known)[id];
    assert multiset(s.q.claimed.Keys)[id] > 0 <==> id in s.q.claimed;
  }

  // ----- A request on record waits for the next attempt

  /** The job waits with a request on record that nobody is about to remove. */
  ghost predicate Noted(s: Sys, id: JobId) {
    Unplaced(s, id) && id in s.reg.requests && !RemovalPending(s, id)
  }

  /** No report and no notice will follow: the job waits with a request on record, is doomed, or was cancelled. */
  ghost predicate Settled(s: Sys, id: JobId) {
    Noted(s, id) || Doomed(s, id) || id in s.h.cancelled
  }

  /** Who removes the entry of a waiting job does so after a requeue. */
  lemma RemoverOfWaiting(s: Sys, w: WorkerId, id: JobId)
    requires Endings(s) && Unplaced(s, id) && PhaseOf(s, w).Removing? && PhaseOf(s, w).job.id == id
    ensures RemovalPending(s, id)
  {
    var p := PhaseOf(s, w);
    assert w in s.workers;
    assert Finishing(p).Some? ==> FinishOk(FactsOf(s, id), p);
  }

  lemma ClaimKeepsNoted(s: Sys, w: WorkerId, id: JobId)
    requires Noted(s, id) && PhaseOf(s, w).Idle?
    ensures Noted(ClaimNext(s, w), id) || Caught(ClaimNext(s, w), id)
  {
    var s' := ClaimNext(s, w);
    hide Claim, Ready, RemovalPending;
    NoNewRemoval(s, s', w, id);
    ClaimedNext(s, w);
    assert IsDead(s', id) == IsDead(s, id);
  }

  lemma ClaimedNext(s: Sys, w: WorkerId)
    ensures var s', r := ClaimNext(s, w), Claim(s.q, s.now).1;
      && s'.q.dead == s.q.dead
      && s'.q.claimed == if r.Some? then s.q.claimed[r.value.id := r.value] else s.q.claimed
  {
    hide Ready, RemovalPending;
  }

  lemma QuietKeepsNoted(c: Config, s: Sys, w: WorkerId, env: Env, id: JobId)
    requires Endings(s) && Noted(s, id) && Quiet(PhaseOf(s, w))
    ensures Noted(WorkStep(c, s, w, env), id)
  {
    var s' := WorkStep(c, s, w, env);
    if PhaseOf(s, w).Removing? && PhaseOf(s, w).job.id == id {
      RemoverOfWaiting(s, w, id);
    }
    hide Endings, WorkStep, RemovalPending;
    QuietFrame(c, s, w, env);
    QuietRegistry(c, s, w, env);
    NoNewRemoval(s, s', w, id);
    QuietRequests(c, s, w, env, id);
    assert IsDead(s', id) == IsDead(s, id);
  }

  lemma LeavingKeepsNoted(c: Config, s: Sys, w: WorkerId, id: JobId)
    requires Holders(s) && Noted(s, id)
    ensures PhaseOf(s, w).Completing? ==> Noted(CompleteJob(s, w, PhaseOf(s, w).job, PhaseOf(s, w).ending), id)
    ensures PhaseOf(s, w).Failing? ==> Noted(FailJob(c, s, w, PhaseOf(s, w).job, PhaseOf(s, w).permanent), id)
  {
    var p := PhaseOf(s, w);
    if p.Completing? || p.Failing? {
      HeldIsStored(s, w);
      var s' := if p.Completing? then CompleteJob(s, w, p.job, p.ending) else FailJob(c, s, w, p.job, p.permanent);
      assert IsDead(s', id) == IsDead(s, id);
      hide Holders, RemovalPending, IsDead;
      NoNewRemoval(s, s', w, id);
    }
  }

  lemma WorkKeepsNoted(c: Config, s: Sys, w: WorkerId, env: Env, id: JobId)
    requires Holders(s) && Endings(s) && Noted(s, id)
    ensures Noted(WorkStep(c, s, w, env), id) || Caught(WorkStep(c, s, w, env), id)
  {
    hide Holders, Endings, Noted, Caught, ClaimNext, CompleteJob, FailJob, AttachToken, RemoveEntry, Announce;
    if PhaseOf(s, w).Idle? {
      ClaimKeepsNoted(s, w, id);
    } else if Quiet(PhaseOf(s, w)) {
      hide WorkStep;
      QuietKeepsNoted(c, s, w, env, id);
    } else {
      LeavingKeepsNoted(c, s, w, id);
    }
  }

  lemma CancelKeepsNoted(s: Sys, a: ActorId, cancelled: JobId, user: string, id: JobId)
    requires Noted(s, id)
    ensures Settled(StartCancelStep(s, a, cancelled, user), id)
  {
    var s' := StartCancelStep(s, a, cancelled, user);
    CancelConserves(s.q, cancelled, s.now);
    hide Cancel, Ready, Census;
    assert IsDead(s', id) == IsDead(s, id) && RemovalPending(s', id) == RemovalPending(s, id);
    hide IsDead, RemovalPending;
  }

  /** A step that leaves workers and places alone and drops no request. */
  lemma SameNoted(s: Sys, s': Sys, id: JobId)
    requires Noted(s, id) && s'.workers == s.workers && s'.q.claimed == s.q.claimed && s'.q.dead == s.q.dead
    requires s.h.known <= s'.h.known && s'.h.completed == s.h.completed && s'.h.cancelled == s.h.cancelled
    requires s.reg.requests.Keys <= s'.reg.requests.Keys
    ensures Noted(s', id)
  {
    assert IsDead(s', id) == IsDead(s, id) && RemovalPending(s', id) == RemovalPending(s, id);
  }

  lemma StepKeepsNoted(c: Config, s: Sys, a: Action, id: JobId)
    requires Holders(s) && Endings(s) && Noted(s, id)
    ensures Settled(Step(c, s, a), id)
  {
    hide WorkStep, StartCancelStep, Holders, Endings, Noted, Caught;
    match a {
      case Work(w, env) => WorkKeepsNoted(c, s, w, env, id);
      case StartCancel(actor, cancelled, user) => CancelKeepsNoted(s, actor, cancelled, user, id);
      case _ => SameNoted(s, Step(c, s, a), id);
    }
  }

  lemma CancelledStays(c: Config, s: Sys, a: Action)
    ensures s.h.cancelled <= Step(c, s, a).h.cancelled
  {
    hide Claim, Ready, Fail, Complete, Cancel, RemovalPending, AfterRun, Registry.Attach, Registry.RequestCancel;
  }

  lemma StepKeepsSettled(c: Config, s: Sys, a: Action, id: JobId)
    requires Holders(s) && Places(s) && Endings(s) && Settled(s, id)
    ensures Settled(Step(c, s, a), id)
  {
    hide Step, Holders, Places, Endings, Noted, Doomed;
    if Noted(s, id) {
      StepKeepsNoted(c, s, a, id);
    } else if Doomed(s, id) {
      StepKeepsDoomed(c, s, a, id);
    } else {
      CancelledStays(c, s, a);
    }
  }

  /** Nothing was posted for a settled job, neither a report nor a notice. */
  lemma SettledIsSilent(s: Sys, id: JobId)
    requires Holders(s) && Places(s) && Endings(s) && Settled(s, id)
    ensures Reports(s.h.log, id) == 0 && Notices(s.h.log, id) == 0
  {
    assert IdOk(FactsOf(s, id));
    OverOnce(s, id);
    assert id in s.h.holder <==> id in s.q.claimed;
    if Doomed(s, id) {
      DoomedPlace(s, id);
    }
    hide Holders, Places, Endings, Reports, Notices, IsDead;
  }

  lemma {:induction false} RunKeepsSettled(c: Config, s: Sys, more: seq<Action>, id: JobId)
    requires Inv(c, s) && Settled(s, id)
    ensures Inv(c, Exec(c, s, more)) && Settled(Exec(c, s, more), id)
  {
    if more != [] {
      var t := Exec(c, s, more[..|more| - 1]);
      RunKeepsSettled(c, s, more[..|more| - 1], id);
      StepKeepsInv(c, t, more[|more| - 1]);
      hide Step, Places, Holders, Endings, Tokens, Timing, Settled;
      StepKeepsSettled(c, t, more[|more| - 1], id);
    }
  }

  // ----- A waiting job can be claimed

  lemma {:induction false} FreshWorker(ws: set<WorkerId>) returns (w: WorkerId)
    ensures forall v :: v in ws ==> v < w
  {
    if ws == {} {
      w := 0;
    } else {
      var v :| v in ws;
      var rest := FreshWorker(ws - {v});
      w := if v < rest then rest else v + 1;
      assert ws == (ws - {v}) + {v};
    }
  }

  /** The run changes neither registry nor tokens, drops no worker's phase and posts nothing for `id`. */
  ghost predicate OnlyClaims(s: Sys, t: Sys, id: JobId) {
    t.reg == s.reg && t.nextToken == s.nextToken && Reports(t.h.log, id) == Reports(s.h.log, id)
  }

  /** A worker that has never worked takes the first pending job. */
  lemma TakesFirst(c: Config, s: Sys, w: WorkerId, id: JobId)
    requires w !in s.workers && id in IdsOf(Promote(s.q, s.now).pending)
    ensures var t := Step(c, s, Work(w, Fine)); var first := Promote(s.q, s.now).pending[0];
      && OnlyClaims(s, t, id) && PhaseOf(t, w) == Attaching(first)
      && (first.id != id ==> id in IdsOf(t.q.pending))
      && t.now == s.now
      && |t.q.pending| + |t.q.delayed| < |s.q.pending| + |s.q.delayed|
  {
    var p := Promote(s.q, s.now);
    PromotionSplits(s.q.delayed, s.now);
    assert |Ready(s.q.delayed, s.now)| + |Waiting(s.q.delayed, s.now)| == |s.q.delayed| by {
      assert |multiset(Ready(s.q.delayed, s.now)) + multiset(Waiting(s.q.delayed, s.now))| == |multiset(s.q.delayed)|;
    }
    LogSay(s.h.log, JobClaimed(p.pending[0].id), id);
    hide Ready, Waiting, RemovalPending, Reports;
    if p.pending[0].id != id {
      var k :| 0 <= k < |p.pending| && IdsOf(p.pending)[k] == id;
      assert IdsOf(p.pending[1..])[k - 1] == id;
    }
  }

  /** Workers that have never worked take the pending jobs one by one, up to the one with this id. */
  lemma {:induction false} ReachesTheFront(c: Config, s: Sys, id: JobId) returns (more: seq<Action>, w: WorkerId)
    requires id in IdsOf(Promote(s.q, s.now).pending)
    ensures var t := Exec(c, s, more);
      OnlyClaims(s, t, id) && PhaseOf(t, w).Attaching? && PhaseOf(t, w).job.id == id
    decreases |s.q.pending| + |s.q.delayed|
  {
    hide Exec, Step, Ready, Waiting, Reports;
    w := FreshWorker(s.workers.Keys);
    TakesFirst(c, s, w, id);
    var t := Step(c, s, Work(w, Fine));
    if PhaseOf(t, w).job.id == id {
      ExecOne(c, s, Work(w, Fine));
      more := [Work(w, Fine)];
    } else {
      PendingStaysPending(t, id);
      var rest, v := ReachesTheFront(c, t, id);
      ExecFrom(c, s, Work(w, Fine), rest);
      more, w := [Work(w, Fine)] + rest, v;
    }
  }

  lemma PendingStaysPending(s: Sys, id: JobId)
    requires id in IdsOf(s.q.pending)
    ensures id in IdsOf(Promote(s.q, s.now).pending)
  {
    IdsOfAppend(s.q.pending, JobsOf(Ready(s.q.delayed, s.now)));
    hide Ready, IdsOf, JobsOf;
  }

  /** Once enough time has passed, a waiting job is pending after the next promotion. */
  lemma BecomesPending(s: Sys, id: JobId) returns (nanos: nat)
    requires Waits(s, id)
    ensures id in IdsOf(Promote(s.q, s.now + nanos).pending)
  {
    if id in IdsOf(s.q.pending) {
      nanos := 0;
      PendingStaysPending(s, id);
    } else {
      var k :| 0 <= k < |s.q.delayed| && IdsOf(JobsOf(s.q.delayed))[k] == id;
      nanos := s.q.delayed[k].availableAt;
      var ready := Ready(s.q.delayed, s.now + nanos);
      PromotionSplits(s.q.delayed, s.now + nanos);
      assert s.q.delayed[k] in s.q.delayed;
      var i :| 0 <= i < |ready| && ready[i] == s.q.delayed[k];
      IdsOfAppend(s.q.pending, JobsOf(ready));
      assert IdsOf(JobsOf(ready))[i] == id;
    }
  }

  lemma ExecFrom(c: Config, s: Sys, a: Action, rest: seq<Action>)
    ensures Exec(c, s, [a] + rest) == Exec(c, Step(c, s, a), rest)
  {
    ExecAppend(c, s, [a], rest);
    ExecOne(c, s, a);
  }

  /** A waiting job can be claimed with nothing said about it and no registry entry changed on the way. */
  lemma WaitingIsClaimed(c: Config, s: Sys, id: JobId) returns (more: seq<Action>, w: WorkerId)
    requires Waits(s, id)
    ensures var t := Exec(c, s, more);
      OnlyClaims(s, t, id) && PhaseOf(t, w).Attaching? && PhaseOf(t, w).job.id == id
  {
    var nanos := BecomesPending(s, id);
    var t := Step(c, s, Advance(nanos));
    hide Exec, Ready, Waiting, Reports;
    var rest;
    rest, w := ReachesTheFront(c, t, id);
    ExecFrom(c, s, Advance(nanos), rest);
    more := [Advance(nanos)] + rest;
  }
}

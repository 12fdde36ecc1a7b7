/** The promises of the job life cycle, over every run of any number of workers and cancel requests. */
module LifecycleTheorems {
  import opened Wrappers
  import opened JobQueue
  import opened Lifecycle
  import opened LifecycleInvariants
  import opened LifecycleRetries
  import opened LifecycleEndings
  import opened LifecycleCancellation
  import Registry = InFlightRegistry

  ghost predicate Inv(c: Config, s: Sys) {
    Places(s) && Holders(s) && Timing(c, s) && Endings(s) && Tokens(s)
  }

  lemma InitHolds(c: Config)
    ensures Inv(c, INIT)
  {
    assert IdsOf([]) == [] && JobsOf([]) == [] && DeadJobs([]) == [];
    forall id ensures ClaimsInLimit(c, INIT, id) && IdOk(FactsOf(INIT, id)) {
    }
  }

  lemma StepKeepsInv(c: Config, s: Sys, a: Action)
    requires Inv(c, s)
    ensures Inv(c, Step(c, s, a))
  {
    hide Places, Holders, Timing, Endings, Tokens, Step;
    StepKeepsPlaces(c, s, a);
    StepKeepsHolders(c, s, a);
    StepKeepsTiming(c, s, a);
    StepKeepsEndings(c, s, a);
    StepKeepsTokens(c, s, a);
  }

  lemma {:induction false} RunKeepsInv(c: Config, s: Sys, actions: seq<Action>)
    requires Inv(c, s)
    ensures Inv(c, Exec(c, s, actions))
  {
    hide Inv, Step;
    if actions != [] {
      RunKeepsInv(c, s, actions[..|actions| - 1]);
      StepKeepsInv(c, Exec(c, s, actions[..|actions| - 1]), actions[|actions| - 1]);
    }
  }

  lemma Always(c: Config, actions: seq<Action>)
    ensures Inv(c, Exec(c, INIT, actions))
  {
    InitHolds(c);
    RunKeepsInv(c, INIT, actions);
  }

  lemma {:induction false} ExecAppend(c: Config, s: Sys, one: seq<Action>, two: seq<Action>)
    ensures Exec(c, s, one + two) == Exec(c, Exec(c, s, one), two)
  {
    hide Step;
    if two == [] {
      assert one + two == one;
    } else {
      ExecAppend(c, s, one, two[..|two| - 1]);
      assert (one + two)[..|one + two| - 1] == one + two[..|two| - 1];
    }
  }

  // ----- One place, one worker

  /** In how many of the six places an id is, and how often. */
  ghost function PlacesOf(s: Sys, id: JobId): nat {
    multiset(IdsOf(s.q.pending))[id] + multiset(IdsOf(JobsOf(s.q.delayed)))[id]
    + (if id in s.q.claimed then 1 else 0) + multiset(IdsOf(DeadJobs(s.q.dead)))[id]
    + (if id in s.h.completed then 1 else 0) + (if id in s.h.cancelled then 1 else 0)
  }

  lemma PlacesAreCounted(s: Sys, id: JobId)
    requires Places(s)
    ensures PlacesOf(s, id) == if id in s.h.known then 1 else 0
  {
    var inQueue, completed, cancelled := Census(s.q)[id], multiset(s.h.completed)[id], multiset(s.h.cancelled)[id];
    assert inQueue + completed + cancelled == multiset(s.h.known)[id];
    assert multiset(s.q.claimed.Keys)[id] == if id in s.q.claimed then 1 else 0;
  }

  /** An id that was enqueued is in exactly one of the six places, and an unknown id is in none. */
  lemma EachJobHasOnePlace(c: Config, actions: seq<Action>, id: JobId)
    ensures PlacesOf(Exec(c, INIT, actions), id) == if id in Exec(c, INIT, actions).h.known then 1 else 0
  {
    Always(c, actions);
    hide Exec, PlacesOf, Places, Holders, Timing, Endings, Tokens;
    PlacesAreCounted(Exec(c, INIT, actions), id);
  }

  lemma PlacesCount(s: Sys)
    requires Places(s)
    ensures |s.q.pending| + |s.q.delayed| + |s.q.claimed| + |s.q.dead| + |s.h.completed| + |s.h.cancelled| == |s.h.known|
  {
    assert |IdsOf(s.q.pending)| == |s.q.pending| && |IdsOf(JobsOf(s.q.delayed))| == |s.q.delayed|;
    assert |IdsOf(DeadJobs(s.q.dead))| == |s.q.dead| && |s.q.claimed.Keys| == |s.q.claimed|;
    assert |multiset(s.h.known)| == |s.h.known|;
  }

  /** The depth of the queue is the number of jobs enqueued so far that are not running and not over. */
  lemma DepthIsWhatIsLeft(c: Config, actions: seq<Action>)
    ensures var s := Exec(c, INIT, actions);
      Depth(s.q) == |s.h.known| - |s.q.claimed| - |s.q.dead| - |s.h.completed| - |s.h.cancelled|
  {
    Always(c, actions);
    hide Exec, Places, Holders, Timing, Endings, Tokens;
    PlacesCount(Exec(c, INIT, actions));
  }

  /** Two workers never hold the same job, and a worker's copy is the stored one, so `fail` finds its job. */
  lemma OneWorkerPerJob(c: Config, actions: seq<Action>, v: WorkerId, w: WorkerId)
    ensures var s := Exec(c, INIT, actions);
      && (Held(PhaseOf(s, w)).Some? ==>
            var job := Held(PhaseOf(s, w)).value;
            && job.id in s.q.claimed && s.q.claimed[job.id] == job
            && (Held(PhaseOf(s, v)).Some? && Held(PhaseOf(s, v)).value.id == job.id ==> v == w)
            && !Fail(s.q, FailInput(job.id, "", c.maxRetry, c.backoffMs), s.now).1.ClaimedJobNotFound?)
      && (forall id :: id in s.q.claimed ==> id in s.h.holder && Held(PhaseOf(s, s.h.holder[id])) == Some(s.q.claimed[id]))
  {
    Always(c, actions);
    var s := Exec(c, INIT, actions);
    assert Holders(s);
    hide Exec, Inv, Places, Timing, Endings, Tokens;
    if Held(PhaseOf(s, w)).Some? {
      HeldIsStored(s, w);
      if Held(PhaseOf(s, v)).Some? {
        HeldIsStored(s, v);
      }
    }
  }

  // ----- Retries

  /** No job passes the retry limit, and none is claimed more than one time past it. */
  lemma RetriesAreBounded(c: Config, actions: seq<Action>)
    ensures var s := Exec(c, INIT, actions);
      && (forall id :: Claims(s.h.log, id) <= c.maxRetry + 1)
      && (forall j :: j in s.q.pending ==> j.retryCount <= c.maxRetry && Claims(s.h.log, j.id) == j.retryCount)
      && (forall d :: d in s.q.delayed ==> d.job.retryCount <= c.maxRetry && Claims(s.h.log, d.job.id) == d.job.retryCount)
      && (forall id :: id in s.q.claimed ==>
            s.q.claimed[id].retryCount <= c.maxRetry && Claims(s.h.log, id) == s.q.claimed[id].retryCount + 1)
      && (forall d :: d in s.q.dead ==>
            && d.job.retryCount <= c.maxRetry && Claims(s.h.log, d.job.id) == d.job.retryCount + 1
            && (d.job.retryCount == c.maxRetry || d.job.id in s.h.permanent))
  {
    Always(c, actions);
    var s := Exec(c, INIT, actions);
    assert Retries(c, s);
    hide Exec, Inv, Places, Holders, Timing, Endings, Tokens;
    forall id ensures Claims(s.h.log, id) <= c.maxRetry + 1 {
      assert ClaimsInLimit(c, s, id);
    }
  }

  /** A failed attempt is dead-lettered at once exactly on a permanent failure or at the limit; otherwise it is requeued. */
  lemma FailureGoesWhereItShould(c: Config, actions: seq<Action>, w: WorkerId)
    requires PhaseOf(Exec(c, INIT, actions), w).Failing?
    ensures var s := Exec(c, INIT, actions); var p := PhaseOf(s, w); var s' := Step(c, s, Work(w, Fine));
      && PhaseOf(s', w).Removing? && PhaseOf(s', w).job == p.job
      && PhaseOf(s', w).ending == (if p.permanent || p.job.retryCount == c.maxRetry then EndDead else EndRequeued)
      && p.job.id !in s'.q.claimed
  {
    Always(c, actions);
    var s := Exec(c, INIT, actions);
    hide Exec;
    HeldIsStored(s, w);
    assert RunsInLimit(c, s.h.log, s.q.claimed[PhaseOf(s, w).job.id]);
    assert PhaseOf(s, w).job.retryCount <= c.maxRetry;
    hide Inv, Places, Holders, Timing, Endings, Tokens, RunsInLimit, Step;
    FailingGoes(c, s, w, PhaseOf(s, w).job, PhaseOf(s, w).permanent);
  }

  lemma FailingGoes(c: Config, s: Sys, w: WorkerId, job: Job, permanent: bool)
    requires PhaseOf(s, w) == Failing(job, permanent) && job.id in s.q.claimed && s.q.claimed[job.id] == job
    requires job.retryCount <= c.maxRetry
    ensures var s' := Step(c, s, Work(w, Fine));
      && PhaseOf(s', w) == Removing(job, if permanent || job.retryCount == c.maxRetry then EndDead else EndRequeued)
      && job.id !in s'.q.claimed
  {
    hide ClaimNext, AttachToken, CompleteJob, RemoveEntry, Announce;
  }

  ghost function ClaimEvents(log: seq<Event>): seq<Event> {
    if log == [] then []
    else
      var front, e := ClaimEvents(log[..|log| - 1]), log[|log| - 1];
      if e.JobClaimed? then front + [e] else front
  }

  lemma {:induction false} ClaimEventsCount(log: seq<Event>, id: JobId)
    ensures multiset(ClaimEvents(log))[JobClaimed(id)] == Claims(log, id)
    ensures forall e :: e in ClaimEvents(log) ==> e.JobClaimed?
  {
    if log != [] {
      assert log == log[..|log| - 1] + [log[|log| - 1]];
      ClaimEventsCount(log[..|log| - 1], id);
    }
  }

  /** A list over a set of ids, each at most `k` times, is at most `k` times as long as the set is large. */
  lemma {:induction false} Pigeonhole(es: multiset<Event>, ids: set<JobId>, k: nat)
    requires forall e :: e in es ==> e.JobClaimed? && e.id in ids
    requires forall id :: es[JobClaimed(id)] <= k
    ensures |es| <= k * |ids|
  {
    if ids == {} {
      assert es == multiset{};
    } else {
      var id :| id in ids;
      var rest := es[JobClaimed(id) := 0];
      Pigeonhole(rest, ids - {id}, k);
      assert |es| == |rest| + es[JobClaimed(id)];
      assert k * |ids| == k * (|ids| - 1) + k;
    }
  }

  lemma ClaimsTotal(c: Config, s: Sys)
    requires Retries(c, s)
    ensures |ClaimEvents(s.h.log)| <= (c.maxRetry + 1) * |s.h.known|
  {
    var es := multiset(ClaimEvents(s.h.log));
    forall id ensures es[JobClaimed(id)] <= c.maxRetry + 1 && (es[JobClaimed(id)] > 0 ==> id in s.h.known) {
      ClaimEventsCount(s.h.log, id);
      assert ClaimsInLimit(c, s, id);
    }
    ClaimEventsCount(s.h.log, "");
    hide Retries, ClaimEvents;
    forall e | e in es ensures e.JobClaimed? && e.id in s.h.known {
      assert e in ClaimEvents(s.h.log);
      assert e == JobClaimed(e.id);
      assert es[JobClaimed(e.id)] > 0;
    }
    Pigeonhole(es, s.h.known, c.maxRetry + 1);
  }

  /** The work is bounded: a run hands out at most `maxRetry + 1` times as many jobs as were enqueued. */
  lemma TotalClaimsAreBounded(c: Config, actions: seq<Action>)
    ensures var s := Exec(c, INIT, actions); |ClaimEvents(s.h.log)| <= (c.maxRetry + 1) * |s.h.known|
  {
    Always(c, actions);
    hide Exec, ClaimEvents, Places, Holders, Endings, Tokens, Retries, Delays, InOrder;
    ClaimsTotal(c, Exec(c, INIT, actions));
  }

  // ----- Back-off and order

  /** A job is handed out for its retry `r` no earlier than the capped, doubled delay after it failed. */
  lemma NoEarlyHandOut(c: Config, actions: seq<Action>)
    ensures var s := Exec(c, INIT, actions); var r := Claim(s.q, s.now).1;
      r.Some? && r.value.retryCount >= 1 ==>
        && r.value.id in s.h.failedAt
        && s.now >= s.h.failedAt[r.value.id] + Min(c.backoffMs * Pow2(r.value.retryCount - 1), U64_MAX) * 1_000_000
  {
    Always(c, actions);
    var s := Exec(c, INIT, actions);
    hide Exec;
    assert Places(s);
    PromotionKeepsTiming(c, s);
    var p := Promoted(s);
    assert Delays(c, p);
    hide Inv, Places, Holders, Endings, Tokens, Retries, InOrder, Delays, Timing;
    if p.q.pending != [] && p.q.pending[0].retryCount >= 1 {
      PendingIsDue(c, p, p.q.pending[0]);
    }
  }

  lemma PendingIsDue(c: Config, s: Sys, j: Job)
    requires Delays(c, s) && j in s.q.pending && j.retryCount >= 1
    ensures DueBy(c, s, j, s.now)
  {
  }

  /**
   A requeued job waits for exactly the capped, doubled delay after it failed: once that is over, any claim and any cancel
   finds it pending; before that, none does.
   */
  lemma RetriesBecomeReady(c: Config, actions: seq<Action>, d: DelayedJob, other: JobId)
    requires d in Exec(c, INIT, actions).q.delayed
    ensures var s := Exec(c, INIT, actions);
      && d.job.retryCount >= 1 && d.job.id in s.h.failedAt
      && d.availableAt
         == s.h.failedAt[d.job.id] + Min(c.backoffMs * Pow2(d.job.retryCount - 1), U64_MAX) * 1_000_000
    ensures var s := Exec(c, INIT, actions); var (q, r) := Claim(s.q, s.now);
      if s.now >= d.availableAt then d !in q.delayed && (d.job in q.pending || r == Some(d.job))
      else d in q.delayed && r != Some(d.job)
    ensures var s := Exec(c, INIT, actions); var (q, r) := Cancel(s.q, other, s.now);
      if other == d.job.id then r.Cancelled?
      else if s.now >= d.availableAt then d !in q.delayed && d.job in q.pending
      else d in q.delayed
  {
    Always(c, actions);
    var s := Exec(c, INIT, actions);
    hide Exec;
    assert Delays(c, s) && Places(s);
    assert DueAt(c, s, d.job, d.availableAt);
    WaitsApart(s, d);
    hide Inv, Places, Holders, Timing, Endings, Tokens, Pow2;
    DelayEnds(s, d, other);
  }

  lemma CountsTwice(ids: seq<JobId>, i: nat, k: nat)
    requires i < k < |ids| && ids[i] == ids[k]
    ensures multiset(ids)[ids[i]] >= 2
  {
    assert ids == ids[..i] + [ids[i]] + ids[i + 1..k] + [ids[k]] + ids[k + 1..];
  }

  /** No other job that waits has the id of a delayed one. */
  lemma WaitsApart(s: Sys, d: DelayedJob)
    requires Places(s) && d in s.q.delayed
    ensures forall j :: j in s.q.pending ==> j.id != d.job.id
    ensures forall e :: e in s.q.delayed && e.job.id == d.job.id ==> e == d
  {
    var id, ids := d.job.id, IdsOf(JobsOf(s.q.delayed));
    DelayedMember(s.q.delayed, id);
    IdsOfMember(s.q.pending, id);
    assert multiset(s.h.known)[id] <= 1;
    assert Census(s.q)[id] >= multiset(IdsOf(s.q.pending))[id] + multiset(ids)[id];
    assert multiset(ids)[id] <= 1;
    hide Places, Census;
    var k :| 0 <= k < |s.q.delayed| && s.q.delayed[k] == d;
    forall e | e in s.q.delayed && e.job.id == id ensures e == d {
      var i :| 0 <= i < |s.q.delayed| && s.q.delayed[i] == e;
      assert ids[i] == ids[k] == id;
      if i < k { CountsTwice(ids, i, k); }
      if k < i { CountsTwice(ids, k, i); }
    }
  }

  /** Where promotion leaves a delayed job. */
  lemma PromotedInTime(s: Sys, d: DelayedJob)
    requires d in s.q.delayed && forall j :: j in s.q.pending ==> j.id != d.job.id
    requires forall e :: e in s.q.delayed && e.job.id == d.job.id ==> e == d
    ensures var p := Promote(s.q, s.now);
      if s.now >= d.availableAt then d !in p.delayed && d.job in p.pending
      else d in p.delayed && forall j :: j in p.pending ==> j.id != d.job.id
  {
    var ready := Ready(s.q.delayed, s.now);
    PromotionSplits(s.q.delayed, s.now);
    PromotedJobs(s);
    hide Ready, Waiting;
    if s.now >= d.availableAt {
      var k :| 0 <= k < |ready| && ready[k] == d;
      assert JobsOf(ready)[k] == d.job;
      assert d.job in JobsOf(ready);
    }
  }

  lemma DelayEnds(s: Sys, d: DelayedJob, other: JobId)
    requires d in s.q.delayed && forall j :: j in s.q.pending ==> j.id != d.job.id
    requires forall e :: e in s.q.delayed && e.job.id == d.job.id ==> e == d
    ensures var (q, r) := Claim(s.q, s.now);
      if s.now >= d.availableAt then d !in q.delayed && (d.job in q.pending || r == Some(d.job))
      else d in q.delayed && r != Some(d.job)
    ensures var (q, r) := Cancel(s.q, other, s.now);
      if other == d.job.id then r.Cancelled?
      else if s.now >= d.availableAt then d !in q.delayed && d.job in q.pending
      else d in q.delayed
  {
    PromotedInTime(s, d);
    hide Promote;
    var p := Promote(s.q, s.now);
    assert p.pending != [] ==> p.pending == [p.pending[0]] + p.pending[1..];
    CancelSpares(p.pending, p.delayed, d, other);
  }

  /** Looking a waiting job up by its id finds it, and taking another one out leaves it. */
  lemma CancelSpares(pending: seq<Job>, delayed: seq<DelayedJob>, d: DelayedJob, other: JobId)
    ensures d.job in pending && other == d.job.id ==> IndexOf(pending, other).Some?
    ensures d in delayed && other == d.job.id ==> IndexOf(JobsOf(delayed), other).Some?
    ensures other != d.job.id && IndexOf(pending, other).Some? ==>
      (d.job in Without(pending, IndexOf(pending, other).value) <==> d.job in pending)
    ensures other != d.job.id && IndexOf(JobsOf(delayed), other).Some? ==>
      (d in Without(delayed, IndexOf(JobsOf(delayed), other).value) <==> d in delayed)
  {
    if d in delayed {
      var k :| 0 <= k < |delayed| && delayed[k] == d;
      assert JobsOf(delayed)[k] == d.job;
    }
    if IndexOf(pending, other).Some? {
      var k := IndexOf(pending, other).value;
      assert pending == pending[..k] + [pending[k]] + pending[k + 1..];
    }
    if IndexOf(JobsOf(delayed), other).Some? {
      var k := IndexOf(JobsOf(delayed), other).value;
      assert JobsOf(delayed)[k] == delayed[k].job;
      assert delayed == delayed[..k] + [delayed[k]] + delayed[k + 1..];
    }
  }

  /**
   Jobs are handed out in the order in which they entered `pending`: what was handed out and what is pending is the list
   of all entries without the jobs that were cancelled while they waited, and those were never handed out.
   */
  lemma ClaimsFollowEntries(c: Config, actions: seq<Action>)
    ensures var s := Exec(c, INIT, actions);
      && s.h.handed + s.q.pending == Kept(s.h.line, s.h.dropped)
      && forall j :: j in s.h.dropped ==> j.id in s.h.cancelled && j !in s.h.handed
  {
    Always(c, actions);
    var s := Exec(c, INIT, actions);
    assert InOrder(s);
    hide Exec, Inv, Places, Holders, Timing, Endings, Tokens;
    KeptIsNotDropped(s.h.line, s.h.dropped);
    hide Kept;
    assert forall j :: j in s.h.handed ==> j in s.h.handed + s.q.pending;
  }

  // ----- What is said about the end

  /**
   At most one report or dead-letter notice is posted, never both; at most one final control update is made, counting
   those of workers and of cancel requests; and all of these come after the job has its place for good, except that
   the report precedes `complete`.
   */
  lemma OneEndingPerJob(c: Config, actions: seq<Action>, id: JobId)
    ensures var s := Exec(c, INIT, actions);
      && Reports(s.h.log, id) + Notices(s.h.log, id) <= 1
      && TerminalUpdates(s.h.log, id) <= 1
      && (TerminalUpdates(s.h.log, id) == 1 ==> FactsOf(s, id).Over())
      && (Notices(s.h.log, id) == 1 ==> IsDead(s, id))
      && (Reports(s.h.log, id) == 1 ==> id in s.h.completed || IsReported(s, id))
      && (id in s.h.endedCancelled ==> Reports(s.h.log, id) == 0)
  {
    Always(c, actions);
    var s := Exec(c, INIT, actions);
    assert IdOk(FactsOf(s, id));
    OverOnce(s, id);
    assert id in s.h.holder ==> id in s.q.claimed;
    hide Exec, Inv, Places, Holders, Endings, Tokens, Timing;
  }

  // ----- Cancellation

  lemma {:induction false} RunKeepsDoomed(c: Config, s: Sys, more: seq<Action>, id: JobId)
    requires Inv(c, s) && Doomed(s, id)
    ensures Doomed(Exec(c, s, more), id) && Unheard(s, Exec(c, s, more), id) && Inv(c, Exec(c, s, more))
  {
    if more != [] {
      var t := Exec(c, s, more[..|more| - 1]);
      RunKeepsDoomed(c, s, more[..|more| - 1], id);
      StepKeepsInv(c, t, more[|more| - 1]);
      hide Step, Places, Holders, Endings, Tokens, Timing, Doomed;
      StepKeepsDoomed(c, t, more[|more| - 1], id);
    }
  }

  /**
   What a caller can look up when the request is about to be recorded: the attempt has yet to attach its token and no
   other worker is about to remove an entry of the job, or the attempt's token is cancelled or the one in the registry.
   */
  ghost predicate Catchable(s: Sys, id: JobId) {
    && id in s.h.holder
    && match PhaseOf(s, s.h.holder[id])
       case Attaching(_) => !RemovalPending(s, id)
       case AnnouncingRunning(_, token) => token in s.reg.cancelled || (id in s.reg.tokens && s.reg.tokens[id] == token)
       case Executing(_, token) => token in s.reg.cancelled || (id in s.reg.tokens && s.reg.tokens[id] == token)
       case _ => false
  }

  lemma RequestCatches(c: Config, s: Sys, actor: ActorId, at: string)
    requires Registry.Sound(s.reg) && actor in s.actors && s.actors[actor].Requesting?
    requires Catchable(s, s.actors[actor].id)
    ensures var id, r := s.actors[actor].id, Step(c, s, ContinueCancel(actor, at));
      Doomed(r, id) && Unheard(s, r, id)
  {
    var id, r := s.actors[actor].id, Step(c, s, ContinueCancel(actor, at));
    assert r.h == s.h && r.workers == s.workers && Caught(r, id);
  }

  lemma DoomedMeans(s: Sys, id: JobId)
    requires Places(s) && Holders(s) && Endings(s) && Doomed(s, id)
    ensures !IsDead(s, id)
    ensures id !in s.h.holder ==> id in s.h.endedCancelled && id in s.h.completed
    ensures id in s.h.holder ==> Undecided(PhaseOf(s, s.h.holder[id])) || Leaving(s, id)
  {
    DoomedPlace(s, id);
    assert IdOk(FactsOf(s, id));
    OverOnce(s, id);
    assert id in s.h.holder ==> id in s.q.claimed;
  }

  /** From `s` to `t` nothing is handed out or posted for the job; it is not dead, and once let go it is cancelled. */
  ghost predicate TookEffect(s: Sys, t: Sys, id: JobId) {
    && Unheard(s, t, id)
    && !IsDead(t, id)
    && (id !in t.h.holder ==> id in t.h.endedCancelled && id in t.h.completed)
    && (id in t.h.holder ==> Undecided(PhaseOf(t, t.h.holder[id])) || Leaving(t, id))
  }

  lemma AfterRequest(c: Config, before: seq<Action>, actor: ActorId, at: string, more: seq<Action>)
    ensures Exec(c, INIT, before + [ContinueCancel(actor, at)] + more)
      == Exec(c, Step(c, Exec(c, INIT, before), ContinueCancel(actor, at)), more)
  {
    ExecAppend(c, INIT, before, [ContinueCancel(actor, at)]);
    ExecOne(c, Exec(c, INIT, before), ContinueCancel(actor, at));
    ExecAppend(c, INIT, before + [ContinueCancel(actor, at)], more);
  }

  /** A cancel request that is recorded while the attempt can be caught takes effect, whatever happens afterwards. */
  lemma CancelTakesEffect(c: Config, before: seq<Action>, actor: ActorId, at: string, more: seq<Action>)
    requires var s := Exec(c, INIT, before);
      actor in s.actors && s.actors[actor].Requesting? && Catchable(s, s.actors[actor].id)
    ensures var s := Exec(c, INIT, before);
      TookEffect(s, Exec(c, INIT, before + [ContinueCancel(actor, at)] + more), s.actors[actor].id)
  {
    var s := Exec(c, INIT, before);
    Always(c, before);
    AfterRequest(c, before, actor, at, more);
    assert Registry.Sound(s.reg);
    hide Exec, Step, Places, Holders, Endings, Tokens, Timing, Doomed, IsDead, Leaving, Catchable;
    var id, r := s.actors[actor].id, Step(c, s, ContinueCancel(actor, at));
    StepKeepsInv(c, s, ContinueCancel(actor, at));
    RequestCatches(c, s, actor, at);
    RunKeepsDoomed(c, r, more, id);
    DoomedMeans(Exec(c, r, more), id);
  }

  lemma ExecOne(c: Config, s: Sys, a: Action)
    ensures Exec(c, s, [a]) == Step(c, s, a)
  {
    assert [a][..0] == [];
  }
}

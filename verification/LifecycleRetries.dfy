/** Retry counts, back-off times and claim order, over every step of the job life cycle. */
module LifecycleRetries {
  import opened Wrappers
  import opened JobQueue
  import opened Lifecycle
  import opened LifecycleInvariants

  /** A job that waits for its next attempt: its count is the number of claims so far, within the limit. */
  ghost predicate WaitsInLimit(c: Config, log: seq<Event>, j: Job) {
    j.retryCount <= c.maxRetry && Claims(log, j.id) == j.retryCount
  }

  ghost predicate RunsInLimit(c: Config, log: seq<Event>, j: Job) {
    j.retryCount <= c.maxRetry && Claims(log, j.id) == j.retryCount + 1
  }

  /** Dead-lettered at the limit, or before it on a permanent failure. */
  ghost predicate DiedInLimit(c: Config, s: Sys, j: Job) {
    RunsInLimit(c, s.h.log, j) && (j.retryCount == c.maxRetry || j.id in s.h.permanent)
  }

  ghost predicate ClaimsInLimit(c: Config, s: Sys, id: JobId) {
    Claims(s.h.log, id) <= c.maxRetry + 1 && (id !in s.h.known ==> Claims(s.h.log, id) == 0)
  }

  ghost predicate Retries(c: Config, s: Sys) {
    && (forall j :: j in s.q.pending ==> WaitsInLimit(c, s.h.log, j))
    && (forall d :: d in s.q.delayed ==> WaitsInLimit(c, s.h.log, d.job))
    && (forall id :: id in s.q.claimed ==> s.q.claimed[id].id == id && RunsInLimit(c, s.h.log, s.q.claimed[id]))
    && (forall d :: d in s.q.dead ==> DiedInLimit(c, s, d.job))
    && (forall id :: ClaimsInLimit(c, s, id))
  }

  /** The end of the back-off before retry `retry` of a job that failed at `failed`, in nanoseconds. */
  function BackoffEnd(c: Config, failed: Instant, retry: nat): Instant
    requires retry >= 1
  {
    failed + Min(c.backoffMs * Pow2(retry - 1), U64_MAX) * 1_000_000
  }

  /** The back-off of the failure that `j` retries is over at `at`. */
  ghost predicate DueBy(c: Config, s: Sys, j: Job, at: Instant) {
    j.retryCount >= 1 && j.id in s.h.failedAt && BackoffEnd(c, s.h.failedAt[j.id], j.retryCount) <= at
  }

  /** It ends just then. */
  ghost predicate DueAt(c: Config, s: Sys, j: Job, at: Instant) {
    j.retryCount >= 1 && j.id in s.h.failedAt && BackoffEnd(c, s.h.failedAt[j.id], j.retryCount) == at
  }

  /** A job that failed waits for its back-off, counted from the moment `fail` ran. */
  ghost predicate Delays(c: Config, s: Sys) {
    && (forall d :: d in s.q.delayed ==> DueAt(c, s, d.job, d.availableAt))
    && (forall j :: j in s.q.pending && j.retryCount >= 1 ==> DueBy(c, s, j, s.now))
  }

  /** The entries of a line that were not dropped, in order. */
  ghost function Kept(line: seq<Job>, dropped: set<Job>): seq<Job> {
    if line == [] then []
    else
      var front, last := Kept(line[..|line| - 1], dropped), line[|line| - 1];
      if last in dropped then front else front + [last]
  }

  /** What was handed out, followed by what waits, is the line of entries without the dropped ones. */
  ghost predicate InOrder(s: Sys) {
    && s.h.handed + s.q.pending == Kept(s.h.line, s.h.dropped)
    && (forall j :: j in s.h.dropped ==> j.id in s.h.cancelled)
    && (forall j :: j in s.h.handed ==> Claims(s.h.log, j.id) > j.retryCount)
  }

  lemma {:induction false} KeptGrows(line: seq<Job>, more: seq<Job>, dropped: set<Job>)
    requires forall j :: j in more ==> j !in dropped
    ensures Kept(line + more, dropped) == Kept(line, dropped) + more
  {
    if more == [] {
      assert line + more == line;
    } else {
      var front, last := more[..|more| - 1], more[|more| - 1];
      KeptGrows(line, front, dropped);
      assert (line + more)[..|line + more| - 1] == line + front;
    }
  }

  lemma {:induction false} KeptTwice(line: seq<Job>, dropped: set<Job>, j: Job)
    ensures Kept(line, dropped + {j}) == Kept(Kept(line, dropped), {j})
  {
    if line != [] {
      var front, last := line[..|line| - 1], line[|line| - 1];
      KeptTwice(front, dropped, j);
      if last !in dropped {
        assert (Kept(front, dropped) + [last])[..|Kept(front, dropped)|] == Kept(front, dropped);
      }
    }
  }

  lemma KeptAll(line: seq<Job>, j: Job)
    requires j !in line
    ensures Kept(line, {j}) == line
  {
    KeptGrows([], line, {j});
    assert [] + line == line;
  }

  lemma KeptAround(a: seq<Job>, j: Job, b: seq<Job>)
    requires j !in a && j !in b
    ensures Kept(a + [j] + b, {j}) == a + b
  {
    KeptAll(a, j);
    assert (a + [j])[..|a|] == a;
    KeptGrows(a + [j], b, {j});
  }

  /** A job that is in the line once leaves its place, and the rest stays. */
  lemma KeptWithout(a: seq<Job>, b: seq<Job>, k: nat)
    requires k < |b| && b[k] !in a && b[k] !in Without(b, k)
    ensures Kept(a + b, {b[k]}) == a + Without(b, k)
  {
    var front, back := b[..k], b[k + 1..];
    assert b == front + [b[k]] + back;
    assert Without(b, k) == front + back;
    hide Without;
    assert forall x :: x in front || x in back ==> x in front + back;
    KeptAround(a + front, b[k], back);
    assert a + b == a + front + [b[k]] + back;
    assert a + (front + back) == a + front + back;
  }

  lemma {:induction false} KeptIsNotDropped(line: seq<Job>, dropped: set<Job>)
    ensures forall j :: j in Kept(line, dropped) <==> j in line && j !in dropped
  {
    if line != [] {
      KeptIsNotDropped(line[..|line| - 1], dropped);
      assert line == line[..|line| - 1] + [line[|line| - 1]];
    }
  }

  ghost predicate Timing(c: Config, s: Sys) {
    Retries(c, s) && Delays(c, s) && InOrder(s)
  }

  /** An id that occurs once in the census and is at the front of `pending` is nowhere else. */
  lemma FirstIsAlone(p: Queue)
    requires Distinct(Census(p)) && p.pending != []
    ensures var id := p.pending[0].id;
      && (forall j :: j in p.pending[1..] ==> j.id != id)
      && (forall d :: d in p.delayed ==> d.job.id != id)
      && (forall d :: d in p.dead ==> d.job.id != id)
      && id !in p.claimed
  {
    var id, rest := p.pending[0].id, p.pending[1..];
    var ids, others := multiset(IdsOf(rest)), multiset(IdsOf(JobsOf(p.delayed)));
    var dead := multiset(IdsOf(DeadJobs(p.dead)));
    assert multiset(IdsOf(p.pending)) == ids + multiset{id} by {
      IdsOfRemove(p.pending, 0);
      assert Without(p.pending, 0) == rest;
    }
    assert Census(p)[id] <= 1;
    assert ids[id] == 0 && others[id] == 0 && dead[id] == 0 && multiset(p.claimed.Keys)[id] == 0;
    hide Census;
    IdsOfMember(rest, id);
    DelayedMember(p.delayed, id);
    DeadMember(p.dead, id);
  }

  lemma DelayedMember(ds: seq<DelayedJob>, id: JobId)
    ensures id in multiset(IdsOf(JobsOf(ds))) <==> exists d :: d in ds && d.job.id == id
  {
    IdsOfMember(JobsOf(ds), id);
    forall d | d in ds ensures d.job in JobsOf(ds) {
      var k :| 0 <= k < |ds| && ds[k] == d;
      assert JobsOf(ds)[k] == d.job;
    }
    forall j | j in JobsOf(ds) ensures exists d :: d in ds && d.job == j {
      var k :| 0 <= k < |ds| && JobsOf(ds)[k] == j;
      assert ds[k] in ds;
    }
  }

  lemma DeadMember(ds: seq<DeadLetterJob>, id: JobId)
    ensures id in multiset(IdsOf(DeadJobs(ds))) <==> exists d :: d in ds && d.job.id == id
  {
    IdsOfMember(DeadJobs(ds), id);
    forall d | d in ds ensures d.job in DeadJobs(ds) {
      var k :| 0 <= k < |ds| && ds[k] == d;
      assert DeadJobs(ds)[k] == d.job;
    }
    forall j | j in DeadJobs(ds) ensures exists d :: d in ds && d.job == j {
      var k :| 0 <= k < |ds| && DeadJobs(ds)[k] == j;
      assert ds[k] in ds;
    }
  }

  /** A claimed id belongs to no pending, delayed or dead job. */
  lemma ClaimedIsAlone(s: Sys, id: JobId)
    requires Places(s) && id in s.q.claimed
    ensures forall j :: j in s.q.pending ==> j.id != id
    ensures forall d :: d in s.q.delayed ==> d.job.id != id
    ensures forall d :: d in s.q.dead ==> d.job.id != id
  {
    ClaimedIsOnlyClaimed(s, id);
    IdsOfMember(s.q.pending, id);
    DelayedMember(s.q.delayed, id);
    DeadMember(s.q.dead, id);
  }

  /** Every job of the queue is known. */
  lemma InQueueIsKnown(s: Sys)
    requires Places(s)
    ensures forall j :: j in s.q.pending ==> j.id in s.h.known
    ensures forall d :: d in s.q.delayed ==> d.job.id in s.h.known
    ensures s.q.claimed.Keys <= s.h.known
  {
    forall j | j in s.q.pending ensures j.id in s.h.known {
      IdsOfMember(s.q.pending, j.id);
      assert j.id in Census(s.q);
      assert j.id in multiset(s.h.known);
    }
    forall d | d in s.q.delayed ensures d.job.id in s.h.known {
      DelayedMember(s.q.delayed, d.job.id);
      assert d.job.id in Census(s.q);
      assert d.job.id in multiset(s.h.known);
    }
    forall id | id in s.q.claimed ensures id in s.h.known {
      ClaimedIsOnlyClaimed(s, id);
    }
  }

  /** The state right after the promotion inside a claim or a cancel. */
  ghost function Promoted(s: Sys): Sys {
    s.(q := Promote(s.q, s.now), h := s.h.(line := s.h.line + JobsOf(Ready(s.q.delayed, s.now))))
  }

  /** Where the jobs of a promoted queue come from. */
  lemma PromotedJobs(s: Sys)
    ensures forall j :: j in Promoted(s).q.pending ==>
              j in s.q.pending || exists d :: d in s.q.delayed && d.availableAt <= s.now && d.job == j
    ensures forall d :: d in Promoted(s).q.delayed ==> d in s.q.delayed
  {
    var ready := Ready(s.q.delayed, s.now);
    PromotionSplits(s.q.delayed, s.now);
    forall j | j in JobsOf(ready) ensures exists d :: d in s.q.delayed && d.availableAt <= s.now && d.job == j {
      var k :| 0 <= k < |ready| && JobsOf(ready)[k] == j;
      assert ready[k] in ready;
    }
  }

  /** No job that waits has a cancelled id. */
  lemma WaitingIsNotCancelled(s: Sys)
    requires Places(s)
    ensures forall j :: j in s.q.pending ==> j.id !in s.h.cancelled
    ensures forall d :: d in s.q.delayed ==> d.job.id !in s.h.cancelled
  {
    forall j | j in s.q.pending ensures j.id !in s.h.cancelled {
      IdsOfMember(s.q.pending, j.id);
      assert j.id in Census(s.q) && multiset(s.h.known)[j.id] <= 1;
    }
    forall d | d in s.q.delayed ensures d.job.id !in s.h.cancelled {
      DelayedMember(s.q.delayed, d.job.id);
      assert d.job.id in Census(s.q) && multiset(s.h.known)[d.job.id] <= 1;
    }
  }

  lemma PromotedAreNotDropped(s: Sys)
    requires forall j :: j in s.h.dropped ==> j.id in s.h.cancelled
    requires forall d :: d in s.q.delayed ==> d.job.id !in s.h.cancelled
    ensures forall j :: j in JobsOf(Ready(s.q.delayed, s.now)) ==> j !in s.h.dropped
  {
    var ready := Ready(s.q.delayed, s.now);
    PromotionSplits(s.q.delayed, s.now);
    hide Ready;
    forall j | j in JobsOf(ready) ensures j !in s.h.dropped {
      var k :| 0 <= k < |ready| && JobsOf(ready)[k] == j;
      assert ready[k] in ready;
    }
  }

  lemma PromotionKeepsOrder(s: Sys)
    requires InOrder(s) && Places(s)
    ensures InOrder(Promoted(s))
  {
    WaitingIsNotCancelled(s);
    PromotedAreNotDropped(s);
    hide Places, Ready, Kept;
    var promoted := JobsOf(Ready(s.q.delayed, s.now));
    hide JobsOf;
    KeptGrows(s.h.line, promoted, s.h.dropped);
    assert s.h.handed + (s.q.pending + promoted) == s.h.handed + s.q.pending + promoted;
  }

  lemma PromotionKeepsRetries(c: Config, s: Sys, s': Sys)
    requires Retries(c, s) && s'.h.log == s.h.log && s'.h.known == s.h.known && s'.h.permanent == s.h.permanent
    requires s'.q.claimed == s.q.claimed && s'.q.dead == s.q.dead
    requires forall j :: j in s'.q.pending ==> j in s.q.pending || exists d :: d in s.q.delayed && d.job == j
    requires forall d :: d in s'.q.delayed ==> d in s.q.delayed
    ensures Retries(c, s')
  {
    hide WaitsInLimit, RunsInLimit;
    forall id ensures ClaimsInLimit(c, s', id) {
      assert ClaimsInLimit(c, s, id);
    }
  }

  lemma PromotionKeepsDelays(c: Config, s: Sys, s': Sys)
    requires Delays(c, s) && s'.h.failedAt == s.h.failedAt && s'.now == s.now
    requires forall j :: j in s'.q.pending ==>
               j in s.q.pending || exists d :: d in s.q.delayed && d.availableAt <= s.now && d.job == j
    requires forall d :: d in s'.q.delayed ==> d in s.q.delayed
    ensures Delays(c, s')
  {
    hide BackoffEnd;
  }

  lemma PromotionKeepsTiming(c: Config, s: Sys)
    requires Timing(c, s) && Places(s)
    ensures Timing(c, Promoted(s))
  {
    PromotionKeepsOrder(s);
    hide Places, InOrder, Retries, Delays, Ready, Waiting, JobsOf;
    PromotedJobs(s);
    PromotionKeepsRetries(c, s, Promoted(s));
    PromotionKeepsDelays(c, s, Promoted(s));
  }

  lemma PromotionKeepsPlaces(s: Sys)
    requires Places(s)
    ensures Places(Promoted(s))
  {
    PromoteConserves(s.q, s.now);
  }

  lemma TakingKeepsRetries(c: Config, p: Sys, s': Sys)
    requires Retries(c, p) && Places(p) && p.q.pending != []
    requires s'.q == TakeFirst(p.q) && s'.h.log == p.h.log + [JobClaimed(p.q.pending[0].id)]
    requires s'.h.known == p.h.known && s'.h.permanent == p.h.permanent
    ensures Retries(c, s')
  {
    assert Distinct(Census(p.q)) by { PlacesAreDistinct(p); }
    FirstIsAlone(p.q);
    InQueueIsKnown(p);
    hide Places;
    var job := p.q.pending[0];
    forall id ensures Claims(s'.h.log, id) == Claims(p.h.log, id) + if id == job.id then 1 else 0 {
    }
    assert job in p.q.pending;
    assert WaitsInLimit(c, p.h.log, job);
    assert forall j :: j in s'.q.pending ==> j in p.q.pending;
    forall id ensures ClaimsInLimit(c, s', id) { assert ClaimsInLimit(c, p, id); }
  }

  lemma TakingKeepsOrder(c: Config, p: Sys, s': Sys)
    requires Delays(c, p) && InOrder(p) && p.q.pending != [] && WaitsInLimit(c, p.h.log, p.q.pending[0])
    requires s'.q == TakeFirst(p.q) && s'.now == p.now && s'.h.failedAt == p.h.failedAt && s'.h.line == p.h.line
    requires s'.h.handed == p.h.handed + [p.q.pending[0]]
    requires s'.h.dropped == p.h.dropped && s'.h.cancelled == p.h.cancelled
    requires s'.h.log == p.h.log + [JobClaimed(p.q.pending[0].id)]
    ensures Delays(c, s') && InOrder(s')
  {
    hide Kept;
    assert p.q.pending == [p.q.pending[0]] + s'.q.pending;
    assert forall j :: j in s'.q.pending ==> j in p.q.pending;
    assert s'.h.handed + s'.q.pending == p.h.handed + p.q.pending;
    forall id ensures Claims(s'.h.log, id) == Claims(p.h.log, id) + if id == p.q.pending[0].id then 1 else 0 {
    }
  }

  lemma ClaimKeepsTiming(c: Config, s: Sys, w: WorkerId)
    requires Timing(c, s) && Places(s)
    ensures Timing(c, ClaimNext(s, w))
  {
    var p, s' := Promoted(s), ClaimNext(s, w);
    PromotionKeepsPlaces(s);
    PromotionKeepsTiming(c, s);
    hide Places, InOrder, Delays;
    if p.q.pending == [] {
      assert s' == p;
    } else {
      assert p.q.pending[0] in p.q.pending;
      TakingKeepsRetries(c, p, s');
      TakingKeepsOrder(c, p, s');
    }
  }

  /** Taking one waiting job out. */
  lemma DroppingKeepsTiming(c: Config, p: Sys, s': Sys)
    requires Timing(c, p) && s'.now == p.now
    requires s'.h == p.h.(cancelled := s'.h.cancelled, dropped := s'.h.dropped)
    requires s'.q == p.q.(pending := s'.q.pending, delayed := s'.q.delayed)
    requires forall j :: j in s'.q.pending ==> j in p.q.pending
    requires forall d :: d in s'.q.delayed ==> d in p.q.delayed
    requires InOrder(s')
    ensures Timing(c, s')
  {
    hide InOrder;
    assert s'.h.log == p.h.log;
    forall i ensures ClaimsInLimit(c, s', i) { assert ClaimsInLimit(c, p, i); }
  }

  lemma CancelDrops(s: Sys, a: ActorId, id: JobId, user: string)
    ensures var p, s' := Promoted(s), StartCancelStep(s, a, id, user);
      && s'.now == p.now && s'.h == p.h.(cancelled := s'.h.cancelled, dropped := s'.h.dropped)
      && s'.q == p.q.(pending := s'.q.pending, delayed := s'.q.delayed)
      && (forall j :: j in s'.q.pending ==> j in p.q.pending)
      && (forall d :: d in s'.q.delayed ==> d in p.q.delayed)
  {
    hide Ready, Waiting;
  }

  /** A waiting job is pending once, or delayed and not pending. */
  lemma WaitsOnce(p: Queue, id: JobId)
    requires Distinct(Census(p))
    ensures match IndexOf(p.pending, id)
      case Some(k) => forall j :: j in Without(p.pending, k) ==> j.id != id
      case None => forall j :: j in p.pending ==> j.id != id
  {
    match IndexOf(p.pending, id)
    case Some(k) =>
      IdsOfRemove(p.pending, k);
      IdsOfMember(Without(p.pending, k), id);
      assert Census(p)[id] <= 1;
    case None =>
  }

  /** A job that waits for its count has not been handed out with it. */
  lemma WaitingWasNotHanded(c: Config, s: Sys, j: Job)
    requires Timing(c, s) && (j in s.q.pending || exists d :: d in s.q.delayed && d.job == j)
    ensures j !in s.h.handed
  {
    hide Kept, Delays;
    assert WaitsInLimit(c, s.h.log, j);
  }

  lemma DroppingKeepsOrder(c: Config, p: Sys, s': Sys, job: Job)
    requires Timing(c, p) && Places(p)
    requires s'.h == p.h.(cancelled := p.h.cancelled + {job.id}, dropped := p.h.dropped + {job})
    requires match IndexOf(p.q.pending, job.id)
      case Some(k) => job == p.q.pending[k] && s'.q.pending == Without(p.q.pending, k)
      case None => s'.q.pending == p.q.pending && exists d :: d in p.q.delayed && d.job == job
    ensures InOrder(s')
  {
    assert Distinct(Census(p.q)) by { PlacesAreDistinct(p); }
    WaitsOnce(p.q, job.id);
    hide Places;
    KeptTwice(p.h.line, p.h.dropped, job);
    WaitingWasNotHanded(c, p, job);
    match IndexOf(p.q.pending, job.id) {
      case Some(k) =>
        KeptWithout(p.h.handed, p.q.pending, k);
      case None =>
        KeptAll(p.h.handed + p.q.pending, job);
    }
    hide Kept, Retries, Delays;
  }

  /** What a cancel that finds a waiting job does. */
  lemma CancelFinds(s: Sys, a: ActorId, id: JobId, user: string)
    ensures var p, s', r := Promoted(s), StartCancelStep(s, a, id, user), Cancel(s.q, id, s.now).1;
      && (!r.Cancelled? ==> s'.q == p.q && s'.h == p.h && s'.now == p.now)
      && (r.Cancelled? ==>
            && r.job.id == id
            && s'.h == p.h.(cancelled := p.h.cancelled + {id}, dropped := p.h.dropped + {r.job})
            && match IndexOf(p.q.pending, id)
               case Some(k) => r.job == p.q.pending[k] && s'.q.pending == Without(p.q.pending, k)
               case None => s'.q.pending == p.q.pending && exists d :: d in p.q.delayed && d.job == r.job)
  {
    hide Ready, Waiting, Census;
    var p := Promoted(s);
    if IndexOf(p.q.pending, id).None? && IndexOf(JobsOf(p.q.delayed), id).Some? {
      assert p.q.delayed[IndexOf(JobsOf(p.q.delayed), id).value] in p.q.delayed;
    }
  }

  lemma CancelKeepsTiming(c: Config, s: Sys, a: ActorId, id: JobId, user: string)
    requires Timing(c, s) && Places(s)
    ensures Timing(c, StartCancelStep(s, a, id, user))
  {
    PromotionKeepsTiming(c, s);
    PromotionKeepsPlaces(s);
    assert InOrder(Promoted(s)) && Timing(c, Promoted(s));
    CancelFinds(s, a, id, user);
    CancelDrops(s, a, id, user);
    hide Timing, InOrder, StartCancelStep, Promoted, Places, Cancel;
    var p, s', r := Promoted(s), StartCancelStep(s, a, id, user), Cancel(s.q, id, s.now).1;
    if r.Cancelled? {
      DroppingKeepsOrder(c, p, s', r.job);
    } else {
      SameOrder(p, s');
    }
    DroppingKeepsTiming(c, p, s');
  }

  lemma SameOrder(s: Sys, s': Sys)
    requires InOrder(s) && s'.q == s.q && s'.h == s.h
    ensures InOrder(s')
  {
  }

  lemma EnqueueKeepsOrder(s: Sys, id: JobId, payload: string)
    requires InOrder(s) && Places(s)
    ensures InOrder(EnqueueStep(s, id, payload))
  {
    CancelledIsKnown(s);
    hide Places;
    if id !in s.h.known {
      var job := Job(id, 0, payload);
      KeptGrows(s.h.line, [job], s.h.dropped);
      assert s.h.handed + (s.q.pending + [job]) == s.h.handed + s.q.pending + [job];
    }
    hide Kept;
  }

  lemma EnqueueKeepsLimits(c: Config, s: Sys, id: JobId, payload: string)
    requires Retries(c, s) && Delays(c, s)
    ensures Retries(c, EnqueueStep(s, id, payload)) && Delays(c, EnqueueStep(s, id, payload))
  {
    var s' := EnqueueStep(s, id, payload);
    assert s'.h.log == s.h.log;
    assert ClaimsInLimit(c, s, id);
    forall i ensures ClaimsInLimit(c, s', i) { assert ClaimsInLimit(c, s, i); }
  }

  lemma EnqueueKeepsTiming(c: Config, s: Sys, id: JobId, payload: string)
    requires Timing(c, s) && Places(s)
    ensures Timing(c, EnqueueStep(s, id, payload))
  {
    hide Places, InOrder, Retries, Delays, EnqueueStep;
    EnqueueKeepsOrder(s, id, payload);
    EnqueueKeepsLimits(c, s, id, payload);
  }

  lemma CancelledIsKnown(s: Sys)
    requires Places(s)
    ensures s.h.cancelled <= s.h.known
  {
    forall id | id in s.h.cancelled ensures id in s.h.known {
      assert multiset(s.h.cancelled)[id] == 1;
      assert id in multiset(s.h.known);
    }
  }

  lemma FailKeepsRetries(c: Config, s: Sys, w: WorkerId, job: Job, permanent: bool)
    requires Retries(c, s) && job.id in s.q.claimed && s.q.claimed[job.id] == job
    ensures Retries(c, FailJob(c, s, w, job, permanent))
  {
    var s' := FailJob(c, s, w, job, permanent);
    assert s'.h.log == s.h.log;
    assert RunsInLimit(c, s.h.log, job);
    forall i ensures ClaimsInLimit(c, s', i) { assert ClaimsInLimit(c, s, i); }
  }

  /** What a failure changes, as far as delays and order go. */
  lemma FailDelays(c: Config, s: Sys, w: WorkerId, job: Job, permanent: bool)
    requires job.id in s.q.claimed && s.q.claimed[job.id] == job
    ensures var s' := FailJob(c, s, w, job, permanent);
      && s'.q.pending == s.q.pending && s'.now == s.now && s'.h.failedAt == s.h.failedAt[job.id := s.now]
      && s'.h == s.h.(holder := s'.h.holder, failedAt := s'.h.failedAt, permanent := s'.h.permanent)
      && (s'.q.delayed == s.q.delayed
          || (job.retryCount < U32_MAX
              && var retried := job.(retryCount := job.retryCount + 1);
                 s'.q.delayed
                 == s.q.delayed + [DelayedJob(retried, AvailableAt(s.now, c.backoffMs, retried.retryCount))]))
  {
    hide AvailableAt;
  }

  lemma FailKeepsDelays(c: Config, s: Sys, w: WorkerId, job: Job, permanent: bool)
    requires Delays(c, s) && InOrder(s)
    requires forall j :: j in s.q.pending ==> j.id != job.id
    requires forall d :: d in s.q.delayed ==> d.job.id != job.id
    requires job.id in s.q.claimed && s.q.claimed[job.id] == job
    ensures Delays(c, FailJob(c, s, w, job, permanent)) && InOrder(FailJob(c, s, w, job, permanent))
  {
    FailDelays(c, s, w, job, permanent);
    if job.retryCount < U32_MAX {
      AvailableAfterBackoff(s.now, c.backoffMs, job.retryCount + 1);
    }
    hide FailJob, AvailableAt, Kept, Pow2;
    var s' := FailJob(c, s, w, job, permanent);
    assert InOrder(s');
    hide InOrder;
    forall d | d in s'.q.delayed ensures DueAt(c, s', d.job, d.availableAt) {
      assert d in s.q.delayed ==> DueAt(c, s, d.job, d.availableAt);
    }
    forall j | j in s'.q.pending && j.retryCount >= 1 ensures DueBy(c, s', j, s'.now) {
      assert DueBy(c, s, j, s.now);
    }
  }

  lemma FailKeepsTiming(c: Config, s: Sys, w: WorkerId, job: Job, permanent: bool)
    requires Timing(c, s) && Places(s) && job.id in s.q.claimed && s.q.claimed[job.id] == job
    ensures Timing(c, FailJob(c, s, w, job, permanent))
  {
    ClaimedIsAlone(s, job.id);
    hide Places, Retries, Delays, InOrder;
    FailKeepsRetries(c, s, w, job, permanent);
    FailKeepsDelays(c, s, w, job, permanent);
  }

  lemma QuietKeepsTiming(c: Config, s: Sys, s': Sys, said: seq<Event>)
    requires Timing(c, s) && s'.q == s.q && s'.now == s.now && s'.h == s.h.(log := s.h.log + said)
    requires forall e :: e in said ==> !e.JobClaimed?
    ensures Timing(c, s')
  {
    forall id ensures Claims(s'.h.log, id) == Claims(s.h.log, id) && ClaimsInLimit(c, s', id) {
      assert JobClaimed(id) !in said;
      assert multiset(said)[JobClaimed(id)] == 0;
      assert ClaimsInLimit(c, s, id);
    }
  }

  lemma CompleteKeepsTiming(c: Config, s: Sys, w: WorkerId, job: Job, ending: Ending)
    requires Timing(c, s)
    ensures Timing(c, CompleteJob(s, w, job, ending))
  {
    var s' := CompleteJob(s, w, job, ending);
    assert s'.h.log == s.h.log;
    forall i ensures ClaimsInLimit(c, s', i) { assert ClaimsInLimit(c, s, i); }
  }

  lemma StepKeepsTiming(c: Config, s: Sys, a: Action)
    requires Timing(c, s) && Places(s) && Holders(s)
    ensures Timing(c, Step(c, s, a))
  {
    hide Places, Timing;
    match a {
      case EnqueueJob(id, payload) => EnqueueKeepsTiming(c, s, id, payload);
      case StartCancel(actor, id, user) => CancelKeepsTiming(c, s, actor, id, user);
      case Work(w, env) => WorkKeepsTiming(c, s, w, env);
      case Advance(nanos) => AdvanceKeepsTiming(c, s, nanos);
      case ContinueCancel(actor, at) => ContinueKeepsTiming(c, s, actor, at);
    }
  }

  lemma AdvanceKeepsTiming(c: Config, s: Sys, nanos: nat)
    requires Timing(c, s)
    ensures Timing(c, s.(now := s.now + nanos))
  {
    var s' := s.(now := s.now + nanos);
    forall i ensures ClaimsInLimit(c, s', i) { assert ClaimsInLimit(c, s, i); }
  }

  lemma ContinueSays(c: Config, s: Sys, actor: ActorId, at: string) returns (said: seq<Event>)
    ensures var s' := Step(c, s, ContinueCancel(actor, at));
      && s'.q == s.q && s'.now == s.now && s'.h == s.h.(log := s.h.log + said)
      && forall e :: e in said ==> !e.JobClaimed?
  {
    hide Registry.RequestCancel;
    var s' := Step(c, s, ContinueCancel(actor, at));
    said := s'.h.log[|s.h.log|..];
    assert s'.h.log == s.h.log + said;
  }

  lemma ContinueKeepsTiming(c: Config, s: Sys, actor: ActorId, at: string)
    requires Timing(c, s)
    ensures Timing(c, Step(c, s, ContinueCancel(actor, at)))
  {
    var s' := Step(c, s, ContinueCancel(actor, at));
    var said := ContinueSays(c, s, actor, at);
    hide Step, Timing;
    QuietKeepsTiming(c, s, s', said);
  }

  lemma WorkKeepsTiming(c: Config, s: Sys, w: WorkerId, env: Env)
    requires Timing(c, s) && Places(s) && Holders(s)
    ensures Timing(c, WorkStep(c, s, w, env))
  {
    hide Places, Timing;
    if Quiet(PhaseOf(s, w)) {
      QuietFrame(c, s, w, env);
      QuietKeepsTiming(c, s, WorkStep(c, s, w, env), Said(PhaseOf(s, w), env));
    } else if PhaseOf(s, w).Idle? {
      ClaimKeepsTiming(c, s, w);
    } else {
      HeldIsStored(s, w);
      match PhaseOf(s, w) {
        case Failing(job, permanent) => FailKeepsTiming(c, s, w, job, permanent);
        case Completing(job, ending) => CompleteKeepsTiming(c, s, w, job, ending);
      }
    }
  }
}

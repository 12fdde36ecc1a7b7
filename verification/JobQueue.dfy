/**
 The in-memory job queue (crates/adapters/src/queue/in_memory_job_queue.rs): its state as a value, each
 mutex-guarded operation as a function on that value, and the class that carries the operations out in place.
 */
module JobQueue {
  import opened Wrappers

  type JobId = string

  /** Nanoseconds of the monotonic clock. */
  type Instant = nat

  const NANOS_PER_MILLI: nat := 1_000_000

  datatype Job = Job(id: JobId, retryCount: u32, payload: string)

  datatype DelayedJob = DelayedJob(job: Job, availableAt: Instant)

  datatype DeadLetterJob = DeadLetterJob(job: Job, reason: string, failedAt: Instant)

  datatype Queue = Queue(
    pending: seq<Job>,
    delayed: seq<DelayedJob>,
    claimed: map<JobId, Job>,
    dead: seq<DeadLetterJob>)

  datatype CancelResult = Cancelled(job: Job) | AlreadyClaimed | NotFound

  datatype FailInput = FailInput(jobId: JobId, reason: string, maxRetry: u32, backoffMs: u64)

  datatype FailResult = Requeued(job: Job) | DeadLettered(job: Job) | ClaimedJobNotFound

  const EMPTY := Queue([], [], map[], [])

  // ----- Backoff

  function SaturatingMul(a: u64, b: u64): u64 {
    if a * b > U64_MAX then U64_MAX else a * b
  }

  function SaturatingPow(base: u64, exponent: nat): u64 {
    if exponent == 0 then 1 else SaturatingMul(base, SaturatingPow(base, exponent - 1))
  }

  function ComputeBackoffMs(backoffMs: u64, retryCount: u32): u64 {
    SaturatingMul(backoffMs, SaturatingPow(2, if retryCount == 0 then 0 else retryCount - 1))
  }

  function Pow2(n: nat): nat {
    if n == 0 then 1 else 2 * Pow2(n - 1)
  }

  lemma {:induction false} SaturatingPowIsCapped(n: nat)
    ensures SaturatingPow(2, n) == Min(Pow2(n), U64_MAX)
    ensures Pow2(n) >= 1
  {
    if n > 0 {
      SaturatingPowIsCapped(n - 1);
    }
  }

  /** The two saturating operations together compute the doubled delay, capped once at the end. */
  lemma BackoffIsCappedDoubling(backoffMs: u64, retryCount: u32)
    requires retryCount >= 1
    ensures ComputeBackoffMs(backoffMs, retryCount) == Min(backoffMs * Pow2(retryCount - 1), U64_MAX)
  {
    var n := retryCount - 1;
    SaturatingPowIsCapped(n);
    if backoffMs >= 1 && Pow2(n) > U64_MAX {
      assert backoffMs * Pow2(n) >= 1 * Pow2(n);
      assert backoffMs * U64_MAX >= 1 * U64_MAX;
    }
  }

  function AvailableAt(now: Instant, backoffMs: u64, retryCount: u32): Instant {
    now + ComputeBackoffMs(backoffMs, retryCount) * NANOS_PER_MILLI
  }

  /** A requeued job is available when its delay is over, counted in milliseconds. */
  lemma AvailableAfterBackoff(now: Instant, backoffMs: u64, retryCount: u32)
    requires retryCount >= 1
    ensures AvailableAt(now, backoffMs, retryCount)
      == now + Min(backoffMs * Pow2(retryCount - 1), U64_MAX) * 1_000_000
  {
    BackoffIsCappedDoubling(backoffMs, retryCount);
  }

  // ----- Operations on the value

  /** The jobs of the delayed entries, in order. */
  function JobsOf(ds: seq<DelayedJob>): seq<Job> {
    seq(|ds|, i requires 0 <= i < |ds| => ds[i].job)
  }

  function DeadJobs(ds: seq<DeadLetterJob>): seq<Job> {
    seq(|ds|, i requires 0 <= i < |ds| => ds[i].job)
  }

  function IdsOf(js: seq<Job>): seq<JobId> {
    seq(|js|, i requires 0 <= i < |js| => js[i].id)
  }

  /** The entries whose delay is over, in order. */
  function Ready(ds: seq<DelayedJob>, now: Instant): seq<DelayedJob> {
    if ds == [] then []
    else
      var d := ds[|ds| - 1];
      var front := Ready(ds[..|ds| - 1], now);
      if d.availableAt <= now then front + [d] else front
  }

  /** The entries still waiting, in order. */
  function Waiting(ds: seq<DelayedJob>, now: Instant): seq<DelayedJob> {
    if ds == [] then []
    else
      var d := ds[|ds| - 1];
      var front := Waiting(ds[..|ds| - 1], now);
      if d.availableAt <= now then front else front + [d]
  }

  function Promote(q: Queue, now: Instant): Queue {
    q.(pending := q.pending + JobsOf(Ready(q.delayed, now)), delayed := Waiting(q.delayed, now))
  }

  function Enqueue(q: Queue, job: Job): Queue {
    q.(pending := q.pending + [job])
  }

  /** What a claim does after promotion, when a job is pending. */
  function TakeFirst(p: Queue): Queue
    requires p.pending != []
  {
    p.(pending := p.pending[1..], claimed := p.claimed[p.pending[0].id := p.pending[0]])
  }

  function Claim(q: Queue, now: Instant): (Queue, Option<Job>) {
    var p := Promote(q, now);
    if p.pending == [] then (p, None)
    else (TakeFirst(p), Some(p.pending[0]))
  }

  /** `s` without its element at `k`. */
  function Without<T>(s: seq<T>, k: nat): seq<T>
    requires k < |s|
  {
    s[..k] + s[k + 1..]
  }

  function IndexOf(js: seq<Job>, id: JobId): (r: Option<nat>)
    ensures r.Some? ==> r.value < |js| && js[r.value].id == id && forall k :: 0 <= k < r.value ==> js[k].id != id
    ensures r.None? ==> forall k :: 0 <= k < |js| ==> js[k].id != id
  {
    if js == [] then None
    else if js[0].id == id then Some(0)
    else match IndexOf(js[1..], id) case Some(k) => Some(k + 1) case None => None
  }

  function Cancel(q: Queue, id: JobId, now: Instant): (Queue, CancelResult) {
    var p := Promote(q, now);
    match IndexOf(p.pending, id)
    case Some(k) => (p.(pending := Without(p.pending, k)), Cancelled(p.pending[k]))
    case None =>
      match IndexOf(JobsOf(p.delayed), id)
      case Some(k) => (p.(delayed := Without(p.delayed, k)), Cancelled(p.delayed[k].job))
      case None => (p, if id in p.claimed then AlreadyClaimed else NotFound)
  }

  function Complete(q: Queue, id: JobId): Queue {
    q.(claimed := q.claimed - {id})
  }

  function Fail(q: Queue, input: FailInput, now: Instant): (Queue, FailResult) {
    if input.jobId !in q.claimed then (q, ClaimedJobNotFound)
    else
      var job := q.claimed[input.jobId];
      var rest := q.(claimed := q.claimed - {input.jobId});
      if job.retryCount >= input.maxRetry then
        (rest.(dead := rest.dead + [DeadLetterJob(job, input.reason, now)]), DeadLettered(job))
      else
        var retried := job.(retryCount := job.retryCount + 1);
        var entry := DelayedJob(retried, AvailableAt(now, input.backoffMs, retried.retryCount));
        (rest.(delayed := rest.delayed + [entry]), Requeued(retried))
  }

  function Depth(q: Queue): nat {
    |q.pending| + |q.delayed|
  }

  // ----- Where a job is

  /** How often each id occurs in the queue, over all four places. */
  ghost function Census(q: Queue): multiset<JobId> {
    multiset(IdsOf(q.pending)) + multiset(IdsOf(JobsOf(q.delayed))) + multiset(q.claimed.Keys)
    + multiset(IdsOf(DeadJobs(q.dead)))
  }

  /** No id occurs twice. */
  ghost predicate Distinct(ids: multiset<JobId>) {
    forall id :: ids[id] <= 1
  }

  lemma IdsOfAppend(a: seq<Job>, b: seq<Job>)
    ensures IdsOf(a + b) == IdsOf(a) + IdsOf(b)
  {
  }

  lemma IdsOfMember(js: seq<Job>, id: JobId)
    ensures id in multiset(IdsOf(js)) <==> exists j :: j in js && j.id == id
  {
    if id in multiset(IdsOf(js)) {
      assert id in IdsOf(js);
      var k :| 0 <= k < |js| && IdsOf(js)[k] == id;
      assert js[k] in js;
    }
    if exists j :: j in js && j.id == id {
      var j :| j in js && j.id == id;
      var k :| 0 <= k < |js| && js[k] == j;
      assert IdsOf(js)[k] == id;
      assert id in IdsOf(js);
    }
  }

  lemma IdsOfRemove(js: seq<Job>, k: nat)
    requires k < |js|
    ensures multiset(IdsOf(js)) == multiset(IdsOf(Without(js, k))) + multiset{js[k].id}
  {
    assert js == js[..k] + [js[k]] + js[k + 1..];
    IdsOfAppend(js[..k] + [js[k]], js[k + 1..]);
    IdsOfAppend(js[..k], [js[k]]);
    IdsOfAppend(js[..k], js[k + 1..]);
    assert IdsOf([js[k]]) == [js[k].id];
  }

  /** Promotion splits the delayed jobs: every entry goes to exactly one side. */
  lemma {:induction false} PromotionSplits(ds: seq<DelayedJob>, now: Instant)
    ensures multiset(Ready(ds, now)) + multiset(Waiting(ds, now)) == multiset(ds)
    ensures forall d :: d in Ready(ds, now) <==> d in ds && d.availableAt <= now
    ensures forall d :: d in Waiting(ds, now) <==> d in ds && d.availableAt > now
  {
    if ds != [] {
      var front, d := ds[..|ds| - 1], ds[|ds| - 1];
      assert ds == front + [d];
      PromotionSplits(front, now);
    }
  }

  lemma {:induction false} PromotionSplitsIds(ds: seq<DelayedJob>, now: Instant)
    ensures multiset(IdsOf(JobsOf(ds)))
         == multiset(IdsOf(JobsOf(Ready(ds, now)))) + multiset(IdsOf(JobsOf(Waiting(ds, now))))
  {
    if ds != [] {
      var front, d := ds[..|ds| - 1], ds[|ds| - 1];
      assert ds == front + [d];
      PromotionSplitsIds(front, now);
      IdsOfSnoc(front, d);
      IdsOfSnoc(Ready(front, now), d);
      IdsOfSnoc(Waiting(front, now), d);
    }
  }

  lemma IdsOfSnoc(ds: seq<DelayedJob>, d: DelayedJob)
    ensures IdsOf(JobsOf(ds + [d])) == IdsOf(JobsOf(ds)) + [d.job.id]
  {
  }

  /** Stability: two entries on the same side of a promotion keep their relative order. */
  ghost predicate Subsequence(sub: seq<DelayedJob>, whole: seq<DelayedJob>) {
    sub == [] ||
    (whole != [] &&
     (Subsequence(sub, whole[..|whole| - 1]) ||
      (sub[|sub| - 1] == whole[|whole| - 1] && Subsequence(sub[..|sub| - 1], whole[..|whole| - 1]))))
  }

  lemma {:induction false} PromotionIsStable(ds: seq<DelayedJob>, now: Instant)
    ensures Subsequence(Ready(ds, now), ds)
    ensures Subsequence(Waiting(ds, now), ds)
  {
    if ds != [] {
      var front, d := ds[..|ds| - 1], ds[|ds| - 1];
      PromotionIsStable(front, now);
      var r, w := Ready(front, now), Waiting(front, now);
      assert (r + [d])[..|r|] == r && (w + [d])[..|w|] == w;
    }
  }

  lemma PromoteConserves(q: Queue, now: Instant)
    ensures Census(Promote(q, now)) == Census(q)
  {
    PromotionSplitsIds(q.delayed, now);
    IdsOfAppend(q.pending, JobsOf(Ready(q.delayed, now)));
  }

  lemma EnqueueConserves(q: Queue, job: Job)
    ensures Census(Enqueue(q, job)) == Census(q) + multiset{job.id}
  {
    IdsOfAppend(q.pending, [job]);
    assert IdsOf([job]) == [job.id];
  }

  lemma ClaimedIdsGain(m: map<JobId, Job>, job: Job)
    requires job.id !in m
    ensures multiset(m[job.id := job].Keys) == multiset(m.Keys) + multiset{job.id}
  {
    assert m[job.id := job].Keys == m.Keys + {job.id};
  }

  lemma TakeFirstConserves(p: Queue)
    requires p.pending != [] && p.pending[0].id !in p.claimed
    ensures Census(TakeFirst(p)) == Census(p)
  {
    var job, rest := p.pending[0], p.pending[1..];
    IdsOfRemove(p.pending, 0);
    assert Without(p.pending, 0) == rest;
    ClaimedIdsGain(p.claimed, job);
    var other := multiset(IdsOf(JobsOf(p.delayed)));
    var dead := multiset(IdsOf(DeadJobs(p.dead)));
    assert Census(p) == multiset(IdsOf(rest)) + multiset{job.id} + other + multiset(p.claimed.Keys) + dead;
  }

  lemma PendingIsUnclaimed(p: Queue, j: Job)
    requires Distinct(Census(p)) && j in p.pending
    ensures j.id !in p.claimed
  {
    IdsOfMember(p.pending, j.id);
    assert Census(p)[j.id] <= 1;
  }

  /** A claim moves a job, provided no claimed job has the same id (the insert would overwrite it). */
  lemma ClaimConserves(q: Queue, now: Instant)
    requires Distinct(Census(q))
    ensures Census(Claim(q, now).0) == Census(q)
    ensures Claim(q, now).1.Some? ==> Claim(q, now).1.value.id !in q.claimed
  {
    PromoteConserves(q, now);
    var p := Promote(q, now);
    if p.pending != [] {
      PendingIsUnclaimed(p, p.pending[0]);
      TakeFirstConserves(p);
    }
  }

  /** A cancel either takes exactly the named job out or changes no place. */
  lemma CancelConserves(q: Queue, id: JobId, now: Instant)
    ensures var (q', r) := Cancel(q, id, now);
      && (r.Cancelled? ==> r.job.id == id && Census(q) == Census(q') + multiset{id})
      && (!r.Cancelled? ==> Census(q') == Census(q) && q' == Promote(q, now))
      && (r.AlreadyClaimed? ==> id in q.claimed)
      && q'.claimed == q.claimed && q'.dead == q.dead
  {
    PromoteConserves(q, now);
    var p := Promote(q, now);
    match IndexOf(p.pending, id) {
      case Some(k) =>
        IdsOfRemove(p.pending, k);
      case None =>
        match IndexOf(JobsOf(p.delayed), id) {
          case Some(k) =>
            IdsOfRemove(JobsOf(p.delayed), k);
            assert JobsOf(Without(p.delayed, k)) == Without(JobsOf(p.delayed), k);
          case None =>
        }
    }
  }

  lemma CompleteConserves(q: Queue, id: JobId)
    requires id in q.claimed
    ensures Census(q) == Census(Complete(q, id)) + multiset{id}
  {
    assert q.claimed.Keys == (q.claimed - {id}).Keys + {id};
  }

  /** The job a failure names in its result is the one it put back or buried, with the reason, and no other moves. */
  lemma FailTells(q: Queue, input: FailInput, now: Instant)
    ensures var (q', r) := Fail(q, input, now); var rest := q.claimed - {input.jobId};
      match r
      case ClaimedJobNotFound => input.jobId !in q.claimed && q' == q
      case Requeued(job) =>
        && input.jobId in q.claimed && q.claimed[input.jobId].retryCount < input.maxRetry
        && job == q.claimed[input.jobId].(retryCount := job.retryCount)
        && job.retryCount == q.claimed[input.jobId].retryCount + 1
        && |q'.delayed| == |q.delayed| + 1 && q.delayed <= q'.delayed && q'.delayed[|q.delayed|].job == job
        && q' == q.(claimed := rest, delayed := q'.delayed)
      case DeadLettered(job) =>
        && input.jobId in q.claimed && q.claimed[input.jobId].retryCount >= input.maxRetry
        && job == q.claimed[input.jobId]
        && |q'.dead| == |q.dead| + 1 && q.dead <= q'.dead
        && q'.dead[|q.dead|] == DeadLetterJob(job, input.reason, now)
        && q' == q.(claimed := rest, dead := q'.dead)
  {
    hide AvailableAt;
  }

  lemma FailConserves(q: Queue, input: FailInput, now: Instant)
    requires input.jobId in q.claimed ==> q.claimed[input.jobId].id == input.jobId
    ensures Census(Fail(q, input, now).0) == Census(q)
  {
    var id := input.jobId;
    if id in q.claimed {
      CompleteConserves(q, id);
      var job := q.claimed[id];
      var q' := Fail(q, input, now).0;
      if job.retryCount >= input.maxRetry {
        assert DeadJobs(q'.dead) == DeadJobs(q.dead) + [job];
        IdsOfAppend(DeadJobs(q.dead), [job]);
        assert IdsOf([job]) == [id];
      } else {
        var retried := job.(retryCount := job.retryCount + 1);
        assert JobsOf(q'.delayed) == JobsOf(q.delayed) + [retried];
        IdsOfAppend(JobsOf(q.delayed), [retried]);
        assert IdsOf([retried]) == [id];
      }
    }
  }
}

/** The class that carries the operations out on its own fields. */
module InMemoryQueue {
  import opened Wrappers
  import opened JobQueue
  import Spec = JobQueue

  class InMemoryJobQueue {
    var pendingJobs: seq<Job>
    var delayedJobs: seq<DelayedJob>
    var claimedJobs: map<JobId, Job>
    var deadLetterJobs: seq<DeadLetterJob>

    ghost function View(): Queue
      reads this
    {
      Queue(pendingJobs, delayedJobs, claimedJobs, deadLetterJobs)
    }

    constructor ()
      ensures View() == EMPTY
    {
      pendingJobs, delayedJobs, claimedJobs, deadLetterJobs := [], [], map[], [];
    }

    method PromoteReadyDelayedJobs(now: Instant)
      modifies this
      ensures View() == Promote(old(View()), now)
    {
      if delayedJobs == [] {
        return;
      }
      var taken := delayedJobs;
      var remaining: seq<DelayedJob> := [];
      delayedJobs := [];
      for i := 0 to |taken|
        invariant pendingJobs == old(pendingJobs) + JobsOf(Ready(taken[..i], now))
        invariant remaining == Waiting(taken[..i], now)
        invariant claimedJobs == old(claimedJobs) && deadLetterJobs == old(deadLetterJobs)
      {
        assert taken[..i + 1][..i] == taken[..i];
        if taken[i].availableAt <= now {
          pendingJobs := pendingJobs + [taken[i].job];
        } else {
          remaining := remaining + [taken[i]];
        }
      }
      assert taken[..|taken|] == taken;
      delayedJobs := remaining;
    }

    method Enqueue(job: Job)
      modifies this
      ensures View() == Spec.Enqueue(old(View()), job)
    {
      pendingJobs := pendingJobs + [job];
    }

    method Claim(now: Instant) returns (r: Option<Job>)
      modifies this
      ensures (View(), r) == Spec.Claim(old(View()), now)
    {
      PromoteReadyDelayedJobs(now);
      if pendingJobs == [] {
        return None;
      }
      var next := pendingJobs[0];
      pendingJobs := pendingJobs[1..];
      claimedJobs := claimedJobs[next.id := next];
      r := Some(next);
    }

    method Cancel(id: JobId, now: Instant) returns (r: CancelResult)
      modifies this
      ensures (View(), r) == Spec.Cancel(old(View()), id, now)
    {
      PromoteReadyDelayedJobs(now);
      var index := IndexOf(pendingJobs, id);
      if index.Some? {
        r := Cancelled(pendingJobs[index.value]);
        pendingJobs := Without(pendingJobs, index.value);
        return;
      }
      index := IndexOf(JobsOf(delayedJobs), id);
      if index.Some? {
        r := Cancelled(delayedJobs[index.value].job);
        delayedJobs := Without(delayedJobs, index.value);
        return;
      }
      r := if id in claimedJobs then AlreadyClaimed else NotFound;
    }

    method Complete(id: JobId)
      modifies this
      ensures View() == Spec.Complete(old(View()), id)
    {
      claimedJobs := claimedJobs - {id};
    }

    method Fail(input: FailInput, now: Instant) returns (r: FailResult)
      modifies this
      ensures (View(), r) == Spec.Fail(old(View()), input, now)
    {
      if input.jobId !in claimedJobs {
        return ClaimedJobNotFound;
      }
      var job := claimedJobs[input.jobId];
      claimedJobs := claimedJobs - {input.jobId};
      if job.retryCount >= input.maxRetry {
        deadLetterJobs := deadLetterJobs + [DeadLetterJob(job, input.reason, now)];
        return DeadLettered(job);
      }
      var retried := job.(retryCount := job.retryCount + 1);
      delayedJobs := delayedJobs + [DelayedJob(retried, AvailableAt(now, input.backoffMs, retried.retryCount))];
      r := Requeued(retried);
    }

    method GetDepth() returns (depth: nat)
      ensures depth == Depth(View())
    {
      depth := |pendingJobs| + |delayedJobs|;
    }
  }
}

/**
 One attempt as the worker's code runs it (crates/application/src/execution/worker.rs and task.rs), and one cancel
 request (cancel.rs), on the objects of the queue and the registry. Left alone, an attempt is a run of the step system.
 */
module Attempts {
  import opened Wrappers
  import opened JobQueue
  import opened Lifecycle
  import opened LifecycleTheorems
  import Registry = InFlightRegistry

  /** What an attempt changes. */
  datatype World<T(==)> = World(q: Queue, reg: Registry.Registry<T>, log: seq<Event>)

  /** What the task runner and the message ports answer during an attempt. */
  datatype Answers = Answers(run: RunResult, reportAccepted: bool, noticeAccepted: bool)

  datatype RunResult = Succeeded | RunCancelled | RunFailed(permanent: bool)

  /** `execute_task_job`: a report that cannot be posted is a failure that may be retried. */
  datatype Outcome = Done | Stopped | Broken(permanent: bool)

  function OutcomeOf(a: Answers): Outcome {
    match a.run
    case Succeeded => if a.reportAccepted then Done else Broken(false)
    case RunCancelled => Stopped
    case RunFailed(permanent) => Broken(permanent)
  }

  function FinishCompleted<T>(x: World<T>, job: Job): World<T> {
    World(Complete(x.q, job.id), Registry.Remove(x.reg, job.id).0, x.log + [ControlUpdated(job.id, ShowCompleted)])
  }

  function FinishCancelled<T>(x: World<T>, job: Job, hadHandle: bool): World<T> {
    var (reg, info) := Registry.Remove(x.reg, job.id);
    World(Complete(x.q, job.id), reg,
          if info.None? && !hadHandle then x.log else x.log + [ControlUpdated(job.id, ShowCancelled)])
  }

  function FinishFailed<T>(c: Config, x: World<T>, job: Job, permanent: bool, noticeAccepted: bool, now: Instant)
    : World<T>
  {
    var maxRetry := if permanent then job.retryCount else c.maxRetry;
    var (q, r) := Fail(x.q, FailInput(job.id, "", maxRetry, c.backoffMs), now);
    match r
    case ClaimedJobNotFound => x
    case Requeued(_) => World(q, Registry.Remove(x.reg, job.id).0, x.log)
    case DeadLettered(_) =>
      World(q, Registry.Remove(x.reg, job.id).0,
            x.log + [ControlUpdated(job.id, ShowFailed)] + if noticeAccepted then [NoticePosted(job.id)] else [])
  }

  /** The rest of an attempt, by the outcome of its run. */
  function Finish<T>(c: Config, x: World<T>, job: Job, a: Answers, now: Instant): World<T> {
    match OutcomeOf(a)
    case Done => FinishCompleted(x.(log := x.log + [ReportPosted(job.id)]), job)
    case Stopped => FinishCancelled(x, job, false)
    case Broken(permanent) => FinishFailed(c, x, job, permanent, a.noticeAccepted, now)
  }

  /** An attempt from the claim on, with a token that is not cancelled yet. */
  function Attempt<T>(c: Config, x: World<T>, job: Job, token: T, a: Answers, now: Instant): World<T> {
    var (reg, r) := Registry.Attach(x.reg, job.id, token);
    if r.CancelRequested? then FinishCancelled(x.(reg := reg), job, true)
    else Finish(c, World(x.q, reg, x.log + [ControlUpdated(job.id, ShowRunning)]), job, a, now)
  }

  // ----- What an attempt leaves behind

  /** The queue after the job failed for good. */
  function Buried(q: Queue, job: Job, now: Instant): Queue {
    q.(claimed := q.claimed - {job.id}, dead := q.dead + [DeadLetterJob(job, "", now)])
  }

  /** The queue after the job is put back, to be tried once more after a delay. */
  function PutBack(c: Config, q: Queue, job: Job, now: Instant): Queue
    requires job.retryCount < U32_MAX
  {
    var delay := Min(c.backoffMs * Pow2(job.retryCount), U64_MAX) * 1_000_000;
    q.(claimed := q.claimed - {job.id},
       delayed := q.delayed + [DelayedJob(job.(retryCount := job.retryCount + 1), now + delay)])
  }

  /** A cancelled attempt is announced if and only if somebody is known to have asked, or its token is still attached. */
  lemma CancelledIsAnnouncedExactlyWhen<T>(x: World<T>, job: Job, hadHandle: bool)
    ensures var y := FinishCancelled(x, job, hadHandle);
      && y.q == x.q.(claimed := x.q.claimed - {job.id})
      && job.id !in y.reg.requests && job.id !in y.reg.tokens
      && y.log == if hadHandle || job.id in x.reg.requests || job.id in x.reg.tokens
                  then x.log + [ControlUpdated(job.id, ShowCancelled)] else x.log
  {
  }

  /**
   An attempt by its answers: what is said about the job, in order, and where the job goes. The registry has nothing about
   the job afterwards.
   */
  lemma AttemptSays<T>(c: Config, x: World<T>, job: Job, token: T, a: Answers, now: Instant)
    requires job.id in x.q.claimed && x.q.claimed[job.id] == job && job.retryCount <= c.maxRetry
    ensures var y := Attempt(c, x, job, token, a, now);
      && job.id !in y.reg.requests && job.id !in y.reg.tokens
      && if job.id in x.reg.requests then
           y.q == x.q.(claimed := x.q.claimed - {job.id}) && y.log == x.log + [ControlUpdated(job.id, ShowCancelled)]
         else if a.run.Succeeded? && a.reportAccepted then
           && y.q == x.q.(claimed := x.q.claimed - {job.id})
           && y.log == x.log + [ControlUpdated(job.id, ShowRunning), ReportPosted(job.id),
                                ControlUpdated(job.id, ShowCompleted)]
         else if a.run.RunCancelled? then
           && y.q == x.q.(claimed := x.q.claimed - {job.id})
           && y.log == x.log + [ControlUpdated(job.id, ShowRunning), ControlUpdated(job.id, ShowCancelled)]
         else if a.run == RunFailed(true) || job.retryCount == c.maxRetry then
           && y.q == Buried(x.q, job, now)
           && y.log == x.log + [ControlUpdated(job.id, ShowRunning), ControlUpdated(job.id, ShowFailed)]
                       + (if a.noticeAccepted then [NoticePosted(job.id)] else [])
         else
           y.q == PutBack(c, x.q, job, now) && y.log == x.log + [ControlUpdated(job.id, ShowRunning)]
  {
    if job.retryCount < c.maxRetry {
      AvailableAfterBackoff(now, c.backoffMs, job.retryCount + 1);
    }
    hide AvailableAt, Pow2;
  }

  function WorldOf(s: Sys): World<Token> {
    World(s.q, s.reg, s.h.log)
  }

  /** The answers a worker gets on its way through an attempt, one for each of its steps. */
  function EnvOf(run: RunResult): Env {
    match run
    case Succeeded => RunnerSucceeded
    case RunCancelled => RunnerCancelled
    case RunFailed(permanent) => RunnerFailed(permanent)
  }

  // ----- The attempt as a run

  ghost predicate OnlyWork(w: WorkerId, actions: seq<Action>) {
    forall a :: a in actions ==> a.Work? && a.worker == w
  }

  /** One step more at the front. */
  lemma FirstStep(c: Config, s: Sys, w: WorkerId, env: Env, rest: seq<Action>)
    requires OnlyWork(w, rest)
    ensures Exec(c, s, [Work(w, env)] + rest) == Exec(c, WorkStep(c, s, w, env), rest)
    ensures OnlyWork(w, [Work(w, env)] + rest)
  {
    hide WorkStep;
    ExecAppend(c, s, [Work(w, env)], rest);
    ExecOne(c, s, Work(w, env));
  }

  lemma NoSteps(c: Config, s: Sys, w: WorkerId)
    ensures Exec(c, s, []) == s && OnlyWork(w, [])
  {
  }

  /** From the completion of a job on. */
  lemma CompletingRun(c: Config, s: Sys, w: WorkerId, job: Job, ending: Ending) returns (actions: seq<Action>)
    requires PhaseOf(s, w) == Completing(job, ending) && (ending.EndCompleted? || ending.EndCancelled?)
    ensures OnlyWork(w, actions) && PhaseOf(Exec(c, s, actions), w) == Idle
    ensures WorldOf(Exec(c, s, actions)) == if ending.EndCompleted? then FinishCompleted(WorldOf(s), job)
                                            else FinishCancelled(WorldOf(s), job, ending.hadHandle)
  {
    hide Exec, OnlyWork;
    var s1 := WorkStep(c, s, w, Fine);
    assert PhaseOf(s1, w) == Removing(job, ending);
    var s2 := WorkStep(c, s1, w, Fine);
    if PhaseOf(s2, w) == Idle {
      actions := [];
      NoSteps(c, s2, w);
    } else {
      assert PhaseOf(s2, w) == Announcing(job, ending);
      var s3 := WorkStep(c, s2, w, Fine);
      NoSteps(c, s3, w);
      FirstStep(c, s2, w, Fine, []);
      actions := [Work(w, Fine)] + [];
    }
    FirstStep(c, s1, w, Fine, actions);
    actions := [Work(w, Fine)] + actions;
    FirstStep(c, s, w, Fine, actions);
    actions := [Work(w, Fine)] + actions;
  }

  /** From a failure on. */
  lemma FailingRun(c: Config, s: Sys, w: WorkerId, job: Job, permanent: bool, noticeAccepted: bool)
    returns (actions: seq<Action>)
    requires PhaseOf(s, w) == Failing(job, permanent)
    ensures OnlyWork(w, actions) && PhaseOf(Exec(c, s, actions), w) == Idle
    ensures WorldOf(Exec(c, s, actions)) == FinishFailed(c, WorldOf(s), job, permanent, noticeAccepted, s.now)
  {
    hide Exec, OnlyWork, Fail;
    var s1 := WorkStep(c, s, w, Fine);
    var maxRetry := if permanent then job.retryCount else c.maxRetry;
    var (q, r) := Fail(s.q, FailInput(job.id, "", maxRetry, c.backoffMs), s.now);
    match r {
      case ClaimedJobNotFound =>
        actions := [];
        NoSteps(c, s1, w);
      case Requeued(_) =>
        var s2 := WorkStep(c, s1, w, Fine);
        NoSteps(c, s2, w);
        FirstStep(c, s1, w, Fine, []);
        actions := [Work(w, Fine)] + [];
      case DeadLettered(_) =>
        actions := DeadRun(c, s1, w, job, noticeAccepted);
    }
    FirstStep(c, s, w, Fine, actions);
    actions := [Work(w, Fine)] + actions;
  }

  lemma DeadRun(c: Config, s: Sys, w: WorkerId, job: Job, noticeAccepted: bool) returns (actions: seq<Action>)
    requires PhaseOf(s, w) == Removing(job, EndDead)
    ensures OnlyWork(w, actions) && PhaseOf(Exec(c, s, actions), w) == Idle
    ensures WorldOf(Exec(c, s, actions))
      == World(s.q, Registry.Remove(s.reg, job.id).0,
               s.h.log + [ControlUpdated(job.id, ShowFailed)] + if noticeAccepted then [NoticePosted(job.id)] else [])
  {
    hide Exec, OnlyWork;
    var answer := if noticeAccepted then Fine else Refused;
    var s1 := WorkStep(c, s, w, Fine);
    var s2 := WorkStep(c, s1, w, Fine);
    assert PhaseOf(s2, w) == PostingNotice(job);
    var s3 := WorkStep(c, s2, w, answer);
    NoSteps(c, s3, w);
    FirstStep(c, s2, w, answer, []);
    FirstStep(c, s1, w, Fine, [Work(w, answer)] + []);
    FirstStep(c, s, w, Fine, [Work(w, Fine)] + ([Work(w, answer)] + []));
    actions := [Work(w, Fine)] + ([Work(w, Fine)] + ([Work(w, answer)] + []));
  }

  /** From the start of the run on, with a token nobody has cancelled. */
  lemma ExecutingRun(c: Config, s: Sys, w: WorkerId, job: Job, token: Token, a: Answers) returns (actions: seq<Action>)
    requires PhaseOf(s, w) == Executing(job, token) && token !in s.reg.cancelled
    ensures OnlyWork(w, actions) && PhaseOf(Exec(c, s, actions), w) == Idle
    ensures WorldOf(Exec(c, s, actions)) == Finish(c, WorldOf(s), job, a, s.now)
  {
    hide Exec, OnlyWork, FinishCompleted, FinishCancelled, FinishFailed;
    var s1 := WorkStep(c, s, w, EnvOf(a.run));
    assert WorldOf(s1) == WorldOf(s) && s1.now == s.now;
    match a.run {
      case Succeeded =>
        var answer := if a.reportAccepted then Fine else Refused;
        var s2 := WorkStep(c, s1, w, answer);
        if a.reportAccepted {
          actions := CompletingRun(c, s2, w, job, EndCompleted);
        } else {
          actions := FailingRun(c, s2, w, job, false, a.noticeAccepted);
        }
        FirstStep(c, s1, w, answer, actions);
        actions := [Work(w, answer)] + actions;
      case RunCancelled =>
        actions := CompletingRun(c, s1, w, job, EndCancelled(false));
      case RunFailed(permanent) =>
        actions := FailingRun(c, s1, w, job, permanent, a.noticeAccepted);
    }
    FirstStep(c, s, w, EnvOf(a.run), actions);
    actions := [Work(w, EnvOf(a.run))] + actions;
  }

  /** An attempt that nobody interferes with is a run of its worker, from the claim to the worker's next claim. */
  lemma AttemptIsARun(c: Config, s: Sys, w: WorkerId, job: Job, a: Answers) returns (actions: seq<Action>)
    requires PhaseOf(s, w) == Attaching(job) && s.nextToken !in s.reg.cancelled
    ensures OnlyWork(w, actions) && PhaseOf(Exec(c, s, actions), w) == Idle
    ensures WorldOf(Exec(c, s, actions)) == Attempt(c, WorldOf(s), job, s.nextToken, a, s.now)
  {
    hide Exec, OnlyWork, FinishCancelled, Finish;
    var s1 := WorkStep(c, s, w, Fine);
    if job.id in s.reg.requests {
      assert PhaseOf(s1, w) == Completing(job, EndCancelled(true));
      actions := CompletingRun(c, s1, w, job, EndCancelled(true));
    } else {
      assert PhaseOf(s1, w) == AnnouncingRunning(job, s.nextToken);
      var s2 := WorkStep(c, s1, w, Fine);
      assert s2.now == s.now;
      actions := ExecutingRun(c, s2, w, job, s.nextToken, a);
      FirstStep(c, s1, w, Fine, actions);
      actions := [Work(w, Fine)] + actions;
    }
    FirstStep(c, s, w, Fine, actions);
    actions := [Work(w, Fine)] + actions;
  }
}

/** The code of the worker and of the cancel use case on their shared objects. */
module Worker {
  import opened Wrappers
  import opened JobQueue
  import opened Lifecycle
  import opened Attempts
  import opened InMemoryQueue
  import opened InFlightJobs
  import Registry = InFlightRegistry

  lemma CancelledIsTheOneAsked(q: Queue, id: JobId, now: Instant)
    ensures Cancel(q, id, now).1.Cancelled? ==> Cancel(q, id, now).1.job.id == id
  {
    CancelConserves(q, id, now);
  }

  class TaskExecution {
    const config: Config
    const queue: InMemoryJobQueue
    const registry: InFlightJobRegistry
    var log: seq<Event>

    constructor (config: Config, queue: InMemoryJobQueue, registry: InFlightJobRegistry)
      ensures this.config == config && this.queue == queue && this.registry == registry && log == []
    {
      this.config, this.queue, this.registry, this.log := config, queue, registry, [];
    }

    /** The state as a value; `tokens` are the cancellation tokens in use. */
    ghost function View(tokens: set<TaskCancellation>): World<TaskCancellation>
      reads this, queue, registry, tokens
    {
      World(queue.View(), registry.View(tokens), log)
    }

    ghost predicate Owns(tokens: set<TaskCancellation>)
      reads registry
    {
      registry.cancellations.Values <= tokens
    }

    method UpdateControlMessage(id: JobId, state: ControlState)
      modifies this`log
      ensures log == old(log) + [ControlUpdated(id, state)]
    {
      log := log + [ControlUpdated(id, state)];
    }

    method CompleteCancelledClaimedJob(job: Job, hadHandle: bool, ghost tokens: set<TaskCancellation>)
      requires Owns(tokens)
      modifies this`log, queue, registry
      ensures Owns(tokens) && View(tokens) == FinishCancelled(old(View(tokens)), job, hadHandle)
    {
      queue.Complete(job.id);
      var handle := registry.Remove(job.id, tokens);
      if handle.Some? || hadHandle {
        UpdateControlMessage(job.id, ShowCancelled);
      }
    }

    method HandleFailedClaimedJob(job: Job, permanent: bool, noticeAccepted: bool, now: Instant,
                                  ghost tokens: set<TaskCancellation>)
      requires Owns(tokens)
      modifies this`log, queue, registry
      ensures Owns(tokens)
      ensures View(tokens) == FinishFailed(config, old(View(tokens)), job, permanent, noticeAccepted, now)
    {
      var maxRetry := if permanent then job.retryCount else config.maxRetry;
      var failed := queue.Fail(FailInput(job.id, "", maxRetry, config.backoffMs), now);
      match failed {
        case ClaimedJobNotFound =>
          return;
        case Requeued(_) =>
          var _ := registry.Remove(job.id, tokens);
        case DeadLettered(_) =>
          var _ := registry.Remove(job.id, tokens);
          UpdateControlMessage(job.id, ShowFailed);
          if noticeAccepted {
            log := log + [NoticePosted(job.id)];
          }
      }
    }

    /** The run of the task and the post of its report; with the flag set the answers of the runner do not matter. */
    method ExecuteTaskJob(job: Job, token: TaskCancellation, a: Answers) returns (outcome: Outcome)
      modifies this`log
      ensures outcome == if token.IsCancelled() then Stopped else OutcomeOf(a)
      ensures log == if outcome.Done? then old(log) + [ReportPosted(job.id)] else old(log)
    {
      if a.run.RunCancelled? || token.IsCancelled() {
        return Stopped;
      }
      if a.run.RunFailed? {
        return Broken(a.run.permanent);
      }
      if !a.reportAccepted {
        return Broken(false);
      }
      log := log + [ReportPosted(job.id)];
      outcome := Done;
    }

    method RunClaimedJob(job: Job, token: TaskCancellation, a: Answers, now: Instant, ghost tokens: set<TaskCancellation>)
      requires Owns(tokens)
      modifies this`log, queue, registry
      ensures Owns(tokens)
      ensures View(tokens) == if token.IsCancelled() then FinishCancelled(old(View(tokens)), job, false)
                              else Finish(config, old(View(tokens)), job, a, now)
    {
      hide FinishFailed, FinishCancelled;
      var outcome := ExecuteTaskJob(job, token, a);
      match outcome {
        case Done =>
          queue.Complete(job.id);
          var _ := registry.Remove(job.id, tokens);
          UpdateControlMessage(job.id, ShowCompleted);
        case Stopped =>
          CompleteCancelledClaimedJob(job, false, tokens);
        case Broken(permanent) =>
          HandleFailedClaimedJob(job, permanent, a.noticeAccepted, now, tokens);
      }
    }

    method ProcessClaimedJob(job: Job, a: Answers, now: Instant, ghost tokens: set<TaskCancellation>)
      returns (token: TaskCancellation)
      requires Owns(tokens)
      modifies this`log, queue, registry
      ensures fresh(token) && Owns(tokens + {token})
      ensures View(tokens + {token}) == Attempt(config, old(View(tokens)), job, token, a, now)
    {
      hide Finish, FinishCancelled;
      token := new TaskCancellation();
      ghost var all := tokens + {token};
      assert registry.View(all) == registry.View(tokens) by {
        assert InFlightJobRegistry.CancelledIn(all) == InFlightJobRegistry.CancelledIn(tokens);
      }
      var attached := registry.AttachCancellation(job.id, token, all);
      if attached.CancelRequested? {
        CompleteCancelledClaimedJob(job, true, all);
        return;
      }
      assert token !in registry.View(all).cancelled;
      UpdateControlMessage(job.id, ShowRunning);
      RunClaimedJob(job, token, a, now, all);
    }

    /** Claims the next job, if there is one, and works on it. */
    method RunWorkerIteration(a: Answers, now: Instant, ghost tokens: set<TaskCancellation>)
      returns (claimed: Option<Job>, token: Option<TaskCancellation>)
      requires Owns(tokens)
      modifies this`log, queue, registry
      ensures claimed == Claim(old(queue.View()), now).1
      ensures claimed.None? ==>
        token.None? && View(tokens) == old(View(tokens)).(q := Claim(old(queue.View()), now).0)
      ensures claimed.Some? ==>
        token.Some? && fresh(token.value)
        && View(tokens + {token.value})
           == Attempt(config, World(Claim(old(queue.View()), now).0, old(registry.View(tokens)),
                                    old(log) + [JobClaimed(claimed.value.id)]),
                      claimed.value, token.value, a, now)
    {
      hide Attempt;
      claimed := queue.Claim(now);
      token := None;
      if claimed.Some? {
        log := log + [JobClaimed(claimed.value.id)];
        var attached := ProcessClaimedJob(claimed.value, a, now, tokens);
        token := Some(attached);
      }
    }

    /** Cancels a waiting job at once; asks for the cancellation of a running one. */
    method CancelTask(id: JobId, user: string, at: string, now: Instant, ghost tokens: set<TaskCancellation>)
      requires Owns(tokens)
      modifies this`log, queue, registry, registry.cancellations.Values
      ensures Owns(tokens)
      ensures var (q, r) := Cancel(old(queue.View()), id, now);
        View(tokens) ==
        match r
        case Cancelled(_) => World(q, old(registry.View(tokens)), old(log) + [ControlUpdated(id, ShowCancelled)])
        case AlreadyClaimed =>
          World(q, Registry.RequestCancel(old(registry.View(tokens)), id, user, at).0,
                old(log) + [ControlUpdated(id, ShowCancelRequested)])
        case NotFound => World(q, old(registry.View(tokens)), old(log))
    {
      CancelledIsTheOneAsked(queue.View(), id, now);
      hide Cancel;
      var r := queue.Cancel(id, now);
      match r {
        case Cancelled(job) =>
          UpdateControlMessage(job.id, ShowCancelled);
        case AlreadyClaimed =>
          var _ := registry.RequestCancel(id, user, at, tokens);
          UpdateControlMessage(id, ShowCancelRequested);
        case NotFound =>
      }
    }
  }
}

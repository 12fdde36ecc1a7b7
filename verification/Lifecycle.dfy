/**
 The life of a job as a step system: any number of workers (crates/application/src/execution/worker.rs and task.rs)
 and of cancel requests (cancel.rs) work on one queue and one registry. A step is what one of them does between two
 awaits: one mutex-guarded operation, one read of the cancellation flag, or one message sent. Every choice the
 environment makes is part of the action, so a run is a sequence of actions.
 */
module Lifecycle {
  import opened Wrappers
  import opened JobQueue
  import Registry = InFlightRegistry

  type Token = nat
  type WorkerId = nat
  type ActorId = nat

  datatype Config = Config(maxRetry: u32, backoffMs: u64)

  /** How an attempt ended; `hadHandle` says whether the cancellation was known when its token was attached. */
  datatype Ending = EndCompleted | EndCancelled(hadHandle: bool) | EndRequeued | EndDead

  /** Where a worker stands in `process_claimed_job`; the name says what it does next. */
  datatype Phase =
    | Idle
    | Attaching(job: Job)
    | AnnouncingRunning(job: Job, token: Token)
    | Executing(job: Job, token: Token)
    | PostingReport(job: Job)
    | Completing(job: Job, ending: Ending)
    | Failing(job: Job, permanent: bool)
    | Removing(job: Job, ending: Ending)
    | Announcing(job: Job, ending: Ending)
    | PostingNotice(job: Job)

  /** Where a cancel use case stands after its call to the queue. */
  datatype CancelPhase =
    | Requesting(id: JobId, user: string)
    | AnnouncingRequest(id: JobId)
    | AnnouncingRemoval(id: JobId)

  datatype ControlState = ShowRunning | ShowCompleted | ShowFailed | ShowCancelled | ShowCancelRequested

  datatype Event =
    | JobClaimed(id: JobId)
    | ReportPosted(id: JobId)
    | NoticePosted(id: JobId)
    | ControlUpdated(id: JobId, state: ControlState)

  /** What the environment answers to the step of a worker. */
  datatype Env =
    | Fine
    | Refused
    | RunnerSucceeded
    | RunnerCancelled
    | RunnerFailed(permanent: bool)
    | CancellationSeen

  datatype Action =
    | EnqueueJob(id: JobId, payload: string)
    | Advance(nanos: nat)
    | Work(worker: WorkerId, env: Env)
    | StartCancel(actor: ActorId, id: JobId, user: string)
    | ContinueCancel(actor: ActorId, at: string)

  /**
   What happened so far. `clean` holds the ids whose current attempt was claimed while no earlier attempt still had
   its registry entry to remove. `line` is every job that entered `pending`, in order; `handed` is every job a claim
   returned, in order; `dropped` is every job that was cancelled while it waited.
   */
  datatype History = History(
    known: set<JobId>,
    completed: set<JobId>,
    endedCancelled: set<JobId>,
    cancelled: set<JobId>,
    permanent: set<JobId>,
    clean: set<JobId>,
    holder: map<JobId, WorkerId>,
    failedAt: map<JobId, Instant>,
    line: seq<Job>,
    handed: seq<Job>,
    dropped: set<Job>,
    log: seq<Event>)

  datatype Sys = Sys(
    q: Queue,
    reg: Registry.Registry<Token>,
    workers: map<WorkerId, Phase>,
    actors: map<ActorId, CancelPhase>,
    now: Instant,
    nextToken: Token,
    h: History)

  const INIT := Sys(EMPTY, Registry.Registry(map[], map[], {}), map[], map[], 0, 0,
                    History({}, {}, {}, {}, {}, {}, map[], map[], [], [], {}, []))

  function PhaseOf(s: Sys, w: WorkerId): Phase {
    if w in s.workers then s.workers[w] else Idle
  }

  function Enter(s: Sys, w: WorkerId, p: Phase): Sys {
    s.(workers := s.workers[w := p])
  }

  function Say(s: Sys, e: Event): Sys {
    s.(h := s.h.(log := s.h.log + [e]))
  }

  /** The job of a worker whose job is among the claimed ones. */
  function Held(p: Phase): Option<Job> {
    match p
    case Attaching(job) => Some(job)
    case AnnouncingRunning(job, _) => Some(job)
    case Executing(job, _) => Some(job)
    case PostingReport(job) => Some(job)
    case Completing(job, _) => Some(job)
    case Failing(job, _) => Some(job)
    case _ => None
  }

  /** Some worker failed an attempt of `id` and has yet to remove that attempt's registry entry. */
  ghost predicate RemovalPending(s: Sys, id: JobId) {
    exists w :: w in s.workers && s.workers[w].Removing? && s.workers[w].ending.EndRequeued? && s.workers[w].job.id == id
  }

  // ----- Steps of a worker

  /** `queue.claim`. */
  ghost function ClaimNext(s: Sys, w: WorkerId): Sys {
    var (q, taken) := Claim(s.q, s.now);
    var line := s.h.line + JobsOf(Ready(s.q.delayed, s.now));
    match taken
    case None => s.(q := q, h := s.h.(line := line))
    case Some(job) =>
      var h := s.h.(
        line := line,
        handed := s.h.handed + [job],
        holder := s.h.holder[job.id := w],
        clean := if RemovalPending(s, job.id) then s.h.clean - {job.id} else s.h.clean + {job.id},
        log := s.h.log + [JobClaimed(job.id)]);
      Enter(s.(q := q, h := h), w, Attaching(job))
  }

  /** A fresh token and `registry.attach_cancellation`. */
  function AttachToken(s: Sys, w: WorkerId, job: Job): Sys {
    var token := s.nextToken;
    var (reg, r) := Registry.Attach(s.reg, job.id, token);
    Enter(s.(reg := reg, nextToken := token + 1), w,
          if r.CancelRequested? then Completing(job, EndCancelled(true)) else AnnouncingRunning(job, token))
  }

  /** The select of `run_task`, then the last reads of the flag. */
  function AfterRun(job: Job, token: Token, cancelled: bool, env: Env): Phase {
    match env
    case CancellationSeen => if cancelled then Completing(job, EndCancelled(false)) else Executing(job, token)
    case RunnerSucceeded => if cancelled then Completing(job, EndCancelled(false)) else PostingReport(job)
    case RunnerCancelled => Completing(job, EndCancelled(false))
    case RunnerFailed(permanent) => if cancelled then Completing(job, EndCancelled(false)) else Failing(job, permanent)
    case _ => Executing(job, token)
  }

  /** `queue.complete`. */
  function CompleteJob(s: Sys, w: WorkerId, job: Job, ending: Ending): Sys {
    Enter(s.(q := Complete(s.q, job.id),
             h := s.h.(completed := s.h.completed + {job.id},
                       endedCancelled := s.h.endedCancelled + if ending.EndCancelled? then {job.id} else {},
                       holder := s.h.holder - {job.id})), w, Removing(job, ending))
  }

  /** `handle_failed_claimed_job` up to the end of `queue.fail`. */
  function FailJob(c: Config, s: Sys, w: WorkerId, job: Job, permanent: bool): Sys {
    var maxRetry := if permanent then job.retryCount else c.maxRetry;
    var (q, r) := Fail(s.q, FailInput(job.id, "", maxRetry, c.backoffMs), s.now);
    var h := s.h.(holder := s.h.holder - {job.id}, failedAt := s.h.failedAt[job.id := s.now]);
    match r
    case ClaimedJobNotFound => Enter(s, w, Idle)
    case Requeued(_) => Enter(s.(q := q, h := h), w, Removing(job, EndRequeued))
    case DeadLettered(_) =>
      Enter(s.(q := q, h := if permanent then h.(permanent := h.permanent + {job.id}) else h), w, Removing(job, EndDead))
  }

  /** `registry.remove`; a cancelled attempt is announced only when somebody is known to have asked for it. */
  function RemoveEntry(s: Sys, w: WorkerId, job: Job, ending: Ending): Sys {
    var (reg, info) := Registry.Remove(s.reg, job.id);
    var silent := ending.EndRequeued? || (ending.EndCancelled? && info.None? && !ending.hadHandle);
    Enter(s.(reg := reg), w, if silent then Idle else Announcing(job, ending))
  }

  /** The last update of the control message for this attempt. */
  function Announce(s: Sys, w: WorkerId, job: Job, ending: Ending): Sys {
    match ending
    case EndCompleted => Enter(Say(s, ControlUpdated(job.id, ShowCompleted)), w, Idle)
    case EndCancelled(_) => Enter(Say(s, ControlUpdated(job.id, ShowCancelled)), w, Idle)
    case EndRequeued => Enter(s, w, Idle)
    case EndDead => Enter(Say(s, ControlUpdated(job.id, ShowFailed)), w, PostingNotice(job))
  }

  ghost function WorkStep(c: Config, s: Sys, w: WorkerId, env: Env): Sys {
    match PhaseOf(s, w)
    case Idle => ClaimNext(s, w)
    case Attaching(job) => AttachToken(s, w, job)
    case AnnouncingRunning(job, token) => Enter(Say(s, ControlUpdated(job.id, ShowRunning)), w, Executing(job, token))
    case Executing(job, token) => Enter(s, w, AfterRun(job, token, token in s.reg.cancelled, env))
    case PostingReport(job) =>
      if env.Refused? then Enter(s, w, Failing(job, false))
      else Enter(Say(s, ReportPosted(job.id)), w, Completing(job, EndCompleted))
    case Completing(job, ending) => CompleteJob(s, w, job, ending)
    case Failing(job, permanent) => FailJob(c, s, w, job, permanent)
    case Removing(job, ending) => RemoveEntry(s, w, job, ending)
    case Announcing(job, ending) => Announce(s, w, job, ending)
    case PostingNotice(job) => Enter(if env.Refused? then s else Say(s, NoticePosted(job.id)), w, Idle)
  }

  // ----- Steps of a cancel request

  /** `queue.cancel`. */
  function StartCancelStep(s: Sys, a: ActorId, id: JobId, user: string): Sys {
    var (q, r) := Cancel(s.q, id, s.now);
    var line := s.h.line + JobsOf(Ready(s.q.delayed, s.now));
    match r
    case Cancelled(job) =>
      var h := s.h.(cancelled := s.h.cancelled + {id}, dropped := s.h.dropped + {job}, line := line);
      s.(q := q, h := h, actors := s.actors[a := AnnouncingRemoval(id)])
    case AlreadyClaimed => s.(q := q, h := s.h.(line := line), actors := s.actors[a := Requesting(id, user)])
    case NotFound => s.(q := q, h := s.h.(line := line))
  }

  function ContinueCancelStep(s: Sys, a: ActorId, at: string): Sys
    requires a in s.actors
  {
    match s.actors[a]
    case Requesting(id, user) =>
      s.(reg := Registry.RequestCancel(s.reg, id, user, at).0, actors := s.actors[a := AnnouncingRequest(id)])
    case AnnouncingRequest(id) =>
      Say(s, ControlUpdated(id, ShowCancelRequested)).(actors := s.actors - {a})
    case AnnouncingRemoval(id) =>
      Say(s, ControlUpdated(id, ShowCancelled)).(actors := s.actors - {a})
  }

  // ----- The system

  /** Job ids are fresh UUIDs, so an enqueue of a known id is no step. */
  function EnqueueStep(s: Sys, id: JobId, payload: string): Sys {
    var job := Job(id, 0, payload);
    if id in s.h.known then s
    else s.(q := Enqueue(s.q, job), h := s.h.(known := s.h.known + {id}, line := s.h.line + [job]))
  }

  /** An action that is not possible in `s` changes nothing. */
  ghost function Step(c: Config, s: Sys, a: Action): Sys {
    match a
    case EnqueueJob(id, payload) => EnqueueStep(s, id, payload)
    case Advance(nanos) => s.(now := s.now + nanos)
    case Work(w, env) => WorkStep(c, s, w, env)
    case StartCancel(actor, id, user) => if actor in s.actors then s else StartCancelStep(s, actor, id, user)
    case ContinueCancel(actor, at) => if actor in s.actors then ContinueCancelStep(s, actor, at) else s
  }

  /** The state after a run of actions. */
  ghost function Exec(c: Config, s: Sys, actions: seq<Action>): Sys {
    if actions == [] then s
    else Step(c, Exec(c, s, actions[..|actions| - 1]), actions[|actions| - 1])
  }

  /** How often an event happened. */
  ghost function Count(log: seq<Event>, e: Event): nat {
    multiset(log)[e]
  }

  ghost function Claims(log: seq<Event>, id: JobId): nat {
    Count(log, JobClaimed(id))
  }

  /** Updates of the control message that tell how the job ended. */
  ghost function TerminalUpdates(log: seq<Event>, id: JobId): nat {
    Count(log, ControlUpdated(id, ShowCompleted)) + Count(log, ControlUpdated(id, ShowFailed))
    + Count(log, ControlUpdated(id, ShowCancelled))
  }
}

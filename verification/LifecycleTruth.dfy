/** The last update of a job's control message tells how the job ended, over every run. */
module LifecycleTruth {
  import opened Wrappers
  import opened JobQueue
  import opened Lifecycle
  import opened LifecycleInvariants
  import opened LifecycleCancellation
  import opened LifecycleRetries
  import opened LifecycleEndings
  import opened LifecycleTheorems
  import Registry = InFlightRegistry

  /** What an update says is the case. */
  ghost predicate Holds(s: Sys, id: JobId, state: ControlState) {
    match state
    case ShowCompleted => id in s.h.completed && ReportPosted(id) in s.h.log
    case ShowFailed => IsDead(s, id)
    case ShowCancelled => id in s.h.cancelled || id in s.h.endedCancelled
    case _ => true
  }

  /** Every update that was made is true. */
  ghost predicate UpdatesHold(s: Sys) {
    forall id, state :: ControlUpdated(id, state) in s.h.log ==> Holds(s, id, state)
  }

  /** What a worker is on its way to say is true already. */
  ghost predicate WorkerTells(s: Sys, p: Phase) {
    match p
    case Completing(job, ending) => ending.EndCompleted? ==> ReportPosted(job.id) in s.h.log
    case Removing(job, ending) => EndingHolds(s, job.id, ending)
    case Announcing(job, ending) => EndingHolds(s, job.id, ending)
    case _ => true
  }

  ghost predicate EndingHolds(s: Sys, id: JobId, ending: Ending) {
    match ending
    case EndCompleted => Holds(s, id, ShowCompleted)
    case EndCancelled(_) => id in s.h.endedCancelled
    case EndDead => Holds(s, id, ShowFailed)
    case EndRequeued => true
  }

  ghost predicate Truth(s: Sys) {
    && UpdatesHold(s)
    && (forall w :: w in s.workers ==> WorkerTells(s, s.workers[w]))
    && (forall a :: a in s.actors && s.actors[a].AnnouncingRemoval? ==> s.actors[a].id in s.h.cancelled)
  }

  /** Nothing that happened is taken back. */
  ghost predicate Grows(s: Sys, s': Sys) {
    && s.h.completed <= s'.h.completed && s.h.endedCancelled <= s'.h.endedCancelled && s.h.cancelled <= s'.h.cancelled
    && (forall id :: IsDead(s, id) ==> IsDead(s', id))
    && s.h.log <= s'.h.log
  }

  lemma TruthStays(s: Sys, s': Sys, p: Phase, id: JobId, state: ControlState)
    requires Grows(s, s')
    ensures Holds(s, id, state) ==> Holds(s', id, state)
    ensures WorkerTells(s, p) ==> WorkerTells(s', p)
  {
    assert forall e :: e in s.h.log ==> e in s'.h.log;
    hide IsDead;
  }

  /** A step of a worker that says at most what is true, and leaves its worker with something true to say. */
  lemma WorkerStepKeepsTruth(s: Sys, s': Sys, w: WorkerId, said: seq<Event>)
    requires Truth(s) && Grows(s, s') && s'.actors == s.actors && s'.h.log == s.h.log + said
    requires s'.workers == s.workers[w := PhaseOf(s', w)] || s'.workers == s.workers
    requires WorkerTells(s', PhaseOf(s', w))
    requires forall e :: e in said && e.ControlUpdated? ==> Holds(s', e.id, e.state)
    ensures Truth(s')
  {
    forall p, id, state ensures (Holds(s, id, state) ==> Holds(s', id, state))
      && (WorkerTells(s, p) ==> WorkerTells(s', p)) {
      TruthStays(s, s', p, id, state);
    }
    hide Holds, WorkerTells, Grows;
    assert forall e :: e in s'.h.log ==> e in s.h.log || e in said;
  }

  lemma QuietGrows(s: Sys, s': Sys, w: WorkerId, said: seq<Event>)
    requires QuietStep(s, w, said, s')
    ensures Grows(s, s')
  {
    assert s'.q.dead == s.q.dead;
    assert forall id :: IsDead(s, id) ==> IsDead(s', id);
  }

  lemma WorkTells(c: Config, s: Sys, w: WorkerId, env: Env)
    requires Truth(s) && Quiet(PhaseOf(s, w))
    ensures var s' := WorkStep(c, s, w, env);
      && Grows(s, s') && WorkerTells(s', PhaseOf(s', w))
      && forall e :: e in Said(PhaseOf(s, w), env) && e.ControlUpdated? ==> Holds(s', e.id, e.state)
  {
    var p, s' := PhaseOf(s, w), WorkStep(c, s, w, env);
    QuietFrame(c, s, w, env);
    assert WorkerTells(s, p);
    hide Truth, WorkStep;
    QuietGrows(s, s', w, Said(p, env));
    TruthStays(s, s', p, "", ShowRunning);
    if Held(p).Some? {
      WorkingFrame(c, s, w, env);
    } else {
      AfterFrame(c, s, w, env);
    }
    hide QuietStep, Grows, IsDead;
  }

  lemma ClaimKeepsTruth(s: Sys, w: WorkerId)
    requires Truth(s) && Places(s) && PhaseOf(s, w).Idle?
    ensures Truth(ClaimNext(s, w))
  {
    ClaimGrows(s, w);
    hide Places, Truth, Claim, Ready, RemovalPending, Grows;
    var s', r := ClaimNext(s, w), Claim(s.q, s.now).1;
    if r.None? {
      assert s'.h.log == s.h.log + [];
      assert PhaseOf(s', w) == Idle;
      WorkerStepKeepsTruth(s, s', w, []);
    } else {
      WorkerStepKeepsTruth(s, s', w, [JobClaimed(r.value.id)]);
    }
  }

  lemma ClaimGrows(s: Sys, w: WorkerId)
    requires Places(s)
    ensures Grows(s, ClaimNext(s, w))
  {
    ClaimShape(s, w);
    hide Places, Claim, Ready, RemovalPending;
    assert forall id :: IsDead(s, id) ==> IsDead(ClaimNext(s, w), id);
  }

  lemma CompleteKeepsTruth(s: Sys, w: WorkerId, job: Job, ending: Ending)
    requires Truth(s) && WorkersOk(s) && PhaseOf(s, w) == Completing(job, ending)
    ensures Truth(CompleteJob(s, w, job, ending))
  {
    var s' := CompleteJob(s, w, job, ending);
    assert w in s.workers && WorkerTells(s, s.workers[w]);
    assert forall id :: IsDead(s, id) ==> IsDead(s', id);
    assert s'.h.log == s.h.log + [];
    hide Truth, WorkersOk, IsDead;
    WorkerStepKeepsTruth(s, s', w, []);
  }

  lemma FailBuries(c: Config, s: Sys, w: WorkerId, job: Job, permanent: bool)
    requires Holders(s) && PhaseOf(s, w) == Failing(job, permanent)
    ensures var s' := FailJob(c, s, w, job, permanent);
      && (forall id :: IsDead(s, id) ==> IsDead(s', id))
      && PhaseOf(s', w).Removing? && PhaseOf(s', w).job == job && !PhaseOf(s', w).ending.EndCompleted?
      && !PhaseOf(s', w).ending.EndCancelled?
      && (PhaseOf(s', w).ending.EndDead? ==> IsDead(s', job.id))
      && s'.workers == s.workers[w := PhaseOf(s', w)] && s'.actors == s.actors
  {
    FailFacts(c, s, w, job, permanent);
    var s' := FailJob(c, s, w, job, permanent);
    hide FailJob, IsDead, IsReported, TerminalUpdates, Reports, Notices;
    forall id ensures IsDead(s, id) ==> IsDead(s', id) {
      assert FactsOf(s', id).dead == IsDead(s', id) && FactsOf(s, id).dead == IsDead(s, id);
    }
    assert FactsOf(s', job.id).dead == IsDead(s', job.id);
  }

  lemma FailKeepsTruth(c: Config, s: Sys, w: WorkerId, job: Job, permanent: bool)
    requires Truth(s) && Holders(s) && PhaseOf(s, w) == Failing(job, permanent)
    ensures Truth(FailJob(c, s, w, job, permanent))
  {
    var s' := FailJob(c, s, w, job, permanent);
    hide Truth, Holders, IsDead, Fail;
    FailBuries(c, s, w, job, permanent);
    assert s'.h.log == s.h.log + [];
    WorkerStepKeepsTruth(s, s', w, []);
  }

  lemma WorkKeepsTruth(c: Config, s: Sys, w: WorkerId, env: Env)
    requires Truth(s) && Places(s) && Holders(s) && Endings(s)
    ensures Truth(WorkStep(c, s, w, env))
  {
    var p := PhaseOf(s, w);
    assert WorkersOk(s);
    hide Truth, Places, Holders, Endings, WorkersOk, ClaimNext, CompleteJob, FailJob, AttachToken, RemoveEntry, Announce;
    if p.Idle? {
      ClaimKeepsTruth(s, w);
    } else if p.Completing? {
      CompleteKeepsTruth(s, w, p.job, p.ending);
    } else if p.Failing? {
      FailKeepsTruth(c, s, w, p.job, p.permanent);
    } else {
      QuietKeepsTruth(c, s, w, env);
    }
  }

  lemma QuietKeepsTruth(c: Config, s: Sys, w: WorkerId, env: Env)
    requires Truth(s) && Quiet(PhaseOf(s, w))
    ensures Truth(WorkStep(c, s, w, env))
  {
    hide Truth, WorkStep, Grows, WorkerTells, Holds;
    WorkTells(c, s, w, env);
    QuietFrame(c, s, w, env);
    WorkerStepKeepsTruth(s, WorkStep(c, s, w, env), w, Said(PhaseOf(s, w), env));
  }

  /** A step of a cancel request. */
  lemma ActorStepKeepsTruth(s: Sys, s': Sys, a: ActorId, said: seq<Event>)
    requires Truth(s) && Grows(s, s') && s'.workers == s.workers && s'.h.log == s.h.log + said
    requires forall b :: b in s'.actors && b != a ==> b in s.actors && s'.actors[b] == s.actors[b]
    requires a in s'.actors && s'.actors[a].AnnouncingRemoval? ==> s'.actors[a].id in s'.h.cancelled
    requires forall e :: e in said && e.ControlUpdated? ==> Holds(s', e.id, e.state)
    ensures Truth(s')
  {
    forall p, id, state ensures (Holds(s, id, state) ==> Holds(s', id, state))
      && (WorkerTells(s, p) ==> WorkerTells(s', p)) {
      TruthStays(s, s', p, id, state);
    }
    assert s.h.cancelled <= s'.h.cancelled;
    hide Holds, WorkerTells, Grows;
    assert forall e :: e in s'.h.log ==> e in s.h.log || e in said;
  }

  lemma CancelKeepsTruth(s: Sys, a: ActorId, id: JobId, user: string)
    requires Truth(s) && a !in s.actors
    ensures Truth(StartCancelStep(s, a, id, user))
  {
    var s' := StartCancelStep(s, a, id, user);
    CancelConserves(s.q, id, s.now);
    hide Truth, Cancel, Ready, Census;
    assert forall i :: IsDead(s, i) ==> IsDead(s', i);
    assert s'.h.log == s.h.log + [];
    ActorStepKeepsTruth(s, s', a, []);
  }

  lemma ContinueKeepsTruth(s: Sys, a: ActorId, at: string)
    requires Truth(s) && a in s.actors
    ensures Truth(ContinueCancelStep(s, a, at))
  {
    var s' := ContinueCancelStep(s, a, at);
    ContinueShape(s, a, at);
    assert s.actors[a].AnnouncingRemoval? ==> s.actors[a].id in s.h.cancelled;
    hide Truth, ContinueCancelStep;
    assert forall i :: IsDead(s, i) ==> IsDead(s', i);
    ActorStepKeepsTruth(s, s', a, Spoken(s.actors[a]));
  }

  lemma OtherKeepsTruth(s: Sys, s': Sys)
    requires Truth(s) && s'.workers == s.workers && s'.actors == s.actors && s'.q.dead == s.q.dead
    requires s'.h == s.h.(known := s'.h.known, line := s'.h.line)
    ensures Truth(s')
  {
    assert forall a :: a in s.actors && s.actors[a].AnnouncingRemoval? ==> s.actors[a].id in s.h.cancelled;
    hide Truth;
    assert forall i :: IsDead(s, i) ==> IsDead(s', i);
    assert s'.h.log == s.h.log + [];
    ActorStepKeepsTruth(s, s', 0, []);
  }

  lemma StepKeepsTruth(c: Config, s: Sys, a: Action)
    requires Truth(s) && Places(s) && Holders(s) && Endings(s)
    ensures Truth(Step(c, s, a))
  {
    hide Truth, Places, Holders, Endings, WorkStep, StartCancelStep, ContinueCancelStep;
    match a {
      case Work(w, env) => WorkKeepsTruth(c, s, w, env);
      case StartCancel(actor, id, user) => if actor !in s.actors { CancelKeepsTruth(s, actor, id, user); }
      case ContinueCancel(actor, at) => if actor in s.actors { ContinueKeepsTruth(s, actor, at); }
      case _ => OtherKeepsTruth(s, Step(c, s, a));
    }
  }

  lemma {:induction false} RunKeepsTruth(c: Config, actions: seq<Action>)
    ensures Truth(Exec(c, INIT, actions))
  {
    if actions == [] {
    } else {
      hide Truth, Step;
      var front := actions[..|actions| - 1];
      RunKeepsTruth(c, front);
      Always(c, front);
      hide Places, Holders, Timing, Endings;
      StepKeepsTruth(c, Exec(c, INIT, front), actions[|actions| - 1]);
    }
  }

  /**
   A control message is shown as completed only for a job that is completed and whose report is posted, as failed only for
   one in the dead letters, and as cancelled only for one that was cancelled while it waited or ended cancelled.
   */
  lemma UpdatesTellTheTruth(c: Config, actions: seq<Action>, id: JobId, state: ControlState)
    requires ControlUpdated(id, state) in Exec(c, INIT, actions).h.log
    ensures var s := Exec(c, INIT, actions);
      && (state.ShowCompleted? ==> id in s.h.completed && Reports(s.h.log, id) == 1 && id !in s.h.endedCancelled)
      && (state.ShowFailed? ==> IsDead(s, id))
      && (state.ShowCancelled? ==> (id in s.h.cancelled || id in s.h.endedCancelled) && Reports(s.h.log, id) == 0)
  {
    var s := Exec(c, INIT, actions);
    RunKeepsTruth(c, actions);
    OneEndingPerJob(c, actions, id);
    Always(c, actions);
    OverOnce(s, id);
    assert Holds(s, id, state);
    hide Exec, Truth, Inv;
  }

  // ----- Requests on record when an attempt starts

  /** The worker is on its way to announce the cancellation, whoever removes the request meanwhile. */
  predicate OnItsWay(p: Phase, id: JobId) {
    && (p.Completing? || p.Removing? || p.Announcing?)
    && p.job.id == id && p.ending == EndCancelled(true)
  }

  lemma LogGrows(c: Config, s: Sys, a: Action)
    ensures s.h.log <= Step(c, s, a).h.log
  {
    if a.Work? {
      WorkLog(c, s, a.worker, a.env);
    }
    hide WorkStep, Cancel;
  }

  lemma OnItsWayStays(c: Config, s: Sys, w: WorkerId, id: JobId, a: Action)
    requires OnItsWay(PhaseOf(s, w), id)
    ensures OnItsWay(PhaseOf(Step(c, s, a), w), id) || Step(c, s, a).h.log == s.h.log + [ControlUpdated(id, ShowCancelled)]
  {
    hide Claim, Fail, Cancel, Complete;
  }

  lemma SaidSince(a: seq<Event>, b: seq<Event>, c: seq<Event>, e: Event)
    requires a <= b <= c && (e in b[|a|..] || c == b + [e])
    ensures e in c[|a|..]
  {
    if e in b[|a|..] {
      var i :| 0 <= i < |b[|a|..]| && b[|a|..][i] == e;
      assert c[|a|..][i] == e;
    } else {
      assert c[|a|..][|b| - |a|] == e;
    }
  }

  lemma {:induction false} OnItsWayUntilSaid(c: Config, s: Sys, w: WorkerId, id: JobId, actions: seq<Action>)
    requires OnItsWay(PhaseOf(s, w), id)
    ensures var t := Exec(c, s, actions);
      && s.h.log <= t.h.log
      && (OnItsWay(PhaseOf(t, w), id) || ControlUpdated(id, ShowCancelled) in t.h.log[|s.h.log|..])
  {
    hide OnItsWay, Step, PhaseOf;
    if actions == [] {
    } else {
      var front, last := actions[..|actions| - 1], actions[|actions| - 1];
      OnItsWayUntilSaid(c, s, w, id, front);
      var t := Exec(c, s, front);
      LogGrows(c, t, last);
      if OnItsWay(PhaseOf(t, w), id) {
        OnItsWayStays(c, t, w, id, last);
      }
      if !OnItsWay(PhaseOf(Exec(c, s, actions), w), id) {
        SaidSince(s.h.log, t.h.log, Exec(c, s, actions).h.log, ControlUpdated(id, ShowCancelled));
      }
    }
  }

  /** A request that is on record when an attempt starts ends it before the run, and the end is announced. */
  lemma RequestOnRecordIsAnnounced(c: Config, s: Sys, w: WorkerId, env: Env, actions: seq<Action>)
    requires PhaseOf(s, w).Attaching? && PhaseOf(s, w).job.id in s.reg.requests
    ensures var id := PhaseOf(s, w).job.id;
      var t := Exec(c, Step(c, s, Work(w, env)), actions);
      && s.h.log <= t.h.log
      && (OnItsWay(PhaseOf(t, w), id) || ControlUpdated(id, ShowCancelled) in t.h.log[|s.h.log|..])
  {
    OnItsWayUntilSaid(c, AttachToken(s, w, PhaseOf(s, w).job), w, PhaseOf(s, w).job.id, actions);
  }
}

/** What every step of the job life cycle keeps. */
module LifecycleInvariants {
  import opened Wrappers
  import opened JobQueue
  import opened Lifecycle
  import Registry = InFlightRegistry

  // ----- Where jobs are, and who holds the claimed ones

  ghost function DeadIds(s: Sys): multiset<JobId> {
    multiset(IdsOf(DeadJobs(s.q.dead)))
  }

  /** Every known id has exactly one place: four in the queue, and the two ways out. */
  ghost predicate Places(s: Sys) {
    Census(s.q) + multiset(s.h.completed) + multiset(s.h.cancelled) == multiset(s.h.known)
  }

  /** The claimed ids and the workers that hold them match one to one, each worker with the stored job. */
  ghost predicate Holders(s: Sys) {
    && s.h.holder.Keys == s.q.claimed.Keys
    && (forall id :: id in s.q.claimed ==>
          s.q.claimed[id].id == id && Held(PhaseOf(s, s.h.holder[id])) == Some(s.q.claimed[id]))
    && (forall w :: w in s.workers && Held(s.workers[w]).Some? ==>
          var id := Held(s.workers[w]).value.id; id in s.q.claimed && s.h.holder[id] == w)
  }

  lemma PlacesAreDistinct(s: Sys)
    requires Places(s)
    ensures Distinct(Census(s.q))
  {
    forall id ensures Census(s.q)[id] <= 1 {
      assert multiset(s.h.known)[id] <= 1;
    }
  }

  lemma HeldIsStored(s: Sys, w: WorkerId)
    requires Holders(s) && Held(PhaseOf(s, w)).Some?
    ensures var job := Held(PhaseOf(s, w)).value;
      job.id in s.q.claimed && s.h.holder[job.id] == w && s.q.claimed[job.id] == job
  {
    assert w in s.workers;
  }

  /** An id that is claimed is nowhere else. */
  lemma ClaimedIsOnlyClaimed(s: Sys, id: JobId)
    requires Places(s) && id in s.q.claimed
    ensures id in s.h.known && id !in s.h.completed && id !in s.h.cancelled && id !in DeadIds(s)
    ensures id !in multiset(IdsOf(s.q.pending)) && id !in multiset(IdsOf(JobsOf(s.q.delayed)))
  {
    assert multiset(s.h.known)[id] <= 1;
    assert multiset(s.q.claimed.Keys)[id] == 1;
  }

  lemma ClaimKeepsPlaces(s: Sys, w: WorkerId)
    requires Places(s)
    ensures Places(ClaimNext(s, w))
  {
    PlacesAreDistinct(s);
    ClaimConserves(s.q, s.now);
  }

  lemma CompleteKeepsPlaces(s: Sys, w: WorkerId, job: Job, ending: Ending)
    requires Places(s) && job.id in s.q.claimed
    ensures Places(CompleteJob(s, w, job, ending))
  {
    ClaimedIsOnlyClaimed(s, job.id);
    CompleteConserves(s.q, job.id);
    assert multiset(s.h.completed + {job.id}) == multiset(s.h.completed) + multiset{job.id};
  }

  lemma CancelShape(s: Sys, a: ActorId, id: JobId, user: string)
    ensures var (q, r) := Cancel(s.q, id, s.now); var s' := StartCancelStep(s, a, id, user);
      && s'.q == q && s'.h.known == s.h.known && s'.h.completed == s.h.completed
      && s'.h.cancelled == if r.Cancelled? then s.h.cancelled + {id} else s.h.cancelled
  {
    hide Cancel, Promote, Ready, IndexOf, Without;
  }

  lemma CancelKeepsPlaces(s: Sys, a: ActorId, id: JobId, user: string)
    requires Places(s)
    ensures Places(StartCancelStep(s, a, id, user))
  {
    CancelConserves(s.q, id, s.now);
    CancelShape(s, a, id, user);
    hide StartCancelStep, Cancel, Promote, Census;
    if Cancel(s.q, id, s.now).1.Cancelled? {
      assert Census(s.q)[id] >= 1;
      assert multiset(s.h.known)[id] <= 1;
      assert id !in s.h.cancelled;
      assert multiset(s.h.cancelled + {id}) == multiset(s.h.cancelled) + multiset{id};
    }
  }

  lemma EnqueueKeepsPlaces(s: Sys, id: JobId, payload: string)
    requires Places(s)
    ensures Places(EnqueueStep(s, id, payload))
  {
    EnqueueConserves(s.q, Job(id, 0, payload));
    if id !in s.h.known {
      assert multiset(s.h.known + {id}) == multiset(s.h.known) + multiset{id};
    }
  }

  lemma FailKeepsPlaces(c: Config, s: Sys, w: WorkerId, job: Job, permanent: bool)
    requires Places(s) && (job.id in s.q.claimed ==> s.q.claimed[job.id].id == job.id)
    ensures Places(FailJob(c, s, w, job, permanent))
  {
    FailConserves(s.q, FailInput(job.id, "", if permanent then job.retryCount else c.maxRetry, c.backoffMs), s.now);
  }

  /** The steps of a worker that do not touch the queue. */
  predicate Quiet(p: Phase) {
    !p.Idle? && !p.Completing? && !p.Failing?
  }

  /** What a quiet step adds to the log. */
  function Said(p: Phase, env: Env): seq<Event> {
    match p
    case AnnouncingRunning(job, _) => [ControlUpdated(job.id, ShowRunning)]
    case PostingReport(job) => if env.Refused? then [] else [ReportPosted(job.id)]
    case Announcing(job, EndCompleted) => [ControlUpdated(job.id, ShowCompleted)]
    case Announcing(job, EndCancelled(_)) => [ControlUpdated(job.id, ShowCancelled)]
    case Announcing(job, EndDead) => [ControlUpdated(job.id, ShowFailed)]
    case PostingNotice(job) => if env.Refused? then [] else [NoticePosted(job.id)]
    case _ => []
  }

  /** A quiet step changes the registry, its worker's phase and the log, and keeps the worker's hold on its job. */
  ghost predicate QuietStep(s: Sys, w: WorkerId, said: seq<Event>, s': Sys) {
    && s'.q == s.q && s'.now == s.now && s'.actors == s.actors
    && s'.h == s.h.(log := s.h.log + said)
    && s'.workers == s.workers[w := PhaseOf(s', w)]
    && Held(PhaseOf(s', w)) == Held(PhaseOf(s, w))
  }

  lemma WorkingFrame(c: Config, s: Sys, w: WorkerId, env: Env)
    requires Quiet(PhaseOf(s, w)) && Held(PhaseOf(s, w)).Some?
    ensures var p, p' := PhaseOf(s, w), PhaseOf(WorkStep(c, s, w, env), w);
      && QuietStep(s, w, Said(p, env), WorkStep(c, s, w, env))
      && !p.Completing?
      && (p'.Completing? ==>
            || (p'.ending.EndCompleted? && Said(p, env) == [ReportPosted(p.job.id)])
            || (p'.ending.EndCancelled? && Said(p, env) == []))
      && (Said(p, env) == [ReportPosted(p.job.id)] ==> p'.Completing?)
  {
    hide ClaimNext, CompleteJob, FailJob, RemoveEntry, Announce, Registry.Attach;
    assert s.h.log + [] == s.h.log;
  }

  lemma AfterFrame(c: Config, s: Sys, w: WorkerId, env: Env)
    requires Quiet(PhaseOf(s, w)) && Held(PhaseOf(s, w)).None?
    ensures var p, p' := PhaseOf(s, w), PhaseOf(WorkStep(c, s, w, env), w);
      && QuietStep(s, w, Said(p, env), WorkStep(c, s, w, env))
      && (p'.Idle? || p'.PostingNotice? || p'.Announcing?)
      && (!p'.Idle? ==> p'.job == p.job)
      && (p'.Announcing? ==> p.Removing? && p'.ending == p.ending && !p.ending.EndRequeued?)
      && (p'.PostingNotice? ==> p.Announcing? && p.ending.EndDead?)
  {
    hide ClaimNext, CompleteJob, FailJob, AttachToken, Registry.Remove;
    assert s.h.log + [] == s.h.log;
  }

  lemma QuietFrame(c: Config, s: Sys, w: WorkerId, env: Env)
    requires Quiet(PhaseOf(s, w))
    ensures QuietStep(s, w, Said(PhaseOf(s, w), env), WorkStep(c, s, w, env))
  {
    hide WorkStep, QuietStep;
    if Held(PhaseOf(s, w)).Some? {
      WorkingFrame(c, s, w, env);
    } else {
      AfterFrame(c, s, w, env);
    }
  }

  lemma QuietKeepsPlaces(s: Sys, s': Sys)
    requires Places(s) && s'.q == s.q && s'.h == s.h.(log := s'.h.log)
    ensures Places(s')
  {
  }

  lemma WorkKeepsPlaces(c: Config, s: Sys, w: WorkerId, env: Env)
    requires Places(s) && Holders(s)
    ensures Places(WorkStep(c, s, w, env))
  {
    hide Places;
    if Quiet(PhaseOf(s, w)) {
      QuietFrame(c, s, w, env);
      QuietKeepsPlaces(s, WorkStep(c, s, w, env));
    } else if PhaseOf(s, w).Idle? {
      ClaimKeepsPlaces(s, w);
    } else {
      HeldIsStored(s, w);
      var p := PhaseOf(s, w);
      match p {
        case Failing(job, permanent) => FailKeepsPlaces(c, s, w, job, permanent);
        case Completing(job, ending) => CompleteKeepsPlaces(s, w, job, ending);
      }
    }
  }

  lemma StepKeepsPlaces(c: Config, s: Sys, a: Action)
    requires Places(s) && Holders(s)
    ensures Places(Step(c, s, a))
  {
    hide WorkStep, StartCancelStep, EnqueueStep, Holders, Registry.RequestCancel;
    match a {
      case EnqueueJob(id, payload) => EnqueueKeepsPlaces(s, id, payload);
      case Work(w, env) => WorkKeepsPlaces(c, s, w, env);
      case StartCancel(actor, id, user) => CancelKeepsPlaces(s, actor, id, user);
      case _ =>
    }
  }

  /** What a claim changes, free of the census. */
  lemma ClaimShape(s: Sys, w: WorkerId)
    requires Places(s)
    ensures var (q', r) := Claim(s.q, s.now);
      && (r.None? ==> q'.claimed == s.q.claimed)
      && (r.Some? ==> r.value.id !in s.q.claimed && q'.claimed == s.q.claimed[r.value.id := r.value])
      && q'.dead == s.q.dead
  {
    PlacesAreDistinct(s);
    ClaimConserves(s.q, s.now);
  }

  lemma GainKeepsHolders(s: Sys, w: WorkerId, job: Job, s': Sys)
    requires Holders(s) && Held(PhaseOf(s, w)).None? && job.id !in s.q.claimed
    requires s'.q.claimed == s.q.claimed[job.id := job] && s'.h.holder == s.h.holder[job.id := w]
    requires s'.workers == s.workers[w := PhaseOf(s', w)] && Held(PhaseOf(s', w)) == Some(job)
    ensures Holders(s')
  {
    forall id | id in s'.q.claimed ensures Held(PhaseOf(s', s'.h.holder[id])) == Some(s'.q.claimed[id]) {
      if id in s.q.claimed {
        assert Held(PhaseOf(s, s.h.holder[id])) == Some(s.q.claimed[id]);
      }
    }
  }

  /** A worker that lets go of its job, which leaves the claimed ones. */
  lemma ReleaseKeepsHolders(s: Sys, w: WorkerId, s': Sys)
    requires Holders(s) && Held(PhaseOf(s, w)).Some?
    requires var id := Held(PhaseOf(s, w)).value.id;
      && s'.q.claimed == s.q.claimed - {id} && s'.h.holder == s.h.holder - {id}
      && s'.workers == s.workers[w := PhaseOf(s', w)] && Held(PhaseOf(s', w)) == None
    ensures Holders(s')
  {
    HeldIsStored(s, w);
    forall id | id in s'.q.claimed ensures Held(PhaseOf(s', s'.h.holder[id])) == Some(s'.q.claimed[id]) {
      assert Held(PhaseOf(s, s.h.holder[id])) == Some(s.q.claimed[id]);
    }
  }

  lemma QuietKeepsHolders(s: Sys, w: WorkerId, s': Sys)
    requires Holders(s) && s'.q.claimed == s.q.claimed && s'.h.holder == s.h.holder
    requires s'.workers == s.workers[w := PhaseOf(s', w)] && Held(PhaseOf(s', w)) == Held(PhaseOf(s, w))
    ensures Holders(s')
  {
    forall id | id in s'.q.claimed ensures Held(PhaseOf(s', s'.h.holder[id])) == Some(s'.q.claimed[id]) {
      assert Held(PhaseOf(s, s.h.holder[id])) == Some(s.q.claimed[id]);
    }
  }

  lemma WorkKeepsHolders(c: Config, s: Sys, w: WorkerId, env: Env)
    requires Places(s) && Holders(s)
    ensures Holders(WorkStep(c, s, w, env))
  {
    if Held(PhaseOf(s, w)).Some? {
      HeldIsStored(s, w);
    }
    var s' := WorkStep(c, s, w, env);
    if PhaseOf(s, w).Idle? {
      ClaimShape(s, w);
      var r := Claim(s.q, s.now).1;
      if r.Some? {
        GainKeepsHolders(s, w, r.value, s');
      }
    } else if Quiet(PhaseOf(s, w)) {
      QuietFrame(c, s, w, env);
      QuietKeepsHolders(s, w, s');
    } else {
      ReleaseKeepsHolders(s, w, s');
    }
  }

  lemma CancelKeepsHolders(s: Sys, a: ActorId, id: JobId, user: string)
    requires Holders(s)
    ensures Holders(StartCancelStep(s, a, id, user))
  {
    CancelConserves(s.q, id, s.now);
    var s' := StartCancelStep(s, a, id, user);
    assert s'.workers == s.workers && s'.h.holder == s.h.holder && s'.q.claimed == s.q.claimed;
    hide StartCancelStep, Cancel, Census, Promote;
  }

  lemma StepKeepsHolders(c: Config, s: Sys, a: Action)
    requires Places(s) && Holders(s)
    ensures Holders(Step(c, s, a))
  {
    hide WorkStep, StartCancelStep, Places;
    match a {
      case Work(w, env) => WorkKeepsHolders(c, s, w, env);
      case StartCancel(actor, id, user) => CancelKeepsHolders(s, actor, id, user);
      case _ =>
    }
  }
}

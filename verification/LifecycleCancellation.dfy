/** A cancel request against a claimed job: the registry invariant, and what a recorded request brings about. */
module LifecycleCancellation {
  import opened Wrappers
  import opened JobQueue
  import opened Lifecycle
  import opened LifecycleInvariants
  import opened LifecycleRetries
  import opened LifecycleEndings
  import Registry = InFlightRegistry

  /** The phases of an attempt before its last look at the cancellation flag. */
  predicate Undecided(p: Phase) {
    p.Attaching? || p.AnnouncingRunning? || p.Executing?
  }

  predicate HasToken(p: Phase) {
    p.AnnouncingRunning? || p.Executing?
  }

  /** Tokens are fresh; an attempt that started clean still has its own token in the registry. */
  ghost predicate Tokens(s: Sys) {
    && Registry.Sound(s.reg)
    && (forall t :: t in s.reg.cancelled ==> t < s.nextToken)
    && (forall id :: id in s.reg.tokens ==> s.reg.tokens[id] < s.nextToken)
    && (forall w :: w in s.workers && HasToken(s.workers[w]) && s.workers[w].job.id in s.h.clean ==>
          var id := s.workers[w].job.id; id in s.reg.tokens && s.reg.tokens[id] == s.workers[w].token)
    && (forall w :: w in s.workers && s.workers[w].Removing? && s.workers[w].ending.EndRequeued? ==>
          !(s.workers[w].job.id in s.h.clean && s.workers[w].job.id in s.q.claimed))
  }

  /** A worker about to remove the entry of `id` is not in the way of a clean attempt at `id`. */
  lemma RemoverIsHarmless(s: Sys, w: WorkerId)
    requires Tokens(s) && Endings(s) && Places(s) && PhaseOf(s, w).Removing?
    ensures !(PhaseOf(s, w).job.id in s.h.clean && PhaseOf(s, w).job.id in s.q.claimed)
  {
    var p := PhaseOf(s, w);
    if Finishing(p).Some? {
      assert FinishOk(FactsOf(s, p.job.id), p);
      OverOnce(s, p.job.id);
    }
  }

  lemma RemoveKeepsTokens(s: Sys, w: WorkerId, job: Job, ending: Ending)
    requires Tokens(s) && Holders(s) && PhaseOf(s, w) == Removing(job, ending)
    requires !(job.id in s.h.clean && job.id in s.q.claimed)
    ensures Tokens(RemoveEntry(s, w, job, ending))
  {
    var s' := RemoveEntry(s, w, job, ending);
    forall v | v in s'.workers && HasToken(s'.workers[v]) && s'.workers[v].job.id in s'.h.clean
      ensures s'.workers[v].job.id != job.id
    {
      assert Held(s.workers[v]).Some?;
    }
  }

  /** Nobody has a token for an id that is not claimed. */
  lemma TokensAreForClaimed(s: Sys, id: JobId)
    requires Holders(s) && id !in s.q.claimed
    ensures forall v :: v in s.workers && HasToken(s.workers[v]) ==> s.workers[v].job.id != id
  {
    forall v | v in s.workers && HasToken(s.workers[v]) ensures s.workers[v].job.id != id {
      assert Held(s.workers[v]).Some?;
    }
  }

  lemma GainKeepsTokens(s: Sys, w: WorkerId, job: Job, s': Sys)
    requires Tokens(s) && s'.reg == s.reg && s'.nextToken == s.nextToken
    requires forall v :: v in s.workers && HasToken(s.workers[v]) ==> s.workers[v].job.id != job.id
    requires s'.workers == s.workers[w := Attaching(job)] && s'.q.claimed == s.q.claimed[job.id := job]
    requires s'.h.clean == if RemovalPending(s, job.id) then s.h.clean - {job.id} else s.h.clean + {job.id}
    ensures Tokens(s')
  {
  }

  lemma ClaimKeepsTokens(s: Sys, w: WorkerId)
    requires Tokens(s) && Holders(s) && Places(s) && PhaseOf(s, w).Idle?
    ensures Tokens(ClaimNext(s, w))
  {
    ClaimShape(s, w);
    hide Places, Claim, Ready, RemovalPending, HasToken;
    var s', r := ClaimNext(s, w), Claim(s.q, s.now).1;
    if r.Some? {
      TokensAreForClaimed(s, r.value.id);
      hide Holders, Tokens;
      GainKeepsTokens(s, w, r.value, s');
    }
  }

  /** The steps of a worker that neither attach, remove, claim nor let go. */
  lemma PassingKeepsTokens(c: Config, s: Sys, w: WorkerId, env: Env)
    requires Tokens(s) && Quiet(PhaseOf(s, w)) && !PhaseOf(s, w).Attaching? && !PhaseOf(s, w).Removing?
    ensures Tokens(WorkStep(c, s, w, env))
  {
    hide ClaimNext, RemoveEntry, CompleteJob, FailJob, AttachToken, Tokens;
    PassKeepsTokens(s, w, WorkStep(c, s, w, env));
  }

  lemma WorkKeepsTokens(c: Config, s: Sys, w: WorkerId, env: Env)
    requires Tokens(s) && Holders(s) && Places(s) && Endings(s)
    ensures Tokens(WorkStep(c, s, w, env))
  {
    var p := PhaseOf(s, w);
    hide Tokens, Holders, Places, Endings, ClaimNext, RemoveEntry, CompleteJob, FailJob, AttachToken, Announce;
    if p.Removing? {
      RemoverIsHarmless(s, w);
      RemoveKeepsTokens(s, w, p.job, p.ending);
    } else if p.Idle? {
      ClaimKeepsTokens(s, w);
    } else if p.Attaching? {
      AttachKeepsTokens(s, w, p.job);
    } else if p.Completing? || p.Failing? {
      LeaveKeepsTokens(c, s, w);
    } else {
      PassingKeepsTokens(c, s, w, env);
    }
  }

  lemma AttachKeepsTokens(s: Sys, w: WorkerId, job: Job)
    requires Tokens(s) && Holders(s) && PhaseOf(s, w) == Attaching(job)
    ensures Tokens(AttachToken(s, w, job))
  {
    HeldIsStored(s, w);
    forall v | v in s.workers && v != w && HasToken(s.workers[v]) ensures s.workers[v].job.id != job.id {
      assert Held(s.workers[v]).Some?;
    }
  }

  /** A worker that lets go of its job goes on to remove the entry of an id that is not claimed any more. */
  lemma LetGoKeepsTokens(s: Sys, w: WorkerId, job: Job, s': Sys)
    requires Tokens(s) && s'.reg == s.reg && s'.nextToken == s.nextToken && s'.h.clean == s.h.clean
    requires s'.q.claimed == s.q.claimed - {job.id} && s'.workers == s.workers[w := PhaseOf(s', w)]
    requires PhaseOf(s', w).Removing? && PhaseOf(s', w).job == job
    ensures Tokens(s')
  {
    hide Registry.Sound;
  }

  lemma LeaveKeepsTokens(c: Config, s: Sys, w: WorkerId)
    requires Tokens(s) && Holders(s)
    requires PhaseOf(s, w).Completing? || PhaseOf(s, w).Failing?
    ensures PhaseOf(s, w).Completing? ==> Tokens(CompleteJob(s, w, PhaseOf(s, w).job, PhaseOf(s, w).ending))
    ensures PhaseOf(s, w).Failing? ==> Tokens(FailJob(c, s, w, PhaseOf(s, w).job, PhaseOf(s, w).permanent))
  {
    var p := PhaseOf(s, w);
    HeldIsStored(s, w);
    hide Tokens, Holders;
    LetGoKeepsTokens(s, w, p.job, if p.Completing? then CompleteJob(s, w, p.job, p.ending)
                                  else FailJob(c, s, w, p.job, p.permanent));
  }

  /** A step that leaves the registry, the claims and every other worker alone, and does not attach or remove. */
  lemma PassKeepsTokens(s: Sys, w: WorkerId, s': Sys)
    requires Tokens(s) && s'.reg == s.reg && s'.nextToken == s.nextToken && s'.h.clean == s.h.clean
    requires s'.q.claimed == s.q.claimed && s'.workers == s.workers[w := PhaseOf(s', w)]
    requires !PhaseOf(s', w).Removing?
    requires HasToken(PhaseOf(s', w)) ==>
      HasToken(PhaseOf(s, w)) && PhaseOf(s', w).job == PhaseOf(s, w).job && PhaseOf(s', w).token == PhaseOf(s, w).token
    ensures Tokens(s')
  {
  }

  lemma RequestKeepsTokens(s: Sys, a: ActorId, at: string)
    requires Tokens(s) && a in s.actors
    ensures Tokens(ContinueCancelStep(s, a, at))
  {
  }

  lemma CancelKeepsTokens(s: Sys, a: ActorId, id: JobId, user: string)
    requires Tokens(s)
    ensures Tokens(StartCancelStep(s, a, id, user))
  {
    CancelConserves(s.q, id, s.now);
    hide Cancel, Ready, Census;
  }

  lemma StepKeepsTokens(c: Config, s: Sys, a: Action)
    requires Tokens(s) && Holders(s) && Places(s) && Endings(s)
    ensures Tokens(Step(c, s, a))
  {
    hide Holders, Places, Endings;
    match a {
      case EnqueueJob(id, payload) =>
      case Advance(nanos) =>
      case Work(w, env) => WorkKeepsTokens(c, s, w, env);
      case StartCancel(actor, id, user) => CancelKeepsTokens(s, actor, id, user);
      case ContinueCancel(actor, at) => if actor in s.actors { RequestKeepsTokens(s, actor, at); }
    }
  }

  // ----- What a recorded request brings about

  /**
   The attempt at `id` has yet to take its last look at the flag, and will find it set: its token is cancelled, or it has
   none yet and a request is on record that no worker is about to remove.
   */
  ghost predicate Caught(s: Sys, id: JobId) {
    && id in s.h.holder
    && match PhaseOf(s, s.h.holder[id])
       case Attaching(_) => id in s.reg.requests && !RemovalPending(s, id)
       case AnnouncingRunning(_, token) => token in s.reg.cancelled
       case Executing(_, token) => token in s.reg.cancelled
       case _ => false
  }

  /** The attempt has seen that it is cancelled and completes its job. */
  ghost predicate Leaving(s: Sys, id: JobId) {
    id in s.h.holder && PhaseOf(s, s.h.holder[id]).Completing? && PhaseOf(s, s.h.holder[id]).ending.EndCancelled?
  }

  /** The attempt at `id` ends cancelled, whatever happens next. */
  ghost predicate Doomed(s: Sys, id: JobId) {
    Caught(s, id) || Leaving(s, id) || id in s.h.endedCancelled
  }

  /** The step of the worker that holds a doomed id. */
  lemma HolderStaysDoomed(c: Config, s: Sys, w: WorkerId, env: Env, id: JobId)
    requires Holders(s) && id in s.h.holder && s.h.holder[id] == w
    requires Caught(s, id) || Leaving(s, id)
    ensures Doomed(WorkStep(c, s, w, env), id)
    ensures forall e: Event :: e in WorkStep(c, s, w, env).h.log[|s.h.log|..] ==> e == ControlUpdated(id, ShowRunning)
    ensures s.h.log <= WorkStep(c, s, w, env).h.log
  {
    assert id in s.q.claimed;
    assert Held(PhaseOf(s, w)) == Some(s.q.claimed[id]);
    hide Holders, ClaimNext, FailJob, RemoveEntry, Announce, RemovalPending;
  }

  /** A job handed out was waiting, so it is not over. */
  lemma HandedOutWasWaiting(s: Sys)
    requires Places(s) && Claim(s.q, s.now).1.Some?
    ensures var id := Claim(s.q, s.now).1.value.id; id !in s.h.completed && id !in s.q.claimed
  {
    var p := Promoted(s);
    PromotionKeepsPlaces(s);
    var id := p.q.pending[0].id;
    IdsOfMember(p.q.pending, id);
    assert p.q.pending[0] in p.q.pending;
    assert multiset(s.h.known)[id] <= 1;
    assert Census(p.q)[id] >= multiset(IdsOf(p.q.pending))[id] + multiset(p.q.claimed.Keys)[id];
  }

  /** Nothing that `Caught` and `Leaving` speak of changes for `id`. */
  lemma SameDoom(s: Sys, s': Sys, w: WorkerId, id: JobId)
    requires Doomed(s, id) && id in s.h.holder && s.h.holder[id] != w
    requires id in s'.h.holder && s'.h.holder[id] == s.h.holder[id] && s.reg.cancelled <= s'.reg.cancelled
    requires id in s.reg.requests && !RemovalPending(s, id) ==> id in s'.reg.requests && !RemovalPending(s', id)
    requires s'.workers == s.workers[w := PhaseOf(s', w)] || s'.workers == s.workers
    requires s.h.endedCancelled <= s'.h.endedCancelled
    ensures Doomed(s', id)
  {
    hide RemovalPending;
    assert PhaseOf(s', s'.h.holder[id]) == PhaseOf(s, s.h.holder[id]);
  }

  /** A removal of `id` is pending after the step of a worker only if it was before, or that worker has it to do now. */
  lemma NoNewRemoval(s: Sys, s': Sys, w: WorkerId, id: JobId)
    requires s'.workers == s.workers[w := PhaseOf(s', w)] || s'.workers == s.workers
    requires var p := PhaseOf(s', w); !(p.Removing? && p.ending.EndRequeued? && p.job.id == id)
    ensures RemovalPending(s', id) ==> RemovalPending(s, id)
  {
    if RemovalPending(s', id) {
      var v :| v in s'.workers && s'.workers[v].Removing? && s'.workers[v].ending.EndRequeued?
        && s'.workers[v].job.id == id;
      assert v in s.workers && s.workers[v] == s'.workers[v];
    }
  }

  /** A quiet step drops a request only when it removes that entry. */
  lemma QuietRequests(c: Config, s: Sys, w: WorkerId, env: Env, id: JobId)
    requires Quiet(PhaseOf(s, w)) && id in s.reg.requests
    requires !(PhaseOf(s, w).Removing? && PhaseOf(s, w).job.id == id)
    ensures id in WorkStep(c, s, w, env).reg.requests
  {
    hide ClaimNext, CompleteJob, FailJob;
  }

  lemma QuietRegistry(c: Config, s: Sys, w: WorkerId, env: Env)
    requires Quiet(PhaseOf(s, w))
    ensures s.reg.cancelled <= WorkStep(c, s, w, env).reg.cancelled && !PhaseOf(WorkStep(c, s, w, env), w).Removing?
  {
    hide ClaimNext, CompleteJob, FailJob;
  }

  /** Who removes the entry of a claimed id does so after a requeue. */
  lemma RemoverOfClaimed(s: Sys, w: WorkerId)
    requires Endings(s) && Places(s) && PhaseOf(s, w).Removing? && PhaseOf(s, w).job.id in s.q.claimed
    ensures RemovalPending(s, PhaseOf(s, w).job.id)
  {
    var p := PhaseOf(s, w);
    if Finishing(p).Some? {
      assert FinishOk(FactsOf(s, p.job.id), p);
      OverOnce(s, p.job.id);
    }
    assert w in s.workers;
  }

  /** A quiet step of a worker that does not hold the doomed id. */
  lemma QuietLeavesItDoomed(c: Config, s: Sys, w: WorkerId, env: Env, id: JobId)
    requires Holders(s) && Places(s) && Endings(s) && Doomed(s, id)
    requires id in s.h.holder && s.h.holder[id] != w && Quiet(PhaseOf(s, w))
    ensures Doomed(WorkStep(c, s, w, env), id)
  {
    var p := PhaseOf(s, w);
    assert id in s.q.claimed;
    hide Holders, Places, Endings, WorkStep, Doomed, RemovalPending;
    if p.Removing? && p.job.id == id {
      RemoverOfClaimed(s, w);
    }
    QuietFrame(c, s, w, env);
    QuietRegistry(c, s, w, env);
    NoNewRemoval(s, WorkStep(c, s, w, env), w, id);
    if id in s.reg.requests && !(p.Removing? && p.job.id == id) {
      QuietRequests(c, s, w, env, id);
    }
    SameDoom(s, WorkStep(c, s, w, env), w, id);
  }

  lemma ClaimLeavesItDoomed(s: Sys, w: WorkerId, id: JobId)
    requires Places(s) && Doomed(s, id) && id in s.h.holder && s.h.holder[id] != w && id in s.q.claimed
    requires PhaseOf(s, w).Idle?
    ensures Doomed(ClaimNext(s, w), id)
  {
    if Claim(s.q, s.now).1.Some? {
      HandedOutWasWaiting(s);
    }
    hide Places, Claim, Ready, Doomed, RemovalPending;
    NoNewRemoval(s, ClaimNext(s, w), w, id);
    SameDoom(s, ClaimNext(s, w), w, id);
  }

  lemma LeavingLeavesItDoomed(c: Config, s: Sys, w: WorkerId, id: JobId)
    requires Doomed(s, id) && id in s.h.holder && s.h.holder[id] != w
    requires Held(PhaseOf(s, w)).Some? && Held(PhaseOf(s, w)).value.id != id
    ensures PhaseOf(s, w).Completing? ==> Doomed(CompleteJob(s, w, PhaseOf(s, w).job, PhaseOf(s, w).ending), id)
    ensures PhaseOf(s, w).Failing? ==> Doomed(FailJob(c, s, w, PhaseOf(s, w).job, PhaseOf(s, w).permanent), id)
  {
    hide Doomed, Fail, RemovalPending;
    if PhaseOf(s, w).Completing? {
      NoNewRemoval(s, CompleteJob(s, w, PhaseOf(s, w).job, PhaseOf(s, w).ending), w, id);
      SameDoom(s, CompleteJob(s, w, PhaseOf(s, w).job, PhaseOf(s, w).ending), w, id);
    } else if PhaseOf(s, w).Failing? {
      NoNewRemoval(s, FailJob(c, s, w, PhaseOf(s, w).job, PhaseOf(s, w).permanent), w, id);
      SameDoom(s, FailJob(c, s, w, PhaseOf(s, w).job, PhaseOf(s, w).permanent), w, id);
    }
  }

  /** A step on the queue of a worker that does not hold the doomed id. */
  lemma LoudLeavesItDoomed(c: Config, s: Sys, w: WorkerId, env: Env, id: JobId)
    requires Holders(s) && Places(s) && Doomed(s, id)
    requires id in s.h.holder && s.h.holder[id] != w && !Quiet(PhaseOf(s, w))
    ensures Doomed(WorkStep(c, s, w, env), id)
  {
    assert id in s.q.claimed;
    if !PhaseOf(s, w).Idle? {
      HeldIsStored(s, w);
    }
    hide Holders, Places, Doomed, ClaimNext, CompleteJob, FailJob, AttachToken, RemoveEntry, Announce;
    if PhaseOf(s, w).Idle? {
      ClaimLeavesItDoomed(s, w, id);
    } else {
      LeavingLeavesItDoomed(c, s, w, id);
    }
  }

  /** All that the step of a worker adds to the log. */
  ghost function SaidBy(s: Sys, w: WorkerId, env: Env): seq<Event> {
    if PhaseOf(s, w).Idle? && Claim(s.q, s.now).1.Some? then [JobClaimed(Claim(s.q, s.now).1.value.id)]
    else Said(PhaseOf(s, w), env)
  }

  lemma WorkLog(c: Config, s: Sys, w: WorkerId, env: Env)
    ensures WorkStep(c, s, w, env).h.log == s.h.log + SaidBy(s, w, env)
    ensures s.h.endedCancelled <= WorkStep(c, s, w, env).h.endedCancelled
  {
    assert s.h.log + [] == s.h.log;
    if Quiet(PhaseOf(s, w)) {
      QuietFrame(c, s, w, env);
      hide WorkStep;
    } else {
      hide Claim, Fail, Ready, AttachToken, RemoveEntry, Announce;
    }
  }

  /** A doomed job is claimed by a worker that posts no report, or it is completed. */
  lemma DoomedPlace(s: Sys, id: JobId)
    requires Holders(s) && Places(s) && Endings(s) && Doomed(s, id)
    ensures !IsDead(s, id) && (id in s.q.claimed || id in s.h.completed)
    ensures forall w :: Held(PhaseOf(s, w)).Some? && Held(PhaseOf(s, w)).value.id == id ==> !PhaseOf(s, w).PostingReport?
  {
    assert IdOk(FactsOf(s, id));
    OverOnce(s, id);
    assert id in s.h.holder <==> id in s.q.claimed;
    forall w | Held(PhaseOf(s, w)).Some? && Held(PhaseOf(s, w)).value.id == id
      ensures !PhaseOf(s, w).PostingReport?
    {
      HeldIsStored(s, w);
    }
  }

  lemma NoticeIsForTheDead(s: Sys, w: WorkerId)
    requires Endings(s) && PhaseOf(s, w).PostingNotice?
    ensures IsDead(s, PhaseOf(s, w).job.id)
  {
    assert FinishOk(FactsOf(s, PhaseOf(s, w).job.id), PhaseOf(s, w));
  }

  /** A doomed job is handed out no more, and nothing is posted for it. */
  lemma DoomedIsSilent(s: Sys, w: WorkerId, env: Env, id: JobId)
    requires Holders(s) && Places(s) && Endings(s) && Doomed(s, id)
    ensures JobClaimed(id) !in SaidBy(s, w, env)
    ensures ReportPosted(id) !in SaidBy(s, w, env) && NoticePosted(id) !in SaidBy(s, w, env)
  {
    hide Holders, Places, Endings, Claim, Doomed, IsDead;
    DoomedPlace(s, id);
    if PhaseOf(s, w).Idle? && Claim(s.q, s.now).1.Some? {
      HandedOutWasWaiting(s);
    } else if PhaseOf(s, w).PostingNotice? {
      NoticeIsForTheDead(s, w);
    }
  }

  lemma CountsUnchanged(log: seq<Event>, said: seq<Event>, id: JobId)
    requires JobClaimed(id) !in said && ReportPosted(id) !in said && NoticePosted(id) !in said
    ensures Claims(log + said, id) == Claims(log, id)
    ensures Reports(log + said, id) == Reports(log, id) && Notices(log + said, id) == Notices(log, id)
  {
    assert multiset(said)[JobClaimed(id)] == multiset(said)[ReportPosted(id)] == multiset(said)[NoticePosted(id)] == 0;
  }

  /** What stays the same for a doomed job. */
  ghost predicate Unheard(s: Sys, s': Sys, id: JobId) {
    && Claims(s'.h.log, id) == Claims(s.h.log, id)
    && Reports(s'.h.log, id) == Reports(s.h.log, id)
    && Notices(s'.h.log, id) == Notices(s.h.log, id)
  }

  lemma WorkKeepsDoomed(c: Config, s: Sys, w: WorkerId, env: Env, id: JobId)
    requires Holders(s) && Places(s) && Endings(s) && Doomed(s, id)
    ensures Doomed(WorkStep(c, s, w, env), id) && Unheard(s, WorkStep(c, s, w, env), id)
  {
    DoomedIsSilent(s, w, env, id);
    WorkLog(c, s, w, env);
    CountsUnchanged(s.h.log, SaidBy(s, w, env), id);
    hide Holders, Places, Endings, WorkStep, SaidBy, Claims, Reports, Notices;
    if id !in s.h.endedCancelled {
      if s.h.holder[id] == w {
        HolderStaysDoomed(c, s, w, env, id);
      } else {
        if Quiet(PhaseOf(s, w)) {
          QuietLeavesItDoomed(c, s, w, env, id);
        } else {
          LoudLeavesItDoomed(c, s, w, env, id);
        }
      }
    }
  }

  /** Requests and cancelled tokens that are added do no harm. */
  lemma DoomGrows(s: Sys, s': Sys, id: JobId)
    requires Doomed(s, id) && s'.workers == s.workers && s'.h.holder == s.h.holder
    requires s.h.endedCancelled <= s'.h.endedCancelled
    requires s.reg.requests.Keys <= s'.reg.requests.Keys && s.reg.cancelled <= s'.reg.cancelled
    ensures Doomed(s', id)
  {
    assert RemovalPending(s', id) ==> RemovalPending(s, id);
  }

  lemma CancelKeepsDoomed(s: Sys, a: ActorId, cancelled: JobId, user: string, id: JobId)
    requires Doomed(s, id)
    ensures Doomed(StartCancelStep(s, a, cancelled, user), id)
    ensures StartCancelStep(s, a, cancelled, user).h.log == s.h.log
  {
    hide Cancel, Ready, Doomed;
    DoomGrows(s, StartCancelStep(s, a, cancelled, user), id);
  }

  lemma ContinueKeepsDoomed(s: Sys, a: ActorId, at: string, id: JobId)
    requires Doomed(s, id) && a in s.actors
    ensures Doomed(ContinueCancelStep(s, a, at), id) && Unheard(s, ContinueCancelStep(s, a, at), id)
  {
    hide Doomed, Claims, Reports, Notices;
    var s' := ContinueCancelStep(s, a, at);
    DoomGrows(s, s', id);
    assert s.h.log + [] == s.h.log;
    var said := match s.actors[a]
      case Requesting(_, _) => []
      case AnnouncingRequest(i) => [ControlUpdated(i, ShowCancelRequested)]
      case AnnouncingRemoval(i) => [ControlUpdated(i, ShowCancelled)];
    CountsUnchanged(s.h.log, said, id);
  }

  lemma StepKeepsDoomed(c: Config, s: Sys, a: Action, id: JobId)
    requires Holders(s) && Places(s) && Endings(s) && Doomed(s, id)
    ensures Doomed(Step(c, s, a), id) && Unheard(s, Step(c, s, a), id)
  {
    hide WorkStep, StartCancelStep, ContinueCancelStep, Holders, Places, Endings, Doomed;
    match a {
      case Work(w, env) => WorkKeepsDoomed(c, s, w, env, id);
      case StartCancel(actor, cancelled, user) => CancelKeepsDoomed(s, actor, cancelled, user, id);
      case ContinueCancel(actor, at) => if actor in s.actors { ContinueKeepsDoomed(s, actor, at, id); }
      case _ => DoomGrows(s, Step(c, s, a), id);
    }
  }
}

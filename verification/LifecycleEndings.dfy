/** What a job's followers get to see: at most one report or notice, and at most one final control update. */
module LifecycleEndings {
  import opened Wrappers
  import opened JobQueue
  import opened Lifecycle
  import opened LifecycleInvariants
  import opened LifecycleRetries
  import Registry = InFlightRegistry

  ghost predicate IsDead(s: Sys, id: JobId) {
    exists d :: d in s.q.dead && d.job.id == id
  }

  predicate IsFinal(state: ControlState) {
    state.ShowCompleted? || state.ShowFailed? || state.ShowCancelled?
  }

  ghost function Reports(log: seq<Event>, id: JobId): nat {
    Count(log, ReportPosted(id))
  }

  ghost function Notices(log: seq<Event>, id: JobId): nat {
    Count(log, NoticePosted(id))
  }

  /** All that the end of one job depends on. */
  datatype Facts = Facts(
    terminal: nat,
    reports: nat,
    notices: nat,
    completed: bool,
    cancelled: bool,
    dead: bool,
    endedCancelled: bool,
    reported: bool)
  {
    predicate Over() {
      completed || cancelled || dead
    }
  }

  /** The worker of `id` has posted its report and is about to complete it. */
  ghost predicate IsReported(s: Sys, id: JobId) {
    id in s.h.holder && PhaseOf(s, s.h.holder[id]).Completing? && PhaseOf(s, s.h.holder[id]).ending.EndCompleted?
  }

  ghost function FactsOf(s: Sys, id: JobId): Facts {
    Facts(TerminalUpdates(s.h.log, id), Reports(s.h.log, id), Notices(s.h.log, id), id in s.h.completed,
          id in s.h.cancelled, IsDead(s, id), id in s.h.endedCancelled, IsReported(s, id))
  }

  predicate IdOk(f: Facts) {
    && f.terminal <= 1 && f.reports <= 1 && f.notices <= 1
    && (f.terminal > 0 ==> f.Over())
    && (f.notices > 0 ==> f.dead)
    && (f.reports > 0 ==> f.completed || f.reported)
    && (f.endedCancelled ==> f.completed && f.reports == 0)
  }

  /** The id a worker still has to finish up after its job is over. */
  function Finishing(p: Phase): Option<JobId> {
    match p
    case Removing(job, ending) => if ending.EndRequeued? then None else Some(job.id)
    case Announcing(job, ending) => if ending.EndRequeued? then None else Some(job.id)
    case PostingNotice(job) => Some(job.id)
    case _ => None
  }

  /** A worker that finishes a job up finds nothing said about its end yet. */
  predicate FinishOk(f: Facts, p: Phase) {
    if p.PostingNotice? then f.dead && f.notices == 0
    else if p.Removing? || p.Announcing? then
      f.terminal == 0 && (if p.ending.EndDead? then f.dead && f.notices == 0 else f.completed)
    else true
  }

  predicate ActorOk(f: Facts) {
    f.cancelled && f.terminal == 0
  }

  ghost predicate WorkersOk(s: Sys) {
    && (forall w :: w in s.workers && s.workers[w].Completing? ==>
          !s.workers[w].ending.EndRequeued? && !s.workers[w].ending.EndDead?)
    && (forall w :: w in s.workers && Finishing(s.workers[w]).Some? ==>
          FinishOk(FactsOf(s, Finishing(s.workers[w]).value), s.workers[w]))
    && (forall v, w :: v in s.workers && w in s.workers && Finishing(s.workers[v]).Some? && v != w ==>
          Finishing(s.workers[v]) != Finishing(s.workers[w]))
  }

  ghost predicate ActorsOk(s: Sys) {
    && (forall a :: a in s.actors && s.actors[a].AnnouncingRemoval? ==> ActorOk(FactsOf(s, s.actors[a].id)))
    && (forall a, b :: a in s.actors && b in s.actors && s.actors[a].AnnouncingRemoval? && a != b ==>
          s.actors[a] != s.actors[b])
  }

  ghost predicate Endings(s: Sys) {
    (forall id :: IdOk(FactsOf(s, id))) && WorkersOk(s) && ActorsOk(s)
  }

  // ----- One step changes the facts of one id

  /** No worker but `w`, and no cancel request but `a`, has a say about the end of `x`. */
  ghost predicate OnlyFor(s: Sys, x: JobId, w: Option<WorkerId>, a: Option<ActorId>) {
    && (forall v :: v in s.workers && Some(v) != w ==> Finishing(s.workers[v]) != Some(x))
    && (forall b :: b in s.actors && Some(b) != a ==> s.actors[b] != AnnouncingRemoval(x))
  }

  lemma WorkerFocusWorkers(s: Sys, s': Sys, w: WorkerId, x: JobId)
    requires WorkersOk(s)
    requires forall id :: id != x ==> FactsOf(s', id) == FactsOf(s, id)
    requires s'.workers == s.workers[w := PhaseOf(s', w)]
    requires FactsOf(s', x) == FactsOf(s, x) || OnlyFor(s, x, Some(w), None)
    requires var p := PhaseOf(s', w);
      && (p.Completing? ==> !p.ending.EndRequeued? && !p.ending.EndDead?)
      && (Finishing(p).Some? ==> Finishing(p) == Some(x) && FinishOk(FactsOf(s', x), p) && OnlyFor(s, x, Some(w), None))
    ensures WorkersOk(s')
  {
    hide FactsOf, FinishOk, Finishing;
  }

  lemma WorkerFocusActors(s: Sys, s': Sys, w: WorkerId, x: JobId)
    requires ActorsOk(s) && s'.actors == s.actors
    requires forall id :: id != x ==> FactsOf(s', id) == FactsOf(s, id)
    requires FactsOf(s', x) == FactsOf(s, x) || OnlyFor(s, x, Some(w), None)
    ensures ActorsOk(s')
  {
    hide FactsOf, ActorOk;
  }

  lemma ActorFocusWorkers(s: Sys, s': Sys, a: ActorId, x: JobId)
    requires WorkersOk(s) && s'.workers == s.workers
    requires forall id :: id != x ==> FactsOf(s', id) == FactsOf(s, id)
    requires FactsOf(s', x) == FactsOf(s, x) || OnlyFor(s, x, None, Some(a))
    ensures WorkersOk(s')
  {
    hide FactsOf, FinishOk, Finishing;
  }

  lemma ActorFocusActors(s: Sys, s': Sys, a: ActorId, x: JobId)
    requires ActorsOk(s)
    requires forall id :: id != x ==> FactsOf(s', id) == FactsOf(s, id)
    requires s'.actors == (if a in s'.actors then s.actors[a := s'.actors[a]] else s.actors - {a})
    requires FactsOf(s', x) == FactsOf(s, x) || OnlyFor(s, x, None, Some(a))
    requires a in s'.actors && s'.actors[a].AnnouncingRemoval? ==>
      s'.actors[a].id == x && ActorOk(FactsOf(s', x)) && OnlyFor(s, x, None, Some(a))
    ensures ActorsOk(s')
  {
    hide FactsOf, ActorOk;
  }

  lemma WorkerFocus(s: Sys, s': Sys, w: WorkerId, x: JobId)
    requires Endings(s)
    requires forall id :: id != x ==> FactsOf(s', id) == FactsOf(s, id)
    requires s'.workers == s.workers[w := PhaseOf(s', w)] && s'.actors == s.actors
    requires FactsOf(s', x) == FactsOf(s, x) || (OnlyFor(s, x, Some(w), None) && IdOk(FactsOf(s', x)))
    requires var p := PhaseOf(s', w);
      && (p.Completing? ==> !p.ending.EndRequeued? && !p.ending.EndDead?)
      && (Finishing(p).Some? ==> Finishing(p) == Some(x) && FinishOk(FactsOf(s', x), p) && OnlyFor(s, x, Some(w), None))
    ensures Endings(s')
  {
    hide FactsOf, IdOk, FinishOk, ActorOk, WorkersOk, ActorsOk;
    forall id ensures IdOk(FactsOf(s', id)) { assert IdOk(FactsOf(s, id)); }
    WorkerFocusWorkers(s, s', w, x);
    WorkerFocusActors(s, s', w, x);
  }

  lemma ActorFocus(s: Sys, s': Sys, a: ActorId, x: JobId)
    requires Endings(s)
    requires forall id :: id != x ==> FactsOf(s', id) == FactsOf(s, id)
    requires s'.workers == s.workers
    requires s'.actors == (if a in s'.actors then s.actors[a := s'.actors[a]] else s.actors - {a})
    requires FactsOf(s', x) == FactsOf(s, x) || (OnlyFor(s, x, None, Some(a)) && IdOk(FactsOf(s', x)))
    requires a in s'.actors && s'.actors[a].AnnouncingRemoval? ==>
      s'.actors[a].id == x && ActorOk(FactsOf(s', x)) && OnlyFor(s, x, None, Some(a))
    ensures Endings(s')
  {
    hide FactsOf, IdOk, FinishOk, ActorOk, WorkersOk, ActorsOk;
    forall id ensures IdOk(FactsOf(s', id)) { assert IdOk(FactsOf(s, id)); }
    ActorFocusWorkers(s, s', a, x);
    ActorFocusActors(s, s', a, x);
  }

  /** A job that is not over has nobody finishing it up. */
  lemma NotOverIsFree(s: Sys, x: JobId)
    requires Endings(s) && !FactsOf(s, x).Over()
    ensures OnlyFor(s, x, None, None)
  {
    hide FactsOf;
  }

  lemma FinisherIsAlone(s: Sys, w: WorkerId)
    requires Endings(s) && Places(s) && w in s.workers && Finishing(s.workers[w]).Some?
    ensures OnlyFor(s, Finishing(s.workers[w]).value, Some(w), None)
  {
    var x := Finishing(s.workers[w]).value;
    OverOnce(s, x);
    hide Places;
    assert FinishOk(FactsOf(s, x), s.workers[w]);
  }

  lemma AnnouncerIsAlone(s: Sys, a: ActorId)
    requires Endings(s) && Places(s) && a in s.actors && s.actors[a].AnnouncingRemoval?
    ensures OnlyFor(s, s.actors[a].id, None, Some(a))
  {
    var x := s.actors[a].id;
    OverOnce(s, x);
    hide Places;
    assert ActorOk(FactsOf(s, x));
    forall v | v in s.workers && Finishing(s.workers[v]).Some? ensures Finishing(s.workers[v]).value != x {
      assert FinishOk(FactsOf(s, Finishing(s.workers[v]).value), s.workers[v]);
    }
  }

  // ----- Exclusion, from the census

  lemma DeadAndKnown(s: Sys, id: JobId)
    ensures IsDead(s, id) <==> id in DeadIds(s)
  {
    DeadMember(s.q.dead, id);
  }

  /** A job ends in one way. */
  lemma OverOnce(s: Sys, id: JobId)
    requires Places(s)
    ensures id in s.h.cancelled ==> id !in s.h.completed && !IsDead(s, id) && id !in s.q.claimed
    ensures id in s.h.completed ==> !IsDead(s, id) && id !in s.q.claimed
    ensures IsDead(s, id) ==> id !in s.q.claimed
  {
    DeadAndKnown(s, id);
    assert multiset(s.h.known)[id] <= 1;
    assert Census(s.q)[id] >= DeadIds(s)[id] + multiset(s.q.claimed.Keys)[id];
  }

  lemma ClaimedIsFree(s: Sys, w: WorkerId)
    requires Endings(s) && Places(s) && Holders(s) && Held(PhaseOf(s, w)).Some?
    ensures var x := Held(PhaseOf(s, w)).value.id;
      && !FactsOf(s, x).Over() && OnlyFor(s, x, None, None) && x in s.h.holder && s.h.holder[x] == w
      && s.q.claimed[x] == Held(PhaseOf(s, w)).value
  {
    HeldIsStored(s, w);
    OverOnce(s, Held(PhaseOf(s, w)).value.id);
    NotOverIsFree(s, Held(PhaseOf(s, w)).value.id);
  }

  // ----- The steps

  lemma CountSay(log: seq<Event>, said: Event, e: Event)
    ensures Count(log + [said], e) == Count(log, e) + if said == e then 1 else 0
  {
  }

  lemma LogSay(log: seq<Event>, e: Event, id: JobId)
    ensures TerminalUpdates(log + [e], id) == TerminalUpdates(log, id)
         + if e.ControlUpdated? && e.id == id && IsFinal(e.state) then 1 else 0
    ensures Reports(log + [e], id) == Reports(log, id) + if e == ReportPosted(id) then 1 else 0
    ensures Notices(log + [e], id) == Notices(log, id) + if e == NoticePosted(id) then 1 else 0
  {
    CountSay(log, e, ControlUpdated(id, ShowCompleted));
    CountSay(log, e, ControlUpdated(id, ShowFailed));
    CountSay(log, e, ControlUpdated(id, ShowCancelled));
    CountSay(log, e, ReportPosted(id));
    CountSay(log, e, NoticePosted(id));
  }

  lemma SayFacts(s: Sys, s': Sys, e: Event)
    requires s'.h == s.h.(log := s.h.log + [e]) && s'.q.dead == s.q.dead
    requires forall id :: id != e.id ==> IsReported(s', id) == IsReported(s, id)
    ensures forall id :: id != e.id ==> FactsOf(s', id) == FactsOf(s, id)
    ensures FactsOf(s', e.id) == FactsOf(s, e.id).(
      terminal := FactsOf(s, e.id).terminal
        + (if e.ControlUpdated? && IsFinal(e.state) then 1 else 0),
      reports := FactsOf(s, e.id).reports + (if e.ReportPosted? then 1 else 0),
      notices := FactsOf(s, e.id).notices + (if e.NoticePosted? then 1 else 0),
      reported := IsReported(s', e.id))
  {
    hide IsReported, TerminalUpdates, Reports, Notices;
    forall id | id != e.id ensures FactsOf(s', id) == FactsOf(s, id) {
      LogSay(s.h.log, e, id);
      assert IsDead(s', id) == IsDead(s, id);
    }
    LogSay(s.h.log, e, e.id);
    assert IsDead(s', e.id) == IsDead(s, e.id);
  }

  /** Nothing is said and no place changes. */
  lemma SameFacts(s: Sys, s': Sys)
    requires s'.h.log == s.h.log && s'.q.dead == s.q.dead && s'.h.completed == s.h.completed
    requires s'.h.cancelled == s.h.cancelled && s'.h.endedCancelled == s.h.endedCancelled
    requires forall id :: IsReported(s', id) == IsReported(s, id)
    ensures forall id :: FactsOf(s', id) == FactsOf(s, id)
  {
    forall id ensures FactsOf(s', id) == FactsOf(s, id) {
      assert IsDead(s', id) == IsDead(s, id);
    }
  }

  /** A step that says at most one thing, about one job. */
  lemma SaidFacts(s: Sys, s': Sys, x: JobId, said: seq<Event>)
    requires s'.h == s.h.(log := s.h.log + said) && s'.q.dead == s.q.dead && |said| <= 1
    requires forall id :: IsReported(s', id) != IsReported(s, id) ==> id == x
    requires said == [] ==> IsReported(s', x) == IsReported(s, x)
    requires said != [] ==> said[0].id == x
    ensures forall id :: id != x ==> FactsOf(s', id) == FactsOf(s, id)
    ensures said == [] ==> FactsOf(s', x) == FactsOf(s, x)
    ensures said != [] ==>
      FactsOf(s', x) == FactsOf(s, x).(
        terminal := FactsOf(s, x).terminal + (if said[0].ControlUpdated? && IsFinal(said[0].state) then 1 else 0),
        reports := FactsOf(s, x).reports + (if said[0].ReportPosted? then 1 else 0),
        notices := FactsOf(s, x).notices + (if said[0].NoticePosted? then 1 else 0),
        reported := IsReported(s', x))
  {
    hide FactsOf, IsReported, IsDead;
    if said == [] {
      assert s.h.log + [] == s.h.log;
      SameFacts(s, s');
    } else {
      assert said == [said[0]];
      SayFacts(s, s', said[0]);
    }
  }

  /** A step of a worker that neither was nor gets past its report changes who is reported only for its own job. */
  lemma ReportedFrame(s: Sys, w: WorkerId, s': Sys)
    requires Holders(s) && s'.h.holder == s.h.holder && s'.workers == s.workers[w := PhaseOf(s', w)]
    ensures forall id :: IsReported(s', id) != IsReported(s, id) ==>
              Held(PhaseOf(s, w)).Some? && Held(PhaseOf(s, w)).value.id == id
  {
    forall id | IsReported(s', id) != IsReported(s, id)
      ensures Held(PhaseOf(s, w)).Some? && Held(PhaseOf(s, w)).value.id == id
    {
      assert s.h.holder[id] == w;
      assert id in s.q.claimed;
    }
  }

  lemma ClaimKeepsEndings(s: Sys, w: WorkerId)
    requires Endings(s) && Holders(s) && Places(s) && PhaseOf(s, w).Idle?
    ensures Endings(ClaimNext(s, w))
  {
    ClaimShape(s, w);
    hide Places;
    var s', r := ClaimNext(s, w), Claim(s.q, s.now).1;
    forall id ensures IsReported(s', id) == IsReported(s, id) {
      if id in s.h.holder {
        assert Held(PhaseOf(s, s.h.holder[id])).Some?;
      }
    }
    hide Claim, Ready, Endings;
    if r.None? {
      SameFacts(s, s');
      SameEndings(s, s');
    } else {
      ClaimedFacts(s, s', r.value.id);
      WorkerFocus(s, s', w, r.value.id);
    }
  }

  lemma ClaimedFacts(s: Sys, s': Sys, x: JobId)
    requires s'.h.log == s.h.log + [JobClaimed(x)] && s'.q.dead == s.q.dead && s'.h.completed == s.h.completed
    requires s'.h.cancelled == s.h.cancelled && s'.h.endedCancelled == s.h.endedCancelled
    requires forall id :: IsReported(s', id) == IsReported(s, id)
    ensures forall id :: FactsOf(s', id) == FactsOf(s, id)
  {
    assert multiset(s'.h.log) == multiset(s.h.log) + multiset{JobClaimed(x)};
    forall id ensures FactsOf(s', id) == FactsOf(s, id) {
      assert IsDead(s', id) == IsDead(s, id);
    }
  }

  lemma SameEndings(s: Sys, s': Sys)
    requires Endings(s) && s'.workers == s.workers && s'.actors == s.actors
    requires forall id :: FactsOf(s', id) == FactsOf(s, id)
    ensures Endings(s')
  {
    forall id ensures IdOk(FactsOf(s', id)) { assert IdOk(FactsOf(s, id)); }
    hide FactsOf, IdOk;
  }

  /** Before its job leaves the queue, a worker says nothing final but the report. */
  lemma WorkingKeepsEndings(c: Config, s: Sys, w: WorkerId, env: Env)
    requires Endings(s) && Places(s) && Holders(s) && Quiet(PhaseOf(s, w)) && Held(PhaseOf(s, w)).Some?
    ensures Endings(WorkStep(c, s, w, env))
  {
    var s', p, x := WorkStep(c, s, w, env), PhaseOf(s, w), Held(PhaseOf(s, w)).value.id;
    ClaimedIsFree(s, w);
    WorkingFrame(c, s, w, env);
    hide Places, WorkStep;
    ReportedFrame(s, w, s');
    assert IdOk(FactsOf(s, x));
    assert !IsReported(s, x);
    hide Endings, Holders;
    if Said(p, env) == [] {
      SameReported(s, w, s', x);
    }
    SaidFacts(s, s', x, Said(p, env));
    hide FactsOf, IsReported;
    WorkerFocus(s, s', w, x);
  }

  lemma SameReported(s: Sys, w: WorkerId, s': Sys, x: JobId)
    requires !IsReported(s, x) && !(PhaseOf(s', w).Completing? && PhaseOf(s', w).ending.EndCompleted?)
    requires x in s'.h.holder ==> s'.h.holder[x] == w
    requires forall id :: IsReported(s', id) != IsReported(s, id) ==> id == x
    ensures forall id :: IsReported(s', id) == IsReported(s, id)
  {
    assert !IsReported(s', x);
  }

  lemma CompleteFacts(s: Sys, w: WorkerId, job: Job, ending: Ending)
    requires Holders(s) && PhaseOf(s, w) == Completing(job, ending)
    ensures var s' := CompleteJob(s, w, job, ending);
      && (forall id :: id != job.id ==> FactsOf(s', id) == FactsOf(s, id))
      && FactsOf(s', job.id) == FactsOf(s, job.id).(
           completed := true, reported := false,
           endedCancelled := ending.EndCancelled? || FactsOf(s, job.id).endedCancelled)
  {
    HeldIsStored(s, w);
    var s' := CompleteJob(s, w, job, ending);
    assert s'.h.log == s.h.log;
    forall id ensures IsDead(s', id) == IsDead(s, id) {
    }
    forall id | id != job.id ensures IsReported(s', id) == IsReported(s, id) {
    }
  }

  lemma CompleteKeepsEndings(s: Sys, w: WorkerId, job: Job, ending: Ending)
    requires Endings(s) && Places(s) && Holders(s) && PhaseOf(s, w) == Completing(job, ending)
    ensures Endings(CompleteJob(s, w, job, ending))
  {
    ClaimedIsFree(s, w);
    hide Places;
    CompleteFacts(s, w, job, ending);
    assert IdOk(FactsOf(s, job.id));
    assert IsReported(s, job.id) == ending.EndCompleted?;
    assert w in s.workers && !ending.EndRequeued? && !ending.EndDead?;
    hide Endings, Holders;
    WorkerFocus(s, CompleteJob(s, w, job, ending), w, job.id);
  }

  /** What a failure changes in the facts: the job may now be dead. */
  lemma FailFacts(c: Config, s: Sys, w: WorkerId, job: Job, permanent: bool)
    requires Holders(s) && PhaseOf(s, w) == Failing(job, permanent)
    ensures var s' := FailJob(c, s, w, job, permanent);
      && s'.workers == s.workers[w := PhaseOf(s', w)] && s'.actors == s.actors
      && (forall id :: id != job.id ==> FactsOf(s', id) == FactsOf(s, id))
      && PhaseOf(s', w).Removing? && PhaseOf(s', w).job == job
      && (PhaseOf(s', w).ending.EndDead? || PhaseOf(s', w).ending.EndRequeued?)
      && (PhaseOf(s', w).ending.EndRequeued? ==> s'.q.dead == s.q.dead)
      && FactsOf(s', job.id) == FactsOf(s, job.id).(
           dead := PhaseOf(s', w).ending.EndDead? || FactsOf(s, job.id).dead, reported := false)
  {
    HeldIsStored(s, w);
    var s' := FailJob(c, s, w, job, permanent);
    assert s'.h.log == s.h.log;
    forall id | id != job.id ensures FactsOf(s', id) == FactsOf(s, id) {
      assert IsDead(s', id) == IsDead(s, id);
      assert IsReported(s', id) == IsReported(s, id);
    }
    if s'.workers[w].ending.EndDead? {
      assert s'.q.dead[|s.q.dead|] in s'.q.dead;
    }
    assert IsDead(s', job.id) == (s'.workers[w].ending.EndDead? || IsDead(s, job.id));
  }

  lemma FailKeepsEndings(c: Config, s: Sys, w: WorkerId, job: Job, permanent: bool)
    requires Endings(s) && Places(s) && Holders(s) && PhaseOf(s, w) == Failing(job, permanent)
    ensures Endings(FailJob(c, s, w, job, permanent))
  {
    ClaimedIsFree(s, w);
    hide Places;
    FailFacts(c, s, w, job, permanent);
    assert IdOk(FactsOf(s, job.id));
    assert !IsReported(s, job.id);
    hide Endings, FailJob, Holders, FactsOf;
    WorkerFocus(s, FailJob(c, s, w, job, permanent), w, job.id);
  }

  lemma FinishingFacts(c: Config, s: Sys, w: WorkerId, env: Env)
    requires Holders(s) && Quiet(PhaseOf(s, w)) && Finishing(PhaseOf(s, w)).Some?
    ensures var s', p, x := WorkStep(c, s, w, env), PhaseOf(s, w), Finishing(PhaseOf(s, w)).value;
      && (forall id :: id != x ==> FactsOf(s', id) == FactsOf(s, id))
      && FactsOf(s', x) == FactsOf(s, x).(
           terminal := FactsOf(s, x).terminal + (if p.Announcing? then 1 else 0),
           notices := FactsOf(s, x).notices + (if p.PostingNotice? && !env.Refused? then 1 else 0))
  {
    var s', p := WorkStep(c, s, w, env), PhaseOf(s, w);
    AfterFrame(c, s, w, env);
    hide WorkStep;
    ReportedFrame(s, w, s');
    hide Holders, FactsOf, IsReported;
    SaidFacts(s, s', Finishing(p).value, Said(p, env));
  }

  /** After its job left the queue, a worker removes the registry entry and says what there is to say. */
  lemma FinishingKeepsEndings(c: Config, s: Sys, w: WorkerId, env: Env)
    requires Endings(s) && Places(s) && Holders(s) && Quiet(PhaseOf(s, w)) && Finishing(PhaseOf(s, w)).Some?
    ensures Endings(WorkStep(c, s, w, env))
  {
    var s', p, x := WorkStep(c, s, w, env), PhaseOf(s, w), Finishing(PhaseOf(s, w)).value;
    FinisherIsAlone(s, w);
    OverOnce(s, x);
    AfterFrame(c, s, w, env);
    FinishingFacts(c, s, w, env);
    assert IdOk(FactsOf(s, x));
    assert FinishOk(FactsOf(s, x), p);
    hide Places, WorkStep, Endings, Holders, FactsOf;
    WorkerFocus(s, s', w, x);
  }

  /** A worker that requeued its job says nothing. */
  lemma RequeuedKeepsEndings(c: Config, s: Sys, w: WorkerId, env: Env)
    requires Endings(s) && Holders(s) && Quiet(PhaseOf(s, w))
    requires Finishing(PhaseOf(s, w)).None? && Held(PhaseOf(s, w)).None?
    ensures Endings(WorkStep(c, s, w, env))
  {
    var s' := WorkStep(c, s, w, env);
    AfterFrame(c, s, w, env);
    hide WorkStep;
    ReportedFrame(s, w, s');
    assert s.h.log + [] == s.h.log;
    SameFacts(s, s');
    hide Endings, FactsOf;
    WorkerFocus(s, s', w, PhaseOf(s, w).job.id);
  }

  lemma WorkKeepsEndings(c: Config, s: Sys, w: WorkerId, env: Env)
    requires Endings(s) && Places(s) && Holders(s)
    ensures Endings(WorkStep(c, s, w, env))
  {
    hide Places, Holders, Endings;
    var p := PhaseOf(s, w);
    if p.Idle? {
      ClaimKeepsEndings(s, w);
    } else if p.Completing? {
      CompleteKeepsEndings(s, w, p.job, p.ending);
    } else if p.Failing? {
      FailKeepsEndings(c, s, w, p.job, p.permanent);
    } else if Held(p).Some? {
      WorkingKeepsEndings(c, s, w, env);
    } else if Finishing(p).Some? {
      FinishingKeepsEndings(c, s, w, env);
    } else {
      RequeuedKeepsEndings(c, s, w, env);
    }
  }

  lemma CancelledWasWaiting(s: Sys, id: JobId)
    requires Places(s) && Cancel(s.q, id, s.now).1.Cancelled?
    ensures !FactsOf(s, id).Over() && id !in s.q.claimed
  {
    var q' := Cancel(s.q, id, s.now).0;
    CancelConserves(s.q, id, s.now);
    assert Census(s.q)[id] >= 1;
    assert multiset(s.h.known)[id] <= 1;
    DeadAndKnown(s, id);
    assert Census(q')[id] == 0;
    assert id !in multiset(IdsOf(DeadJobs(q'.dead)));
    assert multiset(q'.claimed.Keys)[id] == 0;
  }

  lemma CancelFacts(s: Sys, a: ActorId, id: JobId, user: string)
    requires a !in s.actors
    ensures var s', r := StartCancelStep(s, a, id, user), Cancel(s.q, id, s.now).1;
      && s'.workers == s.workers
      && s'.actors == (match r
                       case Cancelled(_) => s.actors[a := AnnouncingRemoval(id)]
                       case AlreadyClaimed => s.actors[a := Requesting(id, user)]
                       case NotFound => s.actors)
      && (forall i :: FactsOf(s', i) == FactsOf(s, i).(
                        cancelled := FactsOf(s, i).cancelled || (r.Cancelled? && i == id)))
  {
    var s' := StartCancelStep(s, a, id, user);
    CancelConserves(s.q, id, s.now);
    hide Cancel, Ready, Census;
    forall i ensures IsDead(s', i) == IsDead(s, i) && IsReported(s', i) == IsReported(s, i) {
    }
  }

  lemma CancelKeepsEndings(s: Sys, a: ActorId, id: JobId, user: string)
    requires Endings(s) && Places(s) && a !in s.actors
    ensures Endings(StartCancelStep(s, a, id, user))
  {
    var s', r := StartCancelStep(s, a, id, user), Cancel(s.q, id, s.now).1;
    CancelFacts(s, a, id, user);
    if r.Cancelled? {
      CancelledWasWaiting(s, id);
      NotOverIsFree(s, id);
      assert IdOk(FactsOf(s, id));
    }
    hide Places, StartCancelStep, Cancel, FactsOf, Endings;
    if a in s'.actors {
      ActorFocus(s, s', a, id);
    } else {
      SameEndings(s, s');
    }
  }

  /** What a cancel request says with a step after its first. */
  function Spoken(p: CancelPhase): seq<Event> {
    match p
    case Requesting(_, _) => []
    case AnnouncingRequest(id) => [ControlUpdated(id, ShowCancelRequested)]
    case AnnouncingRemoval(id) => [ControlUpdated(id, ShowCancelled)]
  }

  lemma ContinueShape(s: Sys, a: ActorId, at: string)
    requires a in s.actors
    ensures var s', p := ContinueCancelStep(s, a, at), s.actors[a];
      && s'.q == s.q && s'.workers == s.workers && s'.h == s.h.(log := s.h.log + Spoken(p))
      && s'.actors == (if p.Requesting? then s.actors[a := AnnouncingRequest(p.id)] else s.actors - {a})
      && forall i :: IsReported(s', i) == IsReported(s, i)
  {
    hide Registry.RequestCancel;
    assert s.h.log + [] == s.h.log;
  }

  lemma ContinueKeepsEndings(s: Sys, a: ActorId, at: string)
    requires Endings(s) && Places(s) && a in s.actors
    ensures Endings(ContinueCancelStep(s, a, at))
  {
    hide ContinueCancelStep;
    ContinueShape(s, a, at);
    var s', p := ContinueCancelStep(s, a, at), s.actors[a];
    if p.AnnouncingRemoval? {
      AnnouncerIsAlone(s, a);
      assert ActorOk(FactsOf(s, p.id));
    }
    assert IdOk(FactsOf(s, p.id));
    hide Places, IsReported, FactsOf, Endings;
    SaidFacts(s, s', p.id, Spoken(p));
    ActorFocus(s, s', a, p.id);
  }

  lemma StepKeepsEndings(c: Config, s: Sys, a: Action)
    requires Endings(s) && Places(s) && Holders(s)
    ensures Endings(Step(c, s, a))
  {
    hide Places, Holders, Endings;
    match a {
      case EnqueueJob(id, payload) => QuietFacts(s, Step(c, s, a));
      case Advance(nanos) => QuietFacts(s, Step(c, s, a));
      case Work(w, env) => WorkKeepsEndings(c, s, w, env);
      case StartCancel(actor, id, user) => if actor !in s.actors { CancelKeepsEndings(s, actor, id, user); }
      case ContinueCancel(actor, at) => if actor in s.actors { ContinueKeepsEndings(s, actor, at); }
    }
  }

  lemma QuietFacts(s: Sys, s': Sys)
    requires Endings(s) && s'.workers == s.workers && s'.actors == s.actors && s'.q.dead == s.q.dead
    requires s'.h == s.h.(known := s'.h.known, line := s'.h.line)
    ensures Endings(s')
  {
    forall id ensures IsReported(s', id) == IsReported(s, id) {
    }
    SameFacts(s, s');
    SameEndings(s, s');
  }
}

/**
 Two runs that lose an accepted cancel request. Nothing orders a worker's `registry.remove` after a requeue before the
 next claim of that job; only the back-off makes it likely. In the first run the late removal takes the new attempt's
 token away, a request is accepted afterwards, and the attempt still posts its report. The second needs one worker only,
 which drops a request that came between the failure of an attempt and its removal, and runs the job again.
 */
module LifecycleRace {
  import opened Wrappers
  import opened JobQueue
  import opened Lifecycle
  import opened LifecycleEndings
  import opened LifecycleCancellation
  import opened LifecycleTheorems
  import Registry = InFlightRegistry

  const CONFIG := Config(1, 0)
  const ID: JobId := "j"

  function Attempt(n: u32): Job {
    Job(ID, n, "")
  }

  /** The first worker takes the job, attaches token 0 and runs it; the attempt fails and is requeued. */
  const FAIL_ONCE: seq<Action> :=
    [EnqueueJob(ID, ""), Work(0, Fine), Work(0, Fine)]
    + [Work(0, Fine), Work(0, RunnerFailed(false)), Work(0, Fine)]

  /** The second worker takes the retry and attaches token 1; only then does the first remove the entry. */
  const REMOVE_LATE: seq<Action> := [Work(1, Fine), Work(1, Fine), Work(0, Fine)]

  /** A cancel request finds the job claimed and is accepted. */
  const REQUEST: seq<Action> := [StartCancel(0, ID, "u"), ContinueCancel(0, "t")]

  const FINISH: seq<Action> := [Work(1, Fine), Work(1, RunnerSucceeded), Work(1, Fine)]

  lemma ExecThree(c: Config, s: Sys, a: Action, b: Action, d: Action)
    ensures Exec(c, s, [a, b, d]) == Step(c, Step(c, Step(c, s, a), b), d)
  {
    hide Step;
    assert [a, b, d] == [a] + [b] + [d];
    ExecAppend(c, s, [a] + [b], [d]);
    ExecAppend(c, s, [a], [b]);
    ExecOne(c, s, a);
    ExecOne(c, Step(c, s, a), b);
    ExecOne(c, Step(c, Step(c, s, a), b), d);
  }

  /** The parts of a state that the race turns on. */
  ghost predicate Looks(s: Sys, q: Queue, tokens: map<JobId, Token>, asked: bool, workers: map<WorkerId, Phase>,
                        actors: map<ActorId, CancelPhase>, nextToken: nat, reports: nat) {
    && s.q == q && s.reg.tokens == tokens && s.reg.cancelled == {} && (ID in s.reg.requests <==> asked)
    && s.workers == workers && s.actors == actors && s.now == 0 && s.nextToken == nextToken
    && Reports(s.h.log, ID) == reports
    && (ID in q.claimed && 1 in workers && Held(workers[1]).Some? ==> ID in s.h.holder && s.h.holder[ID] == 1)
  }

  const RUNS_0 := EMPTY.(claimed := map[ID := Attempt(0)])
  const WAITS := EMPTY.(delayed := [DelayedJob(Attempt(1), 0)])
  const RUNS_1 := EMPTY.(claimed := map[ID := Attempt(1)])
  const FAILED := Removing(Attempt(0), EndRequeued)

  lemma Taken(c: Config)
    ensures Looks(Step(c, Step(c, INIT, EnqueueJob(ID, "")), Work(0, Fine)),
                  RUNS_0, map[], false, map[0 := Attaching(Attempt(0))], map[], 0, 0)
  {
    var s := Step(c, INIT, EnqueueJob(ID, ""));
    assert s.q == EMPTY.(pending := [Attempt(0)]);
  }

  lemma Attached(c: Config, s: Sys)
    requires Looks(s, RUNS_0, map[], false, map[0 := Attaching(Attempt(0))], map[], 0, 0)
    ensures Looks(Step(c, s, Work(0, Fine)), RUNS_0, map[ID := 0], false,
                  map[0 := AnnouncingRunning(Attempt(0), 0)], map[], 1, 0)
  {
  }

  lemma Announced(s: Sys)
    requires Looks(s, RUNS_0, map[ID := 0], false, map[0 := AnnouncingRunning(Attempt(0), 0)], map[], 1, 0)
    ensures Looks(Step(CONFIG, s, Work(0, Fine)), RUNS_0, map[ID := 0], false,
                  map[0 := Executing(Attempt(0), 0)], map[], 1, 0)
  {
    LogSay(s.h.log, ControlUpdated(ID, ShowRunning), ID);
    hide Reports, ClaimNext, AttachToken, CompleteJob, FailJob, RemoveEntry, Announce;
  }

  lemma Requeues(s: Sys)
    requires Looks(s, RUNS_0, map[ID := 0], false, map[0 := Executing(Attempt(0), 0)], map[], 1, 0)
    ensures Looks(Step(CONFIG, Step(CONFIG, s, Work(0, RunnerFailed(false))), Work(0, Fine)),
                  WAITS, map[ID := 0], false, map[0 := FAILED], map[], 1, 0)
  {
    hide Reports, ClaimNext, AttachToken, CompleteJob, RemoveEntry, Announce;
    var s2 := Step(CONFIG, s, Work(0, RunnerFailed(false)));
    assert s2.workers == map[0 := Failing(Attempt(0), false)];
    assert AvailableAt(0, 0, 1) == 0;
  }

  lemma Failed(s: Sys)
    requires Looks(s, RUNS_0, map[ID := 0], false, map[0 := AnnouncingRunning(Attempt(0), 0)], map[], 1, 0)
    ensures Looks(Step(CONFIG, Step(CONFIG, Step(CONFIG, s, Work(0, Fine)), Work(0, RunnerFailed(false))), Work(0, Fine)),
                  WAITS, map[ID := 0], false, map[0 := FAILED], map[], 1, 0)
  {
    hide Step, Looks;
    Announced(s);
    Requeues(Step(CONFIG, s, Work(0, Fine)));
  }

  lemma TakenAgain(c: Config, s: Sys)
    requires Looks(s, WAITS, map[ID := 0], false, map[0 := FAILED], map[], 1, 0)
    ensures Looks(Step(c, s, Work(1, Fine)), RUNS_1, map[ID := 0], false,
                  map[0 := FAILED, 1 := Attaching(Attempt(1))], map[], 1, 0)
  {
    assert Ready(s.q.delayed, 0) == s.q.delayed;
    assert JobsOf(s.q.delayed) == [Attempt(1)];
    assert Waiting(s.q.delayed, 0) == [];
    LogSay(s.h.log, JobClaimed(ID), ID);
  }

  lemma RemovedLate(c: Config, s: Sys)
    requires Looks(s, RUNS_1, map[ID := 0], false, map[0 := FAILED, 1 := Attaching(Attempt(1))], map[], 1, 0)
    ensures Looks(Step(c, Step(c, s, Work(1, Fine)), Work(0, Fine)), RUNS_1, map[], false,
                  map[0 := Idle, 1 := AnnouncingRunning(Attempt(1), 1)], map[], 2, 0)
  {
    var s1 := Step(c, s, Work(1, Fine));
    assert s1.workers == map[0 := FAILED, 1 := AnnouncingRunning(Attempt(1), 1)];
  }

  lemma Asked(c: Config, s: Sys)
    requires Looks(s, RUNS_1, map[], false, map[0 := Idle, 1 := AnnouncingRunning(Attempt(1), 1)], map[], 2, 0)
    ensures Looks(Step(c, Step(c, s, StartCancel(0, ID, "u")), ContinueCancel(0, "t")), RUNS_1, map[], true,
                  map[0 := Idle, 1 := AnnouncingRunning(Attempt(1), 1)], map[0 := AnnouncingRequest(ID)], 2, 0)
  {
    var s1 := Step(c, s, StartCancel(0, ID, "u"));
    assert s1.actors == map[0 := Requesting(ID, "u")];
  }

  lemma GoesOn(c: Config, s: Sys)
    requires s.workers == map[0 := Idle, 1 := AnnouncingRunning(Attempt(1), 1)]
    ensures var s1 := Step(c, s, Work(1, Fine));
      && s1.workers == map[0 := Idle, 1 := Executing(Attempt(1), 1)]
      && s1.reg == s.reg && s1.h.log == s.h.log + [ControlUpdated(ID, ShowRunning)]
  {
  }

  lemma Succeeds(c: Config, s: Sys)
    requires s.workers == map[0 := Idle, 1 := Executing(Attempt(1), 1)] && 1 !in s.reg.cancelled
    ensures var s1 := Step(c, s, Work(1, RunnerSucceeded));
      s1.workers == map[0 := Idle, 1 := PostingReport(Attempt(1))] && s1.h.log == s.h.log
  {
  }

  lemma Reported(c: Config, s: Sys)
    requires s.workers == map[0 := Idle, 1 := PostingReport(Attempt(1))]
    ensures Step(c, s, Work(1, Fine)).h.log == s.h.log + [ReportPosted(ID)]
  {
  }

  lemma Posted(c: Config, s: Sys)
    requires Looks(s, RUNS_1, map[], true, map[0 := Idle, 1 := AnnouncingRunning(Attempt(1), 1)],
                   map[0 := AnnouncingRequest(ID)], 2, 0)
    ensures Reports(Step(c, Step(c, Step(c, s, Work(1, Fine)), Work(1, RunnerSucceeded)), Work(1, Fine)).h.log, ID) == 1
  {
    hide Step;
    var s1 := Step(c, s, Work(1, Fine));
    GoesOn(c, s);
    Succeeds(c, s1);
    Reported(c, Step(c, s1, Work(1, RunnerSucceeded)));
    LogSay(s.h.log, ControlUpdated(ID, ShowRunning), ID);
    LogSay(s1.h.log, ReportPosted(ID), ID);
  }

  /** The request is on record while the attempt is undecided, and yet its report is posted. */
  lemma LateRemovalLosesACancel()
    ensures var asked := Exec(CONFIG, INIT, FAIL_ONCE + REMOVE_LATE + REQUEST);
      var done := Exec(CONFIG, INIT, FAIL_ONCE + REMOVE_LATE + REQUEST + FINISH);
      && ID in asked.reg.requests && ID in asked.h.holder && Undecided(PhaseOf(asked, asked.h.holder[ID]))
      && Reports(asked.h.log, ID) == 0 && Reports(done.h.log, ID) == 1
  {
    hide Exec, Step, Looks, Reports;
    var c := CONFIG;
    ExecThree(c, INIT, EnqueueJob(ID, ""), Work(0, Fine), Work(0, Fine));
    Taken(c);
    Attached(c, Step(c, Step(c, INIT, EnqueueJob(ID, "")), Work(0, Fine)));
    var s3 := Exec(c, INIT, [EnqueueJob(ID, ""), Work(0, Fine), Work(0, Fine)]);
    ExecThree(c, s3, Work(0, Fine), Work(0, RunnerFailed(false)), Work(0, Fine));
    Failed(s3);
    ExecAppend(c, INIT, [EnqueueJob(ID, ""), Work(0, Fine), Work(0, Fine)],
               [Work(0, Fine), Work(0, RunnerFailed(false)), Work(0, Fine)]);
    var s6 := Exec(c, INIT, FAIL_ONCE);
    ExecThree(c, s6, Work(1, Fine), Work(1, Fine), Work(0, Fine));
    TakenAgain(c, s6);
    RemovedLate(c, Step(c, s6, Work(1, Fine)));
    ExecAppend(c, INIT, FAIL_ONCE, REMOVE_LATE);
    var s9 := Exec(c, s6, REMOVE_LATE);
    assert REQUEST == [StartCancel(0, ID, "u")] + [ContinueCancel(0, "t")];
    ExecAppend(c, s9, [StartCancel(0, ID, "u")], [ContinueCancel(0, "t")]);
    ExecOne(c, s9, StartCancel(0, ID, "u"));
    ExecOne(c, Step(c, s9, StartCancel(0, ID, "u")), ContinueCancel(0, "t"));
    Asked(c, s9);
    ExecAppend(c, INIT, FAIL_ONCE + REMOVE_LATE, REQUEST);
    var asked := Exec(c, INIT, FAIL_ONCE + REMOVE_LATE + REQUEST);
    LooksAsked(asked);
    ExecThree(c, asked, Work(1, Fine), Work(1, RunnerSucceeded), Work(1, Fine));
    Posted(c, asked);
    ExecAppend(c, INIT, FAIL_ONCE + REMOVE_LATE + REQUEST, FINISH);
  }

  lemma LooksAsked(s: Sys)
    requires Looks(s, RUNS_1, map[], true, map[0 := Idle, 1 := AnnouncingRunning(Attempt(1), 1)],
                   map[0 := AnnouncingRequest(ID)], 2, 0)
    ensures ID in s.reg.requests && ID in s.h.holder && Undecided(PhaseOf(s, s.h.holder[ID]))
    ensures Reports(s.h.log, ID) == 0
  {
  }

  // ----- One worker alone

  /** Everything the run of a single worker depends on; its job is the only one. */
  ghost predicate Sole(s: Sys, q: Queue, reg: Registry.Registry<Token>, phase: Phase, reports: nat) {
    && s.q == q && s.reg == reg && s.workers == map[0 := phase] && s.now == 0 && Reports(s.h.log, ID) == reports
    && (ID in q.claimed ==> ID in s.h.holder && s.h.holder[ID] == 0)
  }

  const ASKED := Registry.CancellationInfo(ID, Some("u"), Some("t"))
  const ATTACHED: Registry.Registry<Token> := Registry.Registry(map[], map[ID := 0], {})
  const RECORDED: Registry.Registry<Token> := Registry.Registry(map[ID := ASKED], map[ID := 0], {0})
  const DROPPED: Registry.Registry<Token> := Registry.Registry(map[], map[], {0})
  const REATTACHED: Registry.Registry<Token> := Registry.Registry(map[], map[ID := 1], {0})

  /** The attempt fails, but the worker has yet to tell the queue; then the request is recorded. */
  const ABOUT_TO_FAIL: seq<Action> :=
    [EnqueueJob(ID, ""), Work(0, Fine), Work(0, Fine)] + [Work(0, Fine)] + [Work(0, RunnerFailed(false))]

  /** The same worker requeues the job, removes the entry and takes the job again. */
  const REQUEUE: seq<Action> := [Work(0, Fine), Work(0, Fine), Work(0, Fine)]

  const RUN_AGAIN: seq<Action> := [Work(0, Fine), Work(0, Fine), Work(0, RunnerSucceeded)]

  lemma SoleStart()
    ensures var t := Step(CONFIG, Step(CONFIG, INIT, EnqueueJob(ID, "")), Work(0, Fine));
      Sole(t, RUNS_0, INIT.reg, Attaching(Attempt(0)), 0) && t.nextToken == 0 && t.actors == map[]
  {
    var s := Step(CONFIG, INIT, EnqueueJob(ID, ""));
    assert s.q == EMPTY.(pending := [Attempt(0)]);
  }

  lemma SoleAttaches(s: Sys)
    requires Sole(s, RUNS_0, INIT.reg, Attaching(Attempt(0)), 0) && s.nextToken == 0 && s.actors == map[]
    ensures var t := Step(CONFIG, s, Work(0, Fine));
      Sole(t, RUNS_0, ATTACHED, AnnouncingRunning(Attempt(0), 0), 0) && t.nextToken == 1 && t.actors == map[]
  {
  }

  lemma SoleAnnounces(s: Sys, q: Queue, reg: Registry.Registry<Token>, job: Job, token: Token)
    requires Sole(s, q, reg, AnnouncingRunning(job, token), 0)
    ensures var t := Step(CONFIG, s, Work(0, Fine));
      Sole(t, q, reg, Executing(job, token), 0) && t.nextToken == s.nextToken && t.actors == s.actors
  {
    LogSay(s.h.log, ControlUpdated(job.id, ShowRunning), ID);
    hide Reports, ClaimNext, AttachToken, CompleteJob, FailJob, RemoveEntry, Announce;
  }

  lemma SoleFails(s: Sys)
    requires Sole(s, RUNS_0, ATTACHED, Executing(Attempt(0), 0), 0)
    ensures var t := Step(CONFIG, s, Work(0, RunnerFailed(false)));
      Sole(t, RUNS_0, ATTACHED, Failing(Attempt(0), false), 0) && t.nextToken == s.nextToken && t.actors == s.actors
  {
    hide Reports, ClaimNext, AttachToken, CompleteJob, FailJob, RemoveEntry, Announce;
  }

  lemma SoleAsked(s: Sys)
    requires Sole(s, RUNS_0, ATTACHED, Failing(Attempt(0), false), 0) && s.actors == map[]
    ensures var t := Step(CONFIG, Step(CONFIG, s, StartCancel(0, ID, "u")), ContinueCancel(0, "t"));
      Sole(t, RUNS_0, RECORDED, Failing(Attempt(0), false), 0) && t.nextToken == s.nextToken
  {
    var s1 := Step(CONFIG, s, StartCancel(0, ID, "u"));
    assert s1.actors == map[0 := Requesting(ID, "u")];
  }

  lemma SoleRequeues(s: Sys)
    requires Sole(s, RUNS_0, RECORDED, Failing(Attempt(0), false), 0)
    ensures var t := Step(CONFIG, s, Work(0, Fine)); Sole(t, WAITS, RECORDED, FAILED, 0) && t.nextToken == s.nextToken
  {
    hide Reports, ClaimNext, AttachToken, CompleteJob, RemoveEntry, Announce;
    assert AvailableAt(0, 0, 1) == 0;
  }

  lemma SoleRemoves(s: Sys)
    requires Sole(s, WAITS, RECORDED, FAILED, 0)
    ensures var t := Step(CONFIG, s, Work(0, Fine)); Sole(t, WAITS, DROPPED, Idle, 0) && t.nextToken == s.nextToken
  {
    hide Reports, ClaimNext, AttachToken, CompleteJob, FailJob, Announce;
  }

  lemma SoleTakesAgain(s: Sys)
    requires Sole(s, WAITS, DROPPED, Idle, 0)
    ensures var t := Step(CONFIG, s, Work(0, Fine));
      Sole(t, RUNS_1, DROPPED, Attaching(Attempt(1)), 0) && t.nextToken == s.nextToken
  {
    assert Ready(s.q.delayed, 0) == s.q.delayed;
    assert JobsOf(s.q.delayed) == [Attempt(1)];
    assert Waiting(s.q.delayed, 0) == [];
    LogSay(s.h.log, JobClaimed(ID), ID);
  }

  lemma SoleAttachesAgain(s: Sys)
    requires Sole(s, RUNS_1, DROPPED, Attaching(Attempt(1)), 0) && s.nextToken == 1
    ensures Sole(Step(CONFIG, s, Work(0, Fine)), RUNS_1, REATTACHED, AnnouncingRunning(Attempt(1), 1), 0)
  {
  }

  lemma SoleReports(s: Sys)
    requires Sole(s, RUNS_1, REATTACHED, Executing(Attempt(1), 1), 0)
    ensures Reports(Step(CONFIG, Step(CONFIG, s, Work(0, RunnerSucceeded)), Work(0, Fine)).h.log, ID) == 1
  {
    LogSay(s.h.log, ReportPosted(ID), ID);
    hide Reports, ClaimNext, AttachToken, CompleteJob, FailJob, RemoveEntry, Announce;
    var t := Step(CONFIG, s, Work(0, RunnerSucceeded));
    assert PhaseOf(t, 0) == PostingReport(Attempt(1)) && t.h.log == s.h.log;
  }

  lemma SoleFailing(s: Sys)
    requires s == Exec(CONFIG, INIT, ABOUT_TO_FAIL)
    ensures Sole(s, RUNS_0, ATTACHED, Failing(Attempt(0), false), 0) && s.nextToken == 1 && s.actors == map[]
  {
    hide Exec, Step, Sole;
    var c := CONFIG;
    var attach: seq<Action> := [EnqueueJob(ID, ""), Work(0, Fine), Work(0, Fine)];
    ExecThree(c, INIT, EnqueueJob(ID, ""), Work(0, Fine), Work(0, Fine));
    SoleStart();
    SoleAttaches(Step(c, Step(c, INIT, EnqueueJob(ID, "")), Work(0, Fine)));
    var s3 := Exec(c, INIT, attach);
    SoleAnnounces(s3, RUNS_0, ATTACHED, Attempt(0), 0);
    SoleFails(Step(c, s3, Work(0, Fine)));
    ExecOne(c, s3, Work(0, Fine));
    ExecOne(c, Step(c, s3, Work(0, Fine)), Work(0, RunnerFailed(false)));
    ExecAppend(c, INIT, attach, [Work(0, Fine)]);
    ExecAppend(c, INIT, attach + [Work(0, Fine)], [Work(0, RunnerFailed(false))]);
  }

  /** One worker is enough: it drops the request that was recorded before it told the queue of the failure. */
  lemma OneWorkerLosesACancel()
    ensures var asked := Exec(CONFIG, INIT, ABOUT_TO_FAIL + REQUEST);
      var done := Exec(CONFIG, INIT, ABOUT_TO_FAIL + REQUEST + REQUEUE + RUN_AGAIN + [Work(0, Fine)]);
      && ID in asked.reg.requests && ID in asked.h.holder && Reports(asked.h.log, ID) == 0
      && PhaseOf(asked, asked.h.holder[ID]) == Failing(Attempt(0), false)
      && Reports(done.h.log, ID) == 1
  {
    var c := CONFIG;
    var s := Exec(c, INIT, ABOUT_TO_FAIL);
    SoleFailing(s);
    var asked := Step(c, Step(c, s, StartCancel(0, ID, "u")), ContinueCancel(0, "t"));
    SoleAsked(s);
    assert REQUEST == [StartCancel(0, ID, "u")] + [ContinueCancel(0, "t")];
    hide Exec, Step;
    ExecAppend(c, s, [StartCancel(0, ID, "u")], [ContinueCancel(0, "t")]);
    ExecOne(c, s, StartCancel(0, ID, "u"));
    ExecOne(c, Step(c, s, StartCancel(0, ID, "u")), ContinueCancel(0, "t"));
    ExecAppend(c, INIT, ABOUT_TO_FAIL, REQUEST);
    assert Exec(c, INIT, ABOUT_TO_FAIL + REQUEST) == asked;
    assert ID in asked.h.holder && ID in asked.reg.requests;
    hide Sole, Reports;
    SoleEnds(asked);
    ExecAppend(c, INIT, ABOUT_TO_FAIL + REQUEST, REQUEUE);
    ExecAppend(c, INIT, ABOUT_TO_FAIL + REQUEST + REQUEUE, RUN_AGAIN);
    ExecAppend(c, INIT, ABOUT_TO_FAIL + REQUEST + REQUEUE + RUN_AGAIN, [Work(0, Fine)]);
  }

  lemma SoleEnds(s: Sys)
    requires Sole(s, RUNS_0, RECORDED, Failing(Attempt(0), false), 0) && s.nextToken == 1
    ensures Reports(Exec(CONFIG, Exec(CONFIG, Exec(CONFIG, s, REQUEUE), RUN_AGAIN), [Work(0, Fine)]).h.log, ID) == 1
  {
    hide Exec, Step, Sole, Reports;
    var c, next := CONFIG, Work(0, Fine);
    ExecThree(c, s, next, next, next);
    SoleRequeues(s);
    SoleRemoves(Step(c, s, next));
    SoleTakesAgain(Step(c, Step(c, s, next), next));
    var t := Exec(c, s, REQUEUE);
    ExecThree(c, t, next, next, Work(0, RunnerSucceeded));
    SoleAttachesAgain(t);
    SoleAnnounces(Step(c, t, next), RUNS_1, REATTACHED, Attempt(1), 1);
    SoleReports(Step(c, Step(c, t, next), next));
    ExecOne(c, Exec(c, t, RUN_AGAIN), next);
  }
}

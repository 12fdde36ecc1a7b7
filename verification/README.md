# Reili: job life cycle, schedules, progress stream and work-item text

Reili is a Slack agent. People hand it tasks, which wait in a queue, run on workers and can be cancelled; objectives run
on a cron schedule; a running task streams its progress; and what Reili knows about a work item from one cycle to the
next is kept only in the text of the item. This project models those four parts in Dafny and proves what they promise.

**Job life cycle** (`JobQueue`, `InFlightRegistry`, `Worker`, `Lifecycle*`). The queue, the cancellation registry and
the worker are classes whose methods are proved against functions on values. Around them `Lifecycle` is a step system:
any number of workers, each at some point of its attempt, any number of cancel requests, and a clock. One step is what
happens between two awaits. Task runs and message posts have any outcome. `LifecycleTheorems` states what holds after
every sequence of actions, `LifecycleRequests` which cancel requests take effect, and `Attempts.AttemptIsARun` shows
that the worker's code, left alone, is such a sequence.

**Schedules** (`Calendar`, `Cron`, `CronGrammar`, `Schedule`, `Horizon`, `LeapDays`, `PosixDays`, `Scheduler`,
`SchedulerClock`, `Expressions`, `Aliases`, `Zones`). The parser is compared with a grammar of its own, both ways, and
whole expressions with the local minutes they allow; the two calendar searches are nested loops with invariants, over
any time zone given by what its clocks show; the tick loop is followed over whole runs.

**Progress stream** (`ProgressState`, `ProgressStream`, `ProgressTrace`, `ProgressCalls`, `ProgressSteps`,
`ProgressRunning`). A reader who replays only the emitted updates is shown to see exactly the steps of the hidden state,
after any interleaving of owners and tools.

**Work-item text** (`Render`, `NextStep`, `RoundTrip`, `Comments`, `Report`, `Brief`, `BriefQueue`, `BriefVisibility`,
`BriefBudget`, `BriefThreads`, `BriefSections`, `Fence`). Round trips of the recorded next step, up to the queue line of
the next cycle, and of `[[key]]` references; independence of a brief from what outsiders write; the budget of the thread
section; and the code fence around quoted text.

`Text` and `Wrappers` hold the string functions and result types the others share.

## Where the code promises less than it seems to

* A cancel request can be accepted and lost. One worker is enough: a request that comes after the attempt failed and
  before the worker tells the queue is dropped by that worker's own `registry.remove`, and the job runs again
  (`LifecycleRace.OneWorkerLosesACancel`). With two, nothing orders that `remove` before the next claim of the job, and
  a late one takes the new attempt's token away (`LifecycleRace.LateRemovalLosesACancel`). Of the requests recorded for
  a job that is not over and not reported, `LifecycleRequests.CancelTakesEffectExactlyWhen` says exactly which take
  effect.
* The comment at `schedule.rs:7` says that a valid expression always fires within the search horizon. `0 0 30 2 *` never
  fires, and `0 0 29 2 *` is not found around the year 2100 (`LeapDays`); `Horizon.SearchFailsExactlyWhen` has the exact
  condition on expression and date.
* `value += step` wraps around in a release build, so `30/4294967295` also marks 29 (`Cron.AHugeStepMarksTooMuch`);
  `Cron.WalkMarksWhatItDenotes` has the exact condition on start and step.
* With a weekday given, the days need not be those of POSIX crontab: `0 0 * 1 1` fires on the Mondays of January and not
  on the other days of January or the other Mondays (`PosixDays.MondaysOfJanuary`). `PosixDays.RulesAgreeExactlyWhen`
  has the exact condition on the fields.
* A tool call can be shown on another owner's step (`ProgressCalls.AColonCanCrossOwners`): exactly when two owners start
  calls under one key (`ProgressCalls.CallsStayExactlyWhen`), which among the owners of the program takes an agent that
  is called `task_runner` (`ProgressCalls.ProgramOwnersClashExactlyWhen`).
* A line break in cited evidence can replace the recorded next step (`RoundTrip.EvidenceCanHideTheStep`); the exact
  condition is in `RoundTrip.StepIsKeptExactlyWhen`. An item without a recorded step reads as having one if its question
  or its comment has a line with the label (`RoundTrip.AQuestionCanShowAStep`, `RoundTrip.AResolvedItemCanShowAStep`);
  `RoundTrip.WithoutAStepTheCommentDecides` says which line is read.
* The note on threads that do not fit a brief can be cut off (`BriefBudget.TheNoteCanBeCut`);
  `BriefBudget.NoteSurvivesExactlyWhen` has the exact condition.
* The search for the latest fire time ends early where a single search from a fire time comes up empty;
  `Schedule.LatestAtOrBefore` and `Scheduler.DueSlot` have the exact condition.
* A clock that is set back can start two cycles for one fire time (`SchedulerClock.AClockSetBackRepeatsACycle`);
  `SchedulerClock.SomeInstantRepeatsExactlyWhen` has the exact condition on the readings.

## Model

| member | source | states |
|---|---|---|
| JobQueue.BackoffIsCappedDoubling | crates/adapters/src/queue/in_memory_job_queue.rs:211-218 | the two saturating operations compute `min(backoff * 2^(retry - 1), 2^64 - 1)`: capping in between changes nothing |
| JobQueue.AvailableAfterBackoff | crates/adapters/src/queue/in_memory_job_queue.rs:192-218 | a job that fails is available again that many milliseconds later, counted in nanoseconds |
| JobQueue.PromotionSplits | crates/adapters/src/queue/in_memory_job_queue.rs:77-101 | promotion puts every delayed job on exactly one side, by its time, and loses none |
| JobQueue.PromotionIsStable | crates/adapters/src/queue/in_memory_job_queue.rs:77-101 | both sides of a promotion keep the order of the delayed jobs |
| JobQueue.ClaimConserves | crates/adapters/src/queue/in_memory_job_queue.rs:119-133 | with distinct ids a claim moves a job and neither loses, doubles nor overwrites one |
| JobQueue.CancelConserves | crates/adapters/src/queue/in_memory_job_queue.rs:135-165 | a cancel takes exactly the named waiting job out, or leaves every job in its place |
| JobQueue.CompleteConserves | crates/adapters/src/queue/in_memory_job_queue.rs:167-171 | a completion takes exactly the claimed job out |
| JobQueue.FailConserves | crates/adapters/src/queue/in_memory_job_queue.rs:173-203 | a failure moves the claimed job to the delayed or the dead ones and loses none |
| JobQueue.FailTells | crates/adapters/src/queue/in_memory_job_queue.rs:173-203 | the job a failure names is the one it put behind the delayed ones with one retry more, or behind the dead ones with reason and time, by the limit; nothing else moves |
| InMemoryQueue.InMemoryJobQueue.PromoteReadyDelayedJobs | crates/adapters/src/queue/in_memory_job_queue.rs:77-101 | the loop over the taken list leaves the queue that the two sides of a promotion describe |
| InMemoryQueue.InMemoryJobQueue.Claim | crates/adapters/src/queue/in_memory_job_queue.rs:119-133 | the first pending job after promotion becomes claimed and is returned; nothing else changes |
| InMemoryQueue.InMemoryJobQueue.Cancel | crates/adapters/src/queue/in_memory_job_queue.rs:135-165 | pending first, then delayed, then a look at the claimed ones |
| InMemoryQueue.InMemoryJobQueue.Fail | crates/adapters/src/queue/in_memory_job_queue.rs:173-203 | requeue with one retry more and the back-off, dead letter at the limit, or no such job |
| InFlightRegistry.FirstRequestWins | crates/application/src/execution/in_flight_registry.rs:67-127 | the first cancel request stays on record until removal, later ones report it, and a token attached after it is cancelled at once |
| InFlightRegistry.AttachAndRequestCommute | crates/application/src/execution/in_flight_registry.rs:67-112 | a request cancels the token whether it comes before or after the token is attached, and both orders leave the same entries; they differ only in a token attached earlier, which a first request cancels if it comes first |
| InFlightJobs.InFlightJobRegistry.AttachCancellation | crates/application/src/execution/in_flight_registry.rs:67-85 | attaches the shared token and sets its flag if a request is on record; no other flag changes |
| InFlightJobs.InFlightJobRegistry.RequestCancel | crates/application/src/execution/in_flight_registry.rs:87-112 | records the first request and sets the flag of the attached token, if there is one |
| InFlightJobs.InFlightJobRegistry.Remove | crates/application/src/execution/in_flight_registry.rs:114-127 | drops both entries and returns what was known of a request |
| LifecycleTheorems.EachJobHasOnePlace | crates/adapters/src/queue/in_memory_job_queue.rs:77-203 | in every reachable state an enqueued id is in exactly one of pending, delayed, claimed, dead letter, completed and cancelled |
| LifecycleTheorems.DepthIsWhatIsLeft | crates/adapters/src/queue/in_memory_job_queue.rs:205-208 | in every reachable state the depth is the number of jobs enqueued so far that are neither running nor over |
| LifecycleTheorems.OneWorkerPerJob | crates/application/src/execution/worker.rs:92-260 | each claimed job is held by exactly one worker whose copy is the stored one, so no job runs twice at once and `fail` always finds its job |
| LifecycleTheorems.RetriesAreBounded | crates/application/src/execution/worker.rs:359-373 | no count of a waiting, running or dead job passes the limit M, the count is the number of claims before the current one, no job is claimed more than M + 1 times, and a dead letter has count M or failed permanently |
| LifecycleTheorems.FailureGoesWhereItShould | crates/application/src/execution/worker.rs:359-403 | a failed attempt is dead-lettered at once exactly on a permanent failure or at the limit, and requeued otherwise |
| LifecycleTheorems.TotalClaimsAreBounded | crates/adapters/src/queue/in_memory_job_queue.rs:119-203 | over any run the number of claims is at most M + 1 times the number of jobs |
| LifecycleTheorems.NoEarlyHandOut | crates/adapters/src/queue/in_memory_job_queue.rs:192-218 | a job requeued at retry r is not handed out before its failure time plus the capped, doubled delay |
| LifecycleTheorems.RetriesBecomeReady | crates/adapters/src/queue/in_memory_job_queue.rs:77-165 | in every reachable state a delayed job is available exactly when that delay is over: from then on every claim and every cancel finds it pending, and before that none does |
| LifecycleTheorems.ClaimsFollowEntries | crates/adapters/src/queue/in_memory_job_queue.rs:77-133 | what was handed out, then what is pending, is the list of all entries into `pending` in order, without the jobs cancelled while they waited |
| LifecycleTheorems.OneEndingPerJob | crates/application/src/execution/worker.rs:161-260 | at most one report or dead-letter notice, never both, and at most one final control update, counting workers and cancel requests |
| LifecycleTruth.UpdatesTellTheTruth | crates/application/src/execution/worker.rs:161-260 | over every run, a job is shown as completed only if it is completed and its report posted, as failed only if it is a dead letter, and as cancelled only if it was cancelled while it waited or ended cancelled, with no report |
| LifecycleTruth.RequestOnRecordIsAnnounced | crates/application/src/execution/worker.rs:148-158 | a cancel request on record when an attempt starts ends it before the run, and the end is announced whoever removes the request meanwhile |
| LifecycleEndings.StepKeepsEndings | crates/application/src/execution/cancel.rs:49-71 | what may still be said about a job, by whom, is kept by every step of workers and cancel requests |
| LifecycleCancellation.StepKeepsTokens | crates/application/src/execution/in_flight_registry.rs:67-127 | in every step a clean attempt's token stays attached, and an id with both a request and a token has a cancelled token |
| LifecycleCancellation.StepKeepsDoomed | crates/application/src/execution/task.rs:280-305 | an attempt caught by a request can only go on to end cancelled: no step posts its report or hands the job out again |
| LifecycleTheorems.CancelTakesEffect | crates/application/src/execution/cancel.rs:72-99 | a request recorded while the attempt can be caught makes it end cancelled, silently and for good, whatever follows |
| LifecycleRequests.CancelTakesEffectExactlyWhen | crates/application/src/execution/cancel.rs:72-99 | a request recorded for a job that is not over and not reported keeps report and notice from being posted on every run that follows if and only if the attempt can be caught or is leaving as cancelled, or the job waits and no removal of its entry is pending |
| LifecycleRequests.HeededRequestsSettle | crates/application/src/execution/in_flight_registry.rs:67-127 | after such a request the job waits with the request on record, is caught, ended cancelled or was taken out of the queue, in every state that follows |
| LifecycleWaiting.StepKeepsSettled | crates/application/src/execution/in_flight_registry.rs:67-127 | every step keeps that; a claim of a job that waits with a request on record gives an attempt that will find it |
| LifecycleWaiting.WaitingIsClaimed | crates/adapters/src/queue/in_memory_job_queue.rs:77-133 | from every state a waiting job can come to be claimed with no registry entry changed on the way |
| LifecycleRequests.CleanAttemptsAreCatchable | crates/application/src/execution/worker.rs:131-159 | an attempt claimed with no earlier removal outstanding can be caught at every moment up to the last reads of the flag |
| LifecycleRace.LateRemovalLosesACancel | crates/application/src/execution/worker.rs:405-411 | a run to an attempt that cannot be caught: the request is accepted and the report is posted all the same |
| LifecycleRace.OneWorkerLosesACancel | crates/application/src/execution/worker.rs:359-411 | a run of one worker that does the same: the request comes while the attempt is about to fail |
| Attempts.AttemptIsARun | crates/application/src/execution/worker.rs:124-260 | an attempt as the worker's code runs it is a run of that worker's steps with the same queue, registry and messages |
| Attempts.AttemptSays | crates/application/src/execution/worker.rs:124-472 | what an attempt says, in order, and where its job goes, for each answer of runner and message ports: completed, dead letter, or delayed by the doubled delay; the registry forgets the job |
| Attempts.CancelledIsAnnouncedExactlyWhen | crates/application/src/execution/worker.rs:285-316 | a cancelled attempt completes its job, and is announced if and only if somebody is known to have asked or its token is still attached |
| Worker.TaskExecution.RunWorkerIteration | crates/application/src/execution/worker.rs:92-116 | claims the next job, if any, and changes queue, registry and messages as one attempt at it does |
| Worker.TaskExecution.ProcessClaimedJob | crates/application/src/execution/worker.rs:124-260 | a fresh token is attached; the attempt is completed, cancelled, requeued or dead-lettered by its outcome, each with its messages in order |
| Worker.TaskExecution.ExecuteTaskJob | crates/application/src/execution/task.rs:125-213 | with the flag set the attempt stops; a report that cannot be posted is a failure that may be retried |
| Worker.TaskExecution.CompleteCancelledClaimedJob | crates/application/src/execution/worker.rs:285-316 | a cancelled attempt completes its job and is announced when somebody is known to have asked |
| Worker.TaskExecution.HandleFailedClaimedJob | crates/application/src/execution/worker.rs:359-472 | a permanent failure counts as the last retry; the registry entry goes, and a dead letter is announced |
| Worker.TaskExecution.CancelTask | crates/application/src/execution/cancel.rs:40-115 | a waiting job is cancelled at once, a running one gets a request, an unknown one nothing |
| Cron.WalkMarksWhatItDenotes | crates/core/src/objective/schedule.rs:229-233 | the marking loop marks exactly the multiples of its step in the range if and only if its first addition does not wrap |
| Cron.AHugeStepMarksTooMuch | crates/core/src/objective/schedule.rs:229-233 | an accepted part whose loop marks a value outside its range |
| Cron.ParseField | crates/core/src/objective/schedule.rs:190-242 | the loops over parts and values fill the table with what all parts mark, or stop at the first bad part |
| CronGrammar.GrammarIsAccepted | crates/core/src/objective/schedule.rs:190-242 | every comma list of stars, values, names, ranges and steps within bounds is accepted and marks what its parts mark |
| CronGrammar.AcceptedIsGrammar | crates/core/src/objective/schedule.rs:190-252 | nothing else is accepted |
| CronGrammar.FieldAllowsWhatItDenotes | crates/core/src/objective/schedule.rs:190-242 | without huge steps a field allows exactly the values its parts denote |
| CronGrammar.AcceptedFieldAllows | crates/core/src/objective/schedule.rs:190-242 | an accepted field allows at least one value within its bounds, and all of them when it is a star |
| Schedule.ParsedSchedulesFit | crates/core/src/objective/schedule.rs:56-81 | an accepted expression, aliases included, has five fields that each allow something, with weekday 7 folded to 0 |
| Expressions.ParseMeans | crates/core/src/objective/schedule.rs:56-81 | five words are accepted if and only if each is, in its own bounds, and then the schedule matches exactly the local minutes whose minute, hour, day, month and weekday they allow, of day and weekday one if both are given |
| Expressions.ParseRejects | crates/core/src/objective/schedule.rs:56-81 | a wrong number of words is reported, else the first bad word, the weekday before the others |
| Expressions.SingleValuesMean | crates/core/src/objective/schedule.rs:56-152 | an expression of stars, numbers and names matches the local minutes with just those values |
| Expressions.NamesDenote | crates/core/src/objective/schedule.rs:155-178 | the names of weekdays and months, in any case of letters, denote their numbers |
| Aliases.AliasMeans | crates/core/src/objective/schedule.rs:180-188 | the five aliases, in any case and with whitespace around them, fire hourly, at midnight, at midnight of Sundays and at midnight of the first of a month |
| PosixDays.RulesAgreeExactlyWhen | crates/core/src/objective/schedule.rs:138-152 | an accepted schedule has the days of crontab of IEEE Std 1003.1-2017 (INPUT FILES) on all dates if and only if the weekday is a star, or month and day of month are, or every month is allowed and the day of month is given or every weekday is allowed |
| PosixDays.MondaysOfJanuary | crates/core/src/objective/schedule.rs:56-152 | `0 0 * 1 1` is accepted and leaves out two days of 2024 that it has by that standard |
| Calendar.CivilOfDate | crates/core/src/objective/schedule.rs:138-146 | year, month and day of a day number are in range and lead back to it |
| Calendar.DateOfCivil | crates/core/src/objective/schedule.rs:138-146 | the day number of a year, month and day leads back to them |
| Schedule.FixedZoneIsValid | crates/core/src/objective/schedule.rs:104-107 | UTC and every fixed offset are zones as the searches expect them |
| Schedule.ImageIsFirst | crates/core/src/objective/schedule.rs:104-107 | in every zone whose answers name the instants that show a local minute, the instant taken is the first of them |
| Zones.ChangedZoneIsValid | crates/core/src/objective/schedule.rs:104-107 | so are zones whose offset changes once, in either direction |
| Zones.ARepeatedMinuteFiresOnce | crates/core/src/objective/schedule.rs:104-107 | a local minute that the clocks show twice fires the first time and not the second |
| Zones.ASkippedMinuteFiresNever | crates/core/src/objective/schedule.rs:104-107 | one that they skip does not fire |
| Zones.ClocksGoBack | crates/core/src/objective/schedule.rs:85-116 | `30 1 * * *` in New York on the date the clocks go back fires at 05:30 UTC and not at 06:30, and the next day at 06:30 |
| Schedule.NextAfter | crates/core/src/objective/schedule.rs:85-116 | the result is the first instant at which the clocks of the zone show a matching local minute, after the given instant, with no such instant in between; it is none exactly when the search range holds none |
| Schedule.LatestAtOrBefore | crates/core/src/objective/schedule.rs:121-136 | the cursor loop ends, at the last fire time up to now if and only if no search from the start or from a fire time comes up empty before it |
| Schedule.CloseFireTimesAreInReach | crates/core/src/objective/schedule.rs:121-136 | none does if every fire time is followed by the next within 1826 days |
| Schedule.LatestOnWholeSeconds | crates/core/src/objective/schedule.rs:121-136 | from a whole second on that is the greatest fire time in the closed interval |
| Horizon.SearchFailsExactlyWhen | crates/core/src/objective/schedule.rs:7-8 | in a zone without gaps the search fails if and only if days are chosen by day of month alone, none that every year has, and 29 February, if allowed, has no leap year in the search beyond three days and its last allowed minute passed within them |
| Horizon.LeapDayIsFound | crates/core/src/objective/schedule.rs:85-116 | 29 February is found unless a century year without it is near |
| Expressions.WholeExpression | crates/core/src/objective/schedule.rs:56-81 | words joined by spaces parse to what the fields parse to, in the trimmed time zone; what that is says `Expressions.ParseMeans` |
| LeapDays.ThirtiethOfFebruary | crates/core/src/objective/schedule.rs:7-8 | `0 0 30 2 *` is accepted, is never found and never fires |
| LeapDays.LeapDayOf2096 | crates/core/src/objective/schedule.rs:7-8 | `0 0 29 2 *` is accepted and fires on 29 February 2104, 2,921 days after that of 2096, but a search in between finds it only from less than 1,830 days before |
| Scheduler.DueSlot | crates/application/src/objective/scheduler.rs:184-197 | a slot exactly when the objective is enabled, the search from the start of the window finds anything and the window holds a fire time; the slot is the greatest one if and only if no search on the way comes up empty too early, and so in every window of at most 1825 days |
| Scheduler.ShortWindowsMissNothing | crates/application/src/objective/scheduler.rs:184-197 | a window of at most 1825 days, or from whose start the search finds anything, is due exactly when it holds a fire time at all |
| Scheduler.ObjectiveScheduler.MarkRunning | crates/application/src/objective/scheduler.rs:117-126 | marks the objective and says whether it was not marked before |
| Scheduler.ObjectiveScheduler.Tick | crates/application/src/objective/scheduler.rs:71-114 | starts the due objectives that are not running, in order, and moves the window on |
| Scheduler.ObjectiveScheduler.Follow | crates/application/src/objective/scheduler.rs:71-182 | ticks and drops of guards, in any order, take the scheduler's fields where the run of them goes |
| Scheduler.StartedExactlyWhenDue | crates/application/src/objective/scheduler.rs:71-114 | with distinct ids a tick starts an objective if and only if it is due and not running |
| Scheduler.WindowsTile | crates/application/src/objective/scheduler.rs:71-74 | over a run with a clock that does not go back the windows cover all time since construction without overlap |
| Scheduler.EachFireTimeHasOneWindow | crates/application/src/objective/scheduler.rs:71-114 | so every fire time lies in exactly one window |
| Scheduler.WindowStartsACycle | crates/application/src/objective/scheduler.rs:71-114 | a window starts a cycle exactly when it holds a fire time and no cycle of the objective is running |
| Scheduler.CyclesNeverOverlap | crates/application/src/objective/scheduler.rs:117-182 | at every point of a run at most one cycle of an objective is open, however cycles end |
| SchedulerClock.TwoWindowsExactlyWhen | crates/application/src/objective/scheduler.rs:71-74 | an instant lies in two windows if and only if the clock passed it, was set back before it and passed it again |
| SchedulerClock.SomeInstantRepeatsExactlyWhen | crates/application/src/objective/scheduler.rs:71-74 | some instant does if and only if four readings go low, high, low, high past a common value |
| SchedulerClock.RepeatsAboveStartExactlyWhen | crates/application/src/objective/scheduler.rs:71-74 | with no reading before the start, if and only if a tick raises the clock from below an earlier reading |
| SchedulerClock.AClockSetBackRepeatsACycle | crates/application/src/objective/scheduler.rs:71-126 | every fire time of an enabled objective can lie in two windows and start two cycles |
| SchedulerClock.EveryMinuteFires | crates/core/src/objective/schedule.rs:56-152 | there are such fire times: five stars fire at every minute of UTC |
| ProgressState.NextNameIsFree | crates/application/src/progress/state.rs:233-244 | in a state whose names are those of its numbers the first name tried is free, so the collision loop never goes round |
| ProgressState.LatestIsLatest | crates/application/src/progress/state.rs:246-257 | the completed step found is the owner's with the greatest number |
| ProgressState.TaskKeysDiffer | crates/application/src/progress/state.rs:279-281 | the key of owner and task is injective on task ids without a colon |
| ProgressStream.ProgressStreamState.CreateProgressStepIdentifier | crates/application/src/progress/state.rs:233-244 | the collision loop ends at the first free number |
| ProgressStream.ProgressStreamState.ResolveLatestCompletedProgressStepByOwnerId | crates/application/src/progress/state.rs:246-257 | in whatever order the map is read, the latest completed step of the owner |
| ProgressStream.ProgressStreamState.ResolveProgressStepForToolStarted | crates/application/src/progress/state.rs:89-142 | the call's own step, else the owner's active one, else a new one titled like the latest completed |
| ProgressSteps.ActiveExactlyWhen | crates/application/src/progress/state.rs:83-142 | over any stream an owner has an active step exactly when a titled summary or the first start of a call left it with one since its last message output |
| ProgressSteps.NewCallJoinsTheSummary | crates/application/src/progress/state.rs:106-125 | the first start of a call after a summary of its owner is shown on the step of that summary, and adds no step |
| ProgressSteps.NewCallOpensAStep | crates/application/src/progress/state.rs:127-141 | without an active step it adds exactly one, titled like the owner's completed step of greatest number, or "Tool executions" |
| ProgressSteps.StepsAreNumbered | crates/application/src/progress/state.rs:233-245 | after any stream the steps are `progress-step-1`, `progress-step-2` and so on, without gaps |
| ProgressRunning.CallsAreTracked | crates/application/src/progress/state.rs:157-173 | over any stream a call runs on a step exactly when it was started there and not completed since |
| ProgressRunning.SummaryCompletesExactlyWhen | crates/application/src/progress/state.rs:183-208 | a summary completes its owner's active step exactly when every call started on it has been completed since its last start |
| ProgressRunning.CompletionSaysExactlyWhen | crates/application/src/progress/projector.rs:103-134 | a completion says that its step goes on exactly when some call on it still runs |
| ProgressStream.ProgressUpdateProjector.ProjectProgressSummary | crates/application/src/progress/projector.rs:37-68 | completes an idle active step, opens a new one, and keeps the maps in agreement |
| ProgressStream.ProgressUpdateProjector.ProjectToolStarted | crates/application/src/progress/projector.rs:70-101 | resolves, records and reopens the step of a call |
| ProgressStream.ProgressUpdateProjector.ProjectToolCompleted | crates/application/src/progress/projector.rs:103-134 | records the end of a call, or reports that its step is missing |
| ProgressStream.ProgressUpdateProjector.ProjectMessageOutputCreated | crates/application/src/progress/projector.rs:136-153 | completes the owner's steps in any order of the map |
| ProgressTrace.StreamReplays | crates/application/src/progress/projector.rs:37-153 | after any events the maps agree, and replaying the updates alone gives exactly the steps, owners, titles and open flags of the state |
| ProgressTrace.NoCompletionFirst | crates/application/src/progress/projector.rs:37-153 | the updates of a step id never begin with a completion |
| ProgressTrace.ReopenedBetween | crates/application/src/progress/projector.rs:70-153 | between two completions of one id there is an update from the start of a tool call |
| ProgressCalls.SummaryOpensOneStep | crates/application/src/progress/projector.rs:37-68 | a summary opens one new active step, completes the owner's active step exactly when none of its calls is running, and changes no other step |
| ProgressCalls.MessageCompletesItsOwner | crates/application/src/progress/projector.rs:136-153 | a message output emits exactly one completion for each open step of its owner and leaves other owners' steps unchanged |
| ProgressCalls.CompletionFindsItsStart | crates/application/src/progress/state.rs:144-173 | a tool completion resolves to the step its starts were shown on, and to none exactly when no call with its key was started |
| ProgressCalls.CallsStayExactlyWhen | crates/application/src/progress/state.rs:89-173 | over any stream every call is shown on a step of its own owner if and only if no two owners start calls under one key |
| ProgressCalls.CallsStayWithTheirOwner | crates/application/src/progress/state.rs:89-173 | so without colons in task ids every call is |
| ProgressCalls.ProgramOwnersClashExactlyWhen | crates/adapters/src/outbound/agents/tools/spawn_agent.rs:139-141 | of the owners the program makes, two share a key exactly when one is the runner and the other an agent named like it, whose digits begin the runner's task id |
| ProgressCalls.AColonCanCrossOwners | crates/application/src/progress/state.rs:279-281 | then the runner's call is shown on the step of that agent |
| Render.WriteAppendix | crates/application/src/objective/render.rs:84-107 | appends question, next step and evidence, each only when it is there |
| Render.RenderProgressComment | crates/application/src/objective/render.rs:48-73 | the comment is the clipped text, appendix, closing line and footer, clipped as a whole |
| Render.RenderNewItemBody | crates/application/src/objective/render.rs:31-46 | the same for a new item |
| Render.SortedIdsAscend | crates/application/src/objective/render.rs:109-112 | cited ids are looked up in ascending order, each once, and none is lost |
| Comments.CommentShows | crates/application/src/objective/render.rs:48-73 | a comment with some text shows text, appendix, closing line, status and run, each spelled out, up to 30,000 characters |
| Comments.EvidenceIsShown | crates/application/src/objective/render.rs:109-129 | every piece of evidence that a cited id stands for has its line, with source and query |
| Comments.QuestionIsAsked | crates/application/src/objective/render.rs:84-93 | the question is asked exactly when the item needs a decision and has one |
| Comments.ItemShows | crates/application/src/objective/render.rs:31-46 | the body of a new item shows description, follow-up, appendix, objective and run, up to 30,000 characters |
| NextStep.SingleLineIsOneLine | crates/application/src/objective/render.rs:135-141 | the recorded step is one visible line of bounded length |
| NextStep.CleanCut | crates/core/src/work/text.rs:3-10 | truncation makes no line with the label that was not there |
| NextStep.StepLineIsRead | crates/application/src/objective/render.rs:76-82 | reading finds the last labelled line |
| RoundTrip.NonBlankStepIsWritten | crates/application/src/objective/render.rs:94-99 | a step is written if and only if the item is not resolved and the step is not blank |
| RoundTrip.SingleLineIs | crates/application/src/objective/render.rs:135-141 | it is the words of the step joined by single spaces, whole up to 500 characters and marked where it is cut |
| RoundTrip.ProgressCommentKeepsTheStep | crates/application/src/objective/render.rs:48-141 | reading back a progress comment gives the step on one line, whatever comment and question say and however long they are, if no line of the cited evidence has the label |
| RoundTrip.NewItemKeepsTheStep | crates/application/src/objective/render.rs:31-141 | so does reading back the body of a new item, if the step line ends before the body is cut |
| RoundTrip.ShortKeysFit | crates/application/src/objective/render.rs:31-46 | which it does unless the key of the item it follows up on has more than 8,000 characters |
| RoundTrip.StepIsKeptExactlyWhen | crates/application/src/objective/render.rs:48-141 | with any evidence at all: the step is kept if and only if no later labelled line says otherwise |
| RoundTrip.EvidenceCanHideTheStep | crates/application/src/objective/render.rs:109-129 | evidence with a line break that hides it |
| RoundTrip.WithoutAStepTheCommentDecides | crates/application/src/objective/render.rs:76-107 | where no step is written and no line of the cited evidence has the label, the reader finds the last labelled line of the clipped question, else that of the clipped comment, and nothing exactly when there is no such line or it is blank |
| RoundTrip.WithAnyEvidenceTheLaterLineCounts | crates/application/src/objective/render.rs:48-107 | with any evidence, after a comment that is not blank: a labelled line in what is kept after the question counts first |
| RoundTrip.AResolvedItemCanShowAStep | crates/application/src/objective/render.rs:94-99 | so a resolved item, with whatever clean evidence it cites, can read as having a next step |
| RoundTrip.AQuestionCanShowAStep | crates/application/src/objective/render.rs:85-93 | and so can an item whose question has a second line, though its comment has no label |
| RoundTrip.AQuestionOnOneLineIsClean | crates/application/src/objective/render.rs:85-93 | a question on one line shows no step |
| Report.LinkIsToTheFirst | crates/application/src/objective/report.rs:54-64 | a reference becomes the link of the first item that answers to it, created ones first, and stays as text when none does |
| Report.LinkItems | crates/application/src/objective/report.rs:39-52 | the loop ends and computes the linked text |
| Report.SegmentsOfPrint | crates/application/src/objective/report.rs:39-52 | taking a printed message apart gives its segments back if and only if they are unambiguous |
| Report.PrintOfSegments | crates/application/src/objective/report.rs:39-52 | every message is the print of unambiguous segments |
| Report.LinkingSubstitutes | crates/application/src/objective/report.rs:39-64 | linking replaces the references of any message and nothing else |
| Report.LinkingInvertsPrinting | crates/application/src/objective/report.rs:39-64 | on printed segments linking gives the texts with each trimmed reference replaced by its link |
| Report.UnclosedStaysVerbatim | crates/application/src/objective/report.rs:42-46 | an unclosed pair of brackets leaves the rest as it is |
| Report.ComposeReport | crates/application/src/objective/report.rs:29-37 | nothing is posted exactly when there is no message or a blank one |
| BriefQueue.NewRepliesAreCounted | crates/application/src/objective/brief.rs:166-204 | the count on the queue line is the number of trusted comments that no comment of Reili's follows |
| BriefQueue.QueueLineSays | crates/application/src/objective/brief.rs:163-200 | the queue line gives that number, when Reili last wrote, and the step it recorded then, in its last comment or else in an item it opened |
| BriefQueue.FeedbackIsTheLatest | crates/application/src/objective/brief.rs:226-231 | the feedback shown is the latest trusted comment not by Reili, and there is none exactly when no such comment exists |
| BriefSections.FeedbackQuotesTheLatest | crates/application/src/objective/brief.rs:226-244 | its section quotes that comment with author, time and source |
| BriefSections.SectionsAre | crates/application/src/objective/brief.rs:37-87 | the sections of a brief, in order, and exactly when each is there |
| BriefSections.OneLineEach | crates/application/src/objective/brief.rs:304-340 | an open item assigned away, and a closed one, has its one line, which says how it was closed |
| BriefSections.ListsInParts | crates/application/src/objective/brief.rs:304-340 | the lists go through the items in order |
| BriefQueue.TheNextCycleSeesTheStep | crates/application/src/objective/brief.rs:166-200 | the queue line after a rendered progress comment ends with the step that comment recorded |
| BriefVisibility.OutsidersDoNotReachTheBrief | crates/application/src/objective/brief.rs:37-87 | threads that differ only in author, body, time or URL of comments neither by Reili nor trusted give the same brief |
| BriefVisibility.ThreadsAlike | crates/application/src/objective/brief.rs:166-302 | the same for the queue line, the feedback section and every rendering of one thread |
| BriefThreads.ThreadShowsTheLatest | crates/application/src/objective/brief.rs:246-302 | a thread rendered with k comments shows exactly the comments by Reili or trusted authors that fewer than k such comments follow, in order, marks those that wait for Reili, and says how many are left out |
| Brief.RenderThread | crates/application/src/objective/brief.rs:246-302 | the loop over the shown comments builds header, notes and entries in order |
| Brief.WriteThreadsSection | crates/application/src/objective/brief.rs:124-154 | the loop over threads builds the section within its budget |
| BriefBudget.FittingIsLargest | crates/application/src/objective/brief.rs:208-213 | of at most 20 comments the largest number that fits is shown, and none exactly when even no comment fits |
| BriefBudget.ThreadsFillTheBudget | crates/application/src/objective/brief.rs:124-154 | the section shows a prefix of the threads, each with the most comments that fit the room left, within 16,000 characters if the first fits bare, and a note says how many are left out |
| BriefBudget.NoteSurvivesExactlyWhen | crates/application/src/objective/brief.rs:77-83 | in the brief as built, the section of threads ends with the number of those left out if and only if the threads shown leave room for that note |
| BriefBudget.TheNoteCanBeCut | crates/application/src/objective/brief.rs:124-154 | a brief in which a thread is left out and the note is cut off |
| BriefBudget.VisibleAreInOrder | crates/application/src/objective/brief.rs:265-271 | the entries shown are exactly the visible comments, in order |
| Fence.RunsAreBounded | crates/application/src/objective/brief.rs:216-224 | no stretch of backticks in the text is longer than the run the fence is measured by |
| Fence.LongestRunOccurs | crates/application/src/objective/brief.rs:216-224 | and that run occurs |
| Fence.OnlyTheLastLineCloses | crates/application/src/objective/brief.rs:216-224 | of the lines of a fenced text only the last closes the fence, by the rule of CommonMark 0.31, section 4.5 |

## Left out

- LifecycleTheorems.CancelTakesEffect: asks that the attempt can be caught when the request is recorded; what holds of
  the other requests is in `LifecycleRequests.CancelTakesEffectExactlyWhen`.
- LifecycleRequests.CancelTakesEffectExactlyWhen: says nothing of requests for jobs that are over or reported, which
  come too late by any order.
- RoundTrip.ProgressCommentKeepsTheStep: asks for cited evidence without a labelled line, which evidence without line
  breaks is, and for a run id on one line; `RoundTrip.StepIsKeptExactlyWhen` states what holds without that.
- RoundTrip.WithoutAStepTheCommentDecides: asks for the same; `RoundTrip.WithAnyEvidenceTheLaterLineCounts` states what
  holds without that for comments that are not blank, as those of a reported item are.
- RoundTrip.NewItemKeepsTheStep: asks that the step line ends before the 30,000 characters the body is cut to.
- Worker.TaskExecution.ProcessClaimedJob: runs without interruption; interleavings are the subject of `Lifecycle`, whose
  steps are values and not objects.
- Worker.TaskExecution.RunWorkerIteration: runs without interruption as well, and does not sleep when there is no job.
- The in-memory queue never fails to claim or complete, so the worker's branches for such errors cannot be reached with
  it and are not modelled; neither are a second `start`, `stop` and panics of workers.
- Job ids are distinct: they are drawn as UUIDs, and an enqueue of a known id is no step of the model.
- Whether `wait_for_cancellation` wakes up in time: only the flag and the last reads of it are modelled.
- The time zone database: a zone is any clock whose readings the search's answers fit, with fixed offsets and single
  changes of the offset as instances. Dates are unbounded, where chrono's end.
- Steps of 2^64 - 1 and more in one progress stream, where the source would look for a free name for ever.
- Control updates carry no user ids, and failures to post one are not told apart from successes.
- Times in the brief are given as printed; the instants they come from are not modelled.
- Slack, HTTP, MCP and LLM adapters, logging, configuration, the objective cycle itself, authorization, and the small
  pure modules (decisions, budgets, Slack decoding, reconnect back-off).

# Regulator, verified

Dafny models of the parts of Regulator that its measurements rest on, with proofs of what they promise. Regulator
drives searches at a Splunk search head from one process or from a fleet of worker containers, and reports how long
they took.

* **The fleet lease protocol.** Workers claim slots by a compare-and-set on a lease row, warm up, wait for one shared
  start instant, heartbeat, and post a final report; a supervisor sweeps the leases, forces the release, drains, and
  gives up at a ceiling. `Leases` specifies each request handler as one atomic step (a claim as a read and a later
  conditional write), `FleetStore` is the code on rows updated in place, `Supervisor` and `FleetRuns` the watch loop.
  `Protocol` and `LeaseInvariants` say what every step and every run of the control plane keep. `FleetSystem` adds any
  number of workers (`ManagedWorker` in place) and a network of requests and answers that can be lost, delayed,
  reordered and repeated; `FleetSafety` is the inductive invariant of the whole, `FleetTheorems` and `FleetProgress` its
  consequences. `LeaseAnswers` says what each request is answered, `Passes` what a supervisor pass takes, releases and
  cuts off. `OneHolder` says exactly which steps give one holder two live leases, and `LateBeat` has two runs that
  take them.
* **Mergeable measurement.** `Buckets`, `Histogram`, `Percentiles` and `HistogramWire` are the log-linear histogram and
  its error bound, and `ReadingPercentiles` carries the bound to the readings themselves; `Results` and `Intervals` are
  the step, run and interval aggregates and their conservation, `InFlight` the searches in flight, and `Feeds` says
  which records each sketch and each count is made of; `FleetMerge`, `MergeSummaries`, `MergeTheorems` and `MergeOrder`
  are the claim that a merged fleet reads as one worker in whatever order its reports come, `FleetAccuracy` says how
  near its percentiles are to the fleet's own records, `FleetLives` tells it of the workers' whole lives, and
  `FleetOutcome` says what a merged report that reads valid stands for.
* **savedsearches.conf and cron.** `Conf`, `ConfRoundTrip`, `ConfGlue` and `ConfLimits` are the parser and the printer
  and exactly when they undo each other, `ConfDefaults` what any text gives; `SavedSearches` lifts that to whole
  searches; `StepIds` allocates ids; `Calendar` and `Cron` are the schedule parser, its firing count and its successor
  search, `CronDays` the days that a schedule falls on, and `CronText` what a written one means.
* **Planning and control.** `Apportion` and `Planning` divide the load over engines, groups and slots, and `PlanLoads`
  says how much on how many workers; `RunControl` is pause, resume and a live change of load, `PausedTime` the time that
  pauses take.
* **The admission queue.** `AdmissionQueue` and `SearchHead` are the search head double's limit, queue and job clock;
  `AdmissionOrder`, `AdmissionCounts`, `FinishedJobs` and `JobClock` what every run of them keeps.
* **The shared configuration.** `ConfigIo`, `ConfigTwice` and `ConfigRestore` are export, import and what repeating or
  undoing one gives, `ConfigExports`, `ConfigRows` and `ConfigKeys` what each row and credential
  becomes; `ConfigSource`, `ConfigSafety` and `ConfigLoss` are the pulled, edited and pushed copy, and exactly what a
  push loses.

Code that updates state in place is a class whose methods are proved against functions on values; the theorems are
about those functions and about every sequence of them. `dafny verify dfyconfig.toml` checks the whole project.

Where the code does less than its documentation suggests, the model follows the code; one lemma says exactly when the
promise holds, and another shows an input that breaks it:

* a plan that deals an engine no users still runs one (`Planning.ClosedPlanConservesUsersExactly`,
  `Planning.OneUserForTwoEngines`), and shares of zero weights do not add up (`Apportion.DealConservesExactly`,
  `Apportion.ZeroWeightsLoseUsers`);
* one holder can have two live leases (`OneHolder.RunKeepsOneEachExactly`; `LateBeats.OneHolderTwoLeases`,
  `LateBeats.OverlappingClaimsTakeTwo`);
* an epoch without a success is not listed (`MergeTheorems.EpochsExactWhenListed`, `MergeTheorems.FailedEpochIsLost`),
  and interval scan counts include failed searches (`Intervals.ScanCountsAgreeExactly`, `Intervals.OneFailedScan`);
* a done slot with an empty report is neither merged nor lost, and the run can read valid without it
  (`FleetOutcome.ValidSpeaksForAll`, `FleetOutcome.OneSlotSaysNothing`);
* a value that ends in a lone backslash does not survive printing (`ConfLimits.RoundTripExactlyWhenSafe`,
  `ConfLimits.TrailingBackslashIsLost`);
* a finished job that is then paused keeps its slot (`AdmissionQueue.CompleteExactly`,
  `AdmissionOrder.PausedJobKeepsItsSlot`);
* a document that names a target in vain before it creates it is not imported idempotently
  (`ConfigTwice.ImportIdempotentExactly`, `ConfigTwice.NamedInVainIsOverlooked`);
* a row that is here in a form that cannot be exported, such as a scenario whose scenario.yaml is too large, is dropped
  by a push (`ConfigLoss.PushesLoseExactly`, `ConfigLoss.OversizedScenarioIsLost`).

## Model

| member | source | states |
|---|---|---|
| `FleetTheorems.EveryAnswerCarriesOneT0` | server/regulator_server/fleet.py:476-552 | In every run of the control plane, any number of workers and a network that loses, delays, reorders and repeats, every T0 in any claim, ready or heartbeat answer ever given is the run's one T0 |
| `FleetTheorems.EveryStartIsAtT0` | worker/regulator_agent/managed.py:432-444 | A worker that runs has been given a start; that start is the run's T0, or unset only because the worker had been told to stop |
| `FleetProgress.EveryRunGoesForward` | server/regulator_server/fleet.py:528-552 | Over any sequence of protocol actions T0 once set is for good, the phase never goes back, a run draining without T0 never gets one, a done lease keeps its report, and no answer is taken back |
| `FleetTheorems.LeaseIdsIdentify` | server/regulator_server/fleet.py:412-473 | Any two claims answered with the same lease id are the same slot's and the same holder's, with the read and the conditional write of a claim interleaved in any way |
| `FleetTheorems.LeaseIdsAreExclusive` | server/regulator_server/fleet.py:412-473 | Containers with names of their own never hold the same lease id |
| `FleetTheorems.ReadyWorkerIsReleased` | worker/regulator_agent/managed.py:311-356 | A ready worker that still holds its lease in a released, non-draining run: its next answered beat, whatever was lost before, releases it to start at the run's T0 exactly when its slot is not done; when it is, the beat changes neither its release nor its T0 |
| `FleetTheorems.OneBeatConverges` | worker/regulator_agent/managed.py:322-351 | One answered beat of a running worker brings its pause, its load and its cache epoch to the control plane's; hearing the answer again changes nothing |
| `FleetTheorems.EpochConverges` | worker/regulator_agent/managed.py:322-328 | One answered beat of a ready, running or finishing worker that is not superseded brings its cache epoch to the control plane's, whatever was lost before |
| `FleetTheorems.PhasesAreHeard` | server/regulator_server/fleet.py:622-645 | In a released run the beat of a worker that holds a live lease leaves it as it is while the worker warms up or is ready, and running once it runs or finishes |
| `FleetTheorems.PhasesComeBack` | server/regulator_server/fleet.py:622-645 | A lost lease comes back with its worker's beat as claimed, ready or running, by what the worker is doing |
| `FleetTheorems.DrainingWorkerStops` | server/regulator_server/fleet.py:599-621 | A worker that holds its lease in a draining run, in whatever phase it beats and whatever was lost before: its next answered beat tells it to stop, and it waits for no release |
| `FleetTheorems.StopReachesEveryHolder` | server/regulator_server/fleet.py:999-1005 | After a stop request anywhere in a run of the protocol, and whatever follows it short of the end: the run drains, and the next answered beat of every worker that still holds its lease stops it |
| `LeaseAnswers.StopExactly` | server/regulator_server/fleet.py:619-621 | A beat that bears its slot's id in a run that is not finished is answered with a stop if and only if the run is draining or its state is terminal, and is never called superseded |
| `LeaseAnswers.SupersededExactly` | server/regulator_server/fleet.py:600-602 | A beat is called superseded if and only if it bears no id or not its slot's, and then changes nothing |
| `LeaseAnswers.ReadyExactly` | server/regulator_server/fleet.py:496-516 | A ready call of the slot's holder is refused if and only if the run is over; otherwise it is told T0, and a claimed or lost lease is ready |
| `LeaseAnswers.ReturningWorkerReleases` | server/regulator_server/fleet.py:622-635 | A ready worker whose lease was lost, the last that the fleet waits for: its beat restores the lease, releases the fleet and is told the new T0 |
| `LeaseAnswers.ReturningStarterIsClaimed` | server/regulator_server/fleet.py:622-625 | A lost lease whose worker is still starting is claimed again by its beat, and no T0 is set |
| `LeaseAnswers.BeatPlaces` | server/regulator_server/fleet.py:622-645 | Where a beat of a run with T0 leaves its lease: a lost one where its worker says it is, a live one running if and only if its worker says it has started; until then it is told T0 |
| `LeaseAnswers.EpochIsTold` | server/regulator_server/fleet.py:580-596 | The cache epoch asked for last rides the next beat with its number and its instant, whatever else that is answered |
| `LeaseAnswers.ClaimAnswersExactly` | server/regulator_server/fleet.py:428-441 | A claim is refused if and only if the run drains or is over, or the holder has no live lease and none is claimable for it; one with a live lease keeps the first, is told its id and T0, and is heard of |
| `LeaseAnswers.ClaimTriesExactly` | server/regulator_server/fleet.py:434-450 | A claim tries every claimable lease of the engine it names and no other, once each: those at its hint first, and then in slot order |
| `LeaseAnswers.GrantedEngine` | server/regulator_server/fleet.py:434-471 | Whatever other requests change between its read and its write, a claim that names an engine is only ever granted a slot of that engine, under the id just made and in its own name |
| `LeaseAnswers.UnhurriedClaimTakes` | server/regulator_server/fleet.py:450-473 | A claim written straight after its read takes the first lease on its list, is told the run's T0, counts a restart if and only if that lease was lost, and changes nothing else |
| `OneHolder.StepKeepsOneEachExactly` | server/regulator_server/fleet.py:430-471 | From any sound rows in which no holder has two live leases, a step keeps it so exactly unless it is a conditional write that lands for a holder with a live lease by then, or an unfenced ready or heartbeat for a lost lease whose holder has another one live |
| `OneHolder.RunKeepsOneEachExactly` | server/regulator_server/fleet.py:430-471 | In every run of the whole protocol no holder ever has two live leases exactly when no action of the run is one of those |
| `OneHolder.UnhurriedClaimKeeps` | server/regulator_server/fleet.py:428-453 | A claim whose write follows straight on its read is none of those |
| `LateBeats.OneHolderTwoLeases` | server/regulator_server/fleet.py:625-628 | A run of the protocol from its launch in which a delayed beat restores a lease that was lost before a container of the same name claimed another: one holder, two live leases |
| `LateBeats.OverlappingClaimsTakeTwo` | server/regulator_server/fleet.py:428-471 | A run from its launch in which one claim is sent twice and both read before either writes: one holder, two live leases |
| `FleetTheorems.ReadyWorkersSlot` | server/regulator_server/fleet.py:658-671 | A ready worker's slot is done only where another container of its own name has reported under the very lease it holds |
| `FleetSafety.EveryRunIsSound` | server/regulator_server/fleet.py:412-678 | The inductive invariant of the whole protocol: rows, open claims, answers, workers and requests in every reachable state agree on T0, on who holds each lease id and on who has reported |
| `FleetSafety.ActionSound` | server/regulator_server/fleet.py:412-678 | Each single action, worker or control plane, preserves that invariant |
| `FleetSafety.HearingSound` | worker/regulator_agent/managed.py:322-351 | Hearing any sound answer leaves a worker sound: it learns T0 only from an answer that carries it and is released only by T0 or a stop |
| `FleetSafety.ContentionSound` | server/regulator_server/fleet.py:442-473 | The id made by one conditional write goes to nobody else, whatever happened between the claim's read and the write |
| `LeaseInvariants.ReachableIsSound` | server/regulator_server/fleet.py:412-678 | In every reachable state a releasing or running run has its T0, so does any running lease; live leases have a holder and an id below the next fresh one; ids are distinct; a lease has a report exactly when it is done |
| `LeaseInvariants.StepSound` | server/regulator_server/fleet.py:412-678 | Each handler and each supervisor pass preserves those row invariants |
| `LeaseInvariants.ReleaseExactly` | server/regulator_server/fleet.py:528-552 | T0 is set exactly when a provisioning run has a ready lease and nothing pending, or is forced; at that instant no lease is free or claimed and at least one is ready |
| `LeaseInvariants.Fenced` | server/regulator_server/fleet.py:506-508 | A ready, heartbeat or final with an id its slot no longer has leaves every row unchanged |
| `LeaseInvariants.ReplacedStaysFenced` | server/regulator_server/fleet.py:594-678 | An id once replaced is never that lease's again in any later state, so whoever bears it is shut out for good |
| `LeaseInvariants.FirstReportStays` | server/regulator_server/fleet.py:658-671 | The first report accepted for a slot is the only one: no later step changes it or the lease's done state |
| `LeaseInvariants.ReportTakenExactly` | server/regulator_server/fleet.py:658-671 | A final report is taken if and only if the run is not finished, the slot is not done, and the id, when one is given, is the slot's |
| `LeaseInvariants.ReleasedByNextBeat` | server/regulator_server/fleet.py:636-641 | A heard beat of a worker not yet started is answered with a release at T0 if and only if its slot is not done |
| `LeaseInvariants.LastReadyReleases` | server/regulator_server/fleet.py:496-516 | The last lease to become ready releases the fleet, and its own answer carries the T0 just set |
| `LeaseInvariants.RunningHeartbeat` | server/regulator_server/fleet.py:642-655 | What a started worker's beat does to the rows and is told, in closed form: the pause, the slot's load, the epoch |
| `LeaseInvariants.RepeatedBeatChangesNothing` | server/regulator_server/fleet.py:642-655 | A repeated beat changes nothing but the instant last heard and is told the same |
| `LeaseInvariants.FinishedIsOver` | server/regulator_server/routes/agent.py:38-60 | In every later state of a run that is not finished yet, finished means that its outcome is final and every request is refused |
| `Protocol.RunsGoForward` | server/regulator_server/fleet.py:412-678 | From any rows and over any steps: T0, the phase order, done leases and their reports, and the freshness of replaced ids are never taken back |
| `Protocol.StepForward` | server/regulator_server/fleet.py:412-678 | The same for each single handler call, control and supervisor pass |
| `Protocol.TickForward` | server/regulator_server/fleet.py:1274-1362 | A supervisor pass, with its lapses, forced release, drain and cut-off, keeps the same order |
| `FleetStores.FleetStore.EvaluateRelease` | server/regulator_server/fleet.py:528-552 | The in-place release equals its specification and says whether it released |
| `FleetStores.FleetStore.ClaimRead` | server/regulator_server/fleet.py:412-441 | The claim's read: refused, the holder's live lease, or the claimable leases with the hinted slot first |
| `FleetStores.FleetStore.ClaimRenew` | server/regulator_server/fleet.py:430-433 | A repeated claim renews the lease its holder has |
| `FleetStores.FleetStore.ClaimWrite` | server/regulator_server/fleet.py:442-473 | The conditional update takes effect only on a lease still free or lost, and only then grants |
| `FleetStores.FleetStore.MarkReady` | server/regulator_server/fleet.py:496-516 | The in-place ready handler, with its fence and the release it may trigger, equals its specification |
| `FleetStores.FleetStore.Heartbeat` | server/regulator_server/fleet.py:599-655 | The in-place heartbeat handler equals its specification in every branch, of which StopExactly, SupersededExactly, ReleasedByNextBeat, RunningHeartbeat and the returning workers' lemmas say what each answers |
| `FleetStores.FleetStore.Final` | server/regulator_server/fleet.py:658-671 | The in-place final handler equals its specification, the unfenced empty id included |
| `FleetStores.FleetStore.RequestStop` | server/regulator_server/fleet.py:999-1005 | A stop drains every run that is not finished |
| `FleetStores.FleetStore.constructor` | server/regulator_server/fleet.py:301-323 | A launched run: no T0, provisioning, a free lease for each planned slot |
| `Leases.ReleaseDelay` | server/regulator_server/fleet.py:519-525 | The release delay is four seconds or two and a half heartbeats, whichever is longer |
| `Leases.HeldBy` | server/regulator_server/fleet.py:428-433 | The first live lease of a holder, if it has one |
| `Supervisor.TickSettles` | server/regulator_server/fleet.py:1341-1362 | A pass that ends the watch leaves every lease done or lost, and a pass beyond the ceiling ends it |
| `Supervisor.Collect` | server/regulator_server/fleet.py:1119-1138 | The loop that gathers reports and lost slots equals its specification |
| `Supervisor.CollectionAccounts` | server/regulator_server/fleet.py:1119-1138 | Every readable report of a done slot is merged once, in slot order; a slot is counted lost if and only if it neither contributes nor is dropped, and the dropped ones are those neither lost nor done with a report that is not empty |
| `FleetRuns.FleetRun.OnePass` | server/regulator_server/fleet.py:1274-1365 | One in-place pass of the supervisor equals its specification, which the lemmas of Passes describe in full |
| `Passes.DeadlineReleasesExactly` | server/regulator_server/fleet.py:1316-1331 | Past the provisioning deadline a pass releases a run without T0, a release delay from then, if and only if some ready lease was heard of within its time; otherwise the run drains with its error and without T0; any other pass leaves T0 and the phase alone |
| `Passes.SweepTakesExactly` | server/regulator_server/fleet.py:1283-1340 | Which leases a pass takes, by state, last beat, phase and deadline, and that it changes nothing else of any |
| `Passes.PassIsSweepThenCutOff` | server/regulator_server/fleet.py:1341-1362 | Beyond a deadline every lease that is not done is lost; the watch ends if and only if that is so or all are done or lost |
| `Passes.CutOffExactly` | server/regulator_server/fleet.py:1263-1272 | A run is cut off if and only if its time since T0, pauses not counted, exceeds its duration, five minutes, the drain and the harvest, or the clock is past the ceiling |
| `Passes.PauseMovesDeadline` | server/regulator_server/fleet.py:555-559 | A pause moves the deadline by exactly its length, and while it lasts the deadline comes no nearer |
| `FleetRuns.FleetRun.Watch` | server/regulator_server/fleet.py:1252-1365 | For any requests and controls in between and a clock that gains a tick each pass, the watch ends with the first pass that says so, none of the earlier ones is past the ceiling, and every lease is then done or lost |
| `FleetRuns.FleetRun.Handle` | server/regulator_server/routes/agent.py:93-131 | Each request or control, applied in place between two passes, equals its step |
| `FleetRuns.NewT0` | server/regulator_server/fleet.py:528-552 | T0 is only ever set by a step of a provisioning run, a release delay after that step |
| `FleetRuns.T0ComesInTime` | server/regulator_server/fleet.py:1316-1331 | At every pass T0, if set, is at most one pass gap and one release delay after the provisioning deadline |
| `FleetRuns.CeilingCoversDeadline` | server/regulator_server/fleet.py:1266-1270 | At every pass the pause-adjusted deadline is at most the fixed ceiling, as long as total pause is within its limit and gap plus release delay fit in 300 seconds |
| `ManagedWorkers.ManagedWorker.RequestStop` | worker/regulator_agent/managed.py:294-302 | A stop from any source also ends the wait for a release |
| `ManagedWorkers.ManagedWorker.OnClaim` | worker/regulator_agent/managed.py:359-372 | A granted claim gives the worker its slot and its lease |
| `ManagedWorkers.ManagedWorker.OnReady` | worker/regulator_agent/managed.py:432-440 | What the ready answer does to the worker, the release of a late worker included |
| `ManagedWorkers.ManagedWorker.OnHeartbeat` | worker/regulator_agent/managed.py:322-351 | What an answered heartbeat does: epoch, command, pause and load, in that order |
| `ManagedWorkers.ManagedWorker.StartWhenReleased` | worker/regulator_agent/managed.py:439-445 | The run starts exactly when the worker is ready, acknowledged, released and not superseded |
| `Apportion.EvenSplit` | server/regulator_server/fleet.py:174-176 | An even split loses nothing, no two shares differ by more than one, and the larger come first |
| `Apportion.EvenSplitWithin` | server/regulator_server/fleet.py:174-176 | Shares are at least one when there are no more workers than users, and within the density when the workers can hold the total |
| `Apportion.Deal` | server/regulator_server/fleet.py:179-191 | The largest-remainder loop equals its specification |
| `Apportion.DealApportions` | server/regulator_server/fleet.py:179-191 | With weights whose sum is not zero the shares add up to the total and each is its quota rounded down or up |
| `Apportion.LargestRemaindersFirst` | server/regulator_server/fleet.py:189-190 | Nobody rounded down had a larger remainder, or an equal one and a later key, than somebody rounded up |
| `Apportion.DealConservesExactly` | server/regulator_server/fleet.py:179-191 | With non-negative weights the shares add up to the total if and only if some weight is positive or the total is at most one each |
| `Apportion.ZeroWeightsLoseUsers` | server/regulator_server/fleet.py:185-190 | Five users over two engines of weight zero do not stay five |
| `Planning.Plan` | server/regulator_server/fleet.py:194-264 | The nested planning loops equal the plan specification |
| `Planning.SlotBases` | server/regulator_server/fleet.py:1070-1089 | The bases handed to the driver are the workers of the groups before |
| `Planning.SlotsFollowTheirBase` | server/regulator_server/fleet.py:1070-1089 | A driver's slot base is the group's first slot and the group's slots follow on from it |
| `Planning.SlotsAreNumbered` | server/regulator_server/fleet.py:217-263 | The slots of a plan are 0 to N-1, once each and in order |
| `Planning.ClosedShares` | server/regulator_server/fleet.py:227-258 | A closed group hands out exactly its users, at least one each, within one of each other, and none above the density unless the count was asked for |
| `Planning.ClosedPlanConservesUsersExactly` | server/regulator_server/fleet.py:228-232 | A closed plan runs exactly the configured users if and only if every engine was dealt at least one, and never fewer |
| `Planning.OneUserForTwoEngines` | server/regulator_server/fleet.py:229 | One user over two engines becomes more than one |
| `Planning.LiveLoadAddsUp` | server/regulator_server/fleet.py:562-579 | The slots' loads after a live change add up to the rounded change, and stay within the density when the change was no more than the fleet was sized for |
| `Planning.LiveLoadIsAReplan` | server/regulator_server/fleet.py:562-579 | Setting the load a single-engine closed run was launched with gives every slot its launched share |
| `PlanLoads.EnginesExactly` | server/regulator_server/fleet.py:204 | There is a group for each engine that some persona uses, api first, and one of api where none uses any |
| `PlanLoads.ClosedWorkers` | server/regulator_server/fleet.py:228-247 | A closed group gets the fewest workers that hold its users, none more than the browser contexts or the users its settings allow; or as many as asked for, never more than users |
| `PlanLoads.OrderedUsers` | server/regulator_server/fleet.py:206-212 | A run that asks for users gets exactly those, unless it asks for a rate or the scenario runs to a schedule |
| `PlanLoads.ScenarioUsers` | server/regulator_server/fleet.py:206-212 | One that asks for no load of its own runs the scenario's, and one that asks for a pace runs an open scenario closed |
| `PlanLoads.AskedWorkers` | server/regulator_server/fleet.py:223-235 | A mixed run gets the workers it asks for if and only if each engine is dealt one |
| `PlanLoads.UsersByWeight` | server/regulator_server/fleet.py:214-222 | An engine of a mixed run is dealt its part of the users, rounded up or down: a persona counts half for each engine it uses |
| `PlanLoads.OpenShares` | server/regulator_server/fleet.py:231-261 | Every worker of an open group takes its group's rate divided to four decimals; unless the count is given there are the fewest workers that make it sixty a minute for each user or context held |
| `PlanLoads.GroupRatesAddUp` | server/regulator_server/fleet.py:206-231 | The groups' rates add up to the rate asked for, or else the scenario's |
| `PlanLoads.LiveRate` | server/regulator_server/fleet.py:576-578 | A changed rate is shared out alike over an open group, to four decimals |
| `LeaseInvariants.PermittedControlIsHeard` | server/regulator_server/runcontrol.py:43-60 | A control of a fleet is permitted exactly while the fleet runs; then T0 is set, every slot's holder is heard, and its next beat is told the pause, the resume or the load that the control made |
| `RunControl.RunRow.Pause` | server/regulator_server/runcontrol.py:86-93 | Pausing in place: refused, already paused, or paused and recorded |
| `RunControl.RunRow.Resume` | server/regulator_server/runcontrol.py:96-105 | Resuming in place: the length of the pause is added and recorded |
| `RunControl.RunRow.SetLoad` | server/regulator_server/runcontrol.py:108-148 | Setting the load in place, with each of its refusals |
| `RunControl.ControlsAccountForPauses` | server/regulator_server/runcontrol.py:86-105 | Over every sequence of changes to a fresh row the recorded pauses and resumes alternate, and the row's paused time at any instant is what the record alone covers |
| `RunControl.PausedSecondsReplays` | server/regulator_server/fleet.py:555-559 | The paused seconds are the recorded pauses' length if and only if the open pause did not start at the clock's own zero, which reads as no pause |
| `RunControl.AcceptedLoadFits` | server/regulator_server/runcontrol.py:132-148 | A load accepted for a closed fleet adds up over the slots and puts none above the density it was sized for |
| `RunControl.InProcessLoadExactly` | server/regulator_server/runcontrol.py:43-131 | An in-process run's load is accepted if and only if the run is going and here, its scheduler takes it, and it is not negative nor beyond the ceiling in users, or in arrivals a second |
| `RunControl.FleetLoadExactly` | server/regulator_server/runcontrol.py:43-148 | A fleet's load is accepted if and only if the fleet runs, its slots are of one engine and none keeps to a schedule, and it is not negative nor more, for closed slots, than they hold together |
| `RunControl.AcceptedLoadIsRecorded` | server/regulator_server/runcontrol.py:140-148 | An accepted load is what the run is set to, and is put on record with its instant, as users or as a rate by its model |
| `PausedTime.PausedIsNotGoing` | server/regulator_server/runcontrol.py:86-105 | Over every sequence of changes on a clock that does not go back, a run has been paused for exactly the time in which it was not going, the clock's zero apart |
| `Buckets.BucketIndex` | worker/regulator_agent/histogram.py:48-62 | A negative value is refused; any other gets the bucket whose bounds hold it |
| `Buckets.BucketsTile` | worker/regulator_agent/histogram.py:65-76 | Each bucket ends where the next one begins |
| `Buckets.IndexCovers` | worker/regulator_agent/histogram.py:48-76 | Every value lies in its own bucket |
| `Buckets.IndexIffInBucket` | worker/regulator_agent/histogram.py:48-80 | A value has an index if and only if it lies between that bucket's bounds |
| `Buckets.IndexOfLowerBound` | worker/regulator_agent/histogram.py:48-71 | The index of a bucket's lower bound is that bucket |
| `Buckets.IndexMonotone` | worker/regulator_agent/histogram.py:48-61 | A larger value never has a smaller index |
| `Buckets.RelativeWidth` | worker/regulator_agent/histogram.py:73-76 | Above the linear region a bucket is at most a sixty-fourth of its lower bound wide |
| `Buckets.MidpointError` | worker/regulator_agent/histogram.py:79-80 | A bucket's midpoint is within a hundred-and-twenty-eighth of any value in it |
| `Histogram.LatencyHistogram.RecordUs` | worker/regulator_agent/histogram.py:99-110 | Recording in place inserts the reading's whole microseconds, within half of one of it and none for a negative reading; the least and the greatest move with it |
| `Histogram.LatencyHistogram.Merge` | worker/regulator_agent/histogram.py:211-221 | Merging in place equals adding sketches and leaves the other histogram alone |
| `Histogram.LatencyHistogram.Reset` | worker/regulator_agent/histogram.py:266-271 | A reset histogram is an empty one |
| `Histogram.LatencyHistogram.Copy` | worker/regulator_agent/histogram.py:261-264 | A copy is a new histogram with the same sketch |
| `Histogram.MergeHistograms` | worker/regulator_agent/histogram.py:292-297 | Merging many equals the sum of their sketches |
| `Histogram.MergeIsConcatenation` | worker/regulator_agent/histogram.py:211-221 | Merging two sketches is sketching the joined samples |
| `Histogram.MergeAllIsConcatenation` | worker/regulator_agent/histogram.py:292-297 | Merging many sketches is sketching all their samples |
| `Histogram.MergeCommutes` | worker/regulator_agent/histogram.py:211-221 | Merging does not depend on the order |
| `Histogram.MergeAssociates` | worker/regulator_agent/histogram.py:211-221 | Nor on the grouping |
| `Histogram.InsertRepeated` | worker/regulator_agent/histogram.py:99-110 | Recording a reading several times at once is recording it one by one |
| `Histogram.MicrosNear` | worker/regulator_agent/histogram.py:102 | A reading is filed as a whole number of microseconds within half of it, a negative one as zero |
| `Histogram.MicrosOfWhole` | worker/regulator_agent/histogram.py:102 | A whole number is filed as itself |
| `Histogram.MicrosMonotone` | worker/regulator_agent/histogram.py:102 | A larger reading is never filed as less |
| `Histogram.SketchSum` | worker/regulator_agent/histogram.py:105-106 | The sum a histogram keeps is that of its samples |
| `HistogramWire.ToWire` | worker/regulator_agent/histogram.py:223-238 | The wire form reads back to the histogram it was written from |
| `HistogramWire.ReadWritten` | worker/regulator_agent/histogram.py:241-259 | The bucket table read from what was written is the one that was written |
| `Percentiles.PercentileUs` | worker/regulator_agent/histogram.py:142-170 | The percentile loop equals the bucket holding the rank, clamped into the seen range |
| `Percentiles.SketchExact` | worker/regulator_agent/histogram.py:99-110 | The count, the least and the greatest of a histogram are those of its samples, each of which has its bucket |
| `Percentiles.SketchCounts` | worker/regulator_agent/histogram.py:99-110 | Up to any bucket, a histogram counts as many recordings as there are samples in the buckets below it |
| `Percentiles.SketchIgnoresOrder` | worker/regulator_agent/histogram.py:99-110 | A sketch depends only on which samples were recorded |
| `Percentiles.PercentileAccurate` | worker/regulator_agent/histogram.py:142-170 | For 0 < p < 100 the percentile is within x/128 of the nearest-rank sample x, and lies between the least and the greatest |
| `Percentiles.MergedPercentileAccurate` | worker/regulator_agent/histogram.py:211-221 | The same for merged histograms and the nearest-rank sample of all their samples together |
| `Percentiles.PercentileMonotone` | worker/regulator_agent/histogram.py:142-170 | A higher percentile is never a lower value |
| `ReadingPercentiles.ReadingPercentileAccurate` | worker/regulator_agent/histogram.py:99-170 | After recording any real readings in any order the percentile is within (x + 1/2)/128 + 1/2 microseconds of the nearest-rank reading x |
| `ReadingPercentiles.MillisecondsAccurate` | worker/regulator_agent/histogram.py:112-170 | The same in milliseconds, as latencies are read and percentiles reported: within x/128 + 0.000504 of the nearest-rank reading x |
| `Results.StepStats.Add` | worker/regulator_agent/results.py:218-261 | Adding a record to a step in place: cancelled, failed and successful records each to their own counters and sketches (which, Feeds.StepsAreTheirRecords says) |
| `Results.IntervalStats.Add` | worker/regulator_agent/results.py:613-629 | Adding a record to the open interval in place |
| `Results.RunStats.Record` | worker/regulator_agent/results.py:414-457 | Recording in place updates the step, the interval, the epoch and the cumulative figures as specified, by records in Feeds |
| `Results.RunStats.RecordLoopLag` | worker/regulator_agent/results.py:459-470 | A loop-lag reading goes to the run and to the interval, unless it is not positive |
| `Results.RunStats.RecordAfterEnd` | worker/regulator_agent/results.py:472-480 | A followed-up search is counted in place as finished, with its duration, or as still running |
| `Results.RunStats.TakeInterval` | worker/regulator_agent/results.py:406-412 | Taking hands over the open interval with the searches in flight and the cache epoch, and starts an empty one |
| `Results.RunStats.SetEpoch` | worker/regulator_agent/results.py:399-404 | The epoch only moves up, and takes its instant with it; one announced again keeps the instant it has |
| `Results.RunStats.Enter` | worker/regulator_agent/results.py:486-488 | One more in flight, and the peak with it |
| `Results.RunStats.Leave` | worker/regulator_agent/results.py:490-491 | One fewer in flight, never below none |
| `Feeds.StepsAreTheirRecords` | worker/regulator_agent/results.py:218-261 | After any events each sketch of a step is that of its records' readings in order: latency, service, dispatch and first-result times of its successes, service times of its failures, latencies by cache phase; each count is a number of records, each sum one over records; its class is its first record's |
| `Feeds.StepsInOrder` | worker/regulator_agent/results.py:440-447 | The steps are listed in the order of their first records |
| `Feeds.FiguresAreTheRecords` | worker/regulator_agent/results.py:414-480 | The same of the run's own sketches, counts, greatest debt and lag, errors by class and epochs |
| `Intervals.MergeIntervals` | worker/regulator_agent/results.py:662-684 | The merged document reads as the sum of the intervals: counts, errors by class, searches in flight, and the latency, queueing and loop-lag sketches |
| `Intervals.IntervalsConserve` | worker/regulator_agent/results.py:406-470 | After any records, lag readings and takes, the taken intervals plus the open one equal the run: executions, errors by class, queued and job counts, and the latency, failure, queueing and loop-lag sketches |
| `Intervals.RunsBalance` | worker/regulator_agent/results.py:414-457 | Executions and errors are the sums over the steps, the abandoned what the steps left unfinished, and executions are successes plus errors, counted from the sketches |
| `Intervals.IntervalsScanFailuresToo` | worker/regulator_agent/results.py:629 | The intervals' scan count is the steps' plus what failed searches scanned |
| `Intervals.ScanCountsAgreeExactly` | worker/regulator_agent/results.py:251-253 | The two agree if and only if no failed search scanned anything |
| `Intervals.OneFailedScan` | worker/regulator_agent/results.py:251-253 | One failed search that scanned is counted by the interval and not by its step |
| `InFlight.InFlightExactly` | worker/regulator_agent/results.py:486-491 | In flight are exactly the searches that have entered and not left |
| `InFlight.PeakIsMost` | worker/regulator_agent/results.py:486-491 | The peak is the most that were in flight after any of the operations |
| `FleetMerge.CombineIsConcatenation` | server/regulator_server/fleet.py:706-914 | Two workers' aggregates added are those of one worker that saw both streams |
| `FleetMerge.FleetIsOneWorker` | server/regulator_server/fleet.py:706-914 | Any number of workers' aggregates added are those of one worker fed every stream in turn |
| `FleetAccuracy.MergeIsItsRecords` | server/regulator_server/fleet.py:706-914 | The merged report of a fleet, its figures and each of its steps, is that of all the records its workers took, every reading in its own sketch |
| `FleetAccuracy.MergedLatencyIsAccurate` | server/regulator_server/fleet.py:706-914 | A latency percentile of a merged report is within x/128 + 0.000504 ms of x, the nearest-rank latency among the successful searches of the whole fleet |
| `FleetAccuracy.MergedStepLatencyIsAccurate` | server/regulator_server/fleet.py:737-768 | The same for each step of the merged report |
| `MergeSummaries.MergeSteps` | server/regulator_server/fleet.py:737-757 | The loop that folds step documents by id equals its specification |
| `MergeSummaries.MergeReports` | server/regulator_server/fleet.py:706-914 | The merge loop: summed figures, steps in first-seen order, listed epochs, summed peaks, the worst outcome, and validity only when every report is valid and no slot was lost |
| `MergeTheorems.MergeIsOneWorker` | server/regulator_server/fleet.py:706-914 | Merging the workers' reports gives the figures, the sketches and the steps, in the same order, of one run fed every stream in turn |
| `MergeOrder.OrderDoesNotMatter` | server/regulator_server/fleet.py:706-914 | Reports in any other order give the same figures, epochs, peak, outcome and validity, and the same steps, each with the same counts and sketches |
| `MergeOrder.MergedAt` | server/regulator_server/fleet.py:737-768 | A merged step has what every document that names it says of it, and a step is listed exactly when some report names it |
| `FleetLives.FleetReadsAsOneWorker` | server/regulator_server/fleet.py:706-914 | However the operations of a fleet's workers interleave, each report is its worker's own snapshot, the merge has the figures and the steps of one worker fed every stream in turn, and the merged peak is at least the most ever in flight at once |
| `FleetLives.LifeIsFeed` | worker/regulator_agent/results.py:414-457 | A worker's totals are those of its records and readings, each record under the epoch clock its earlier operations had set |
| `FleetOutcome.ValidSpeaksForAll` | server/regulator_server/fleet.py:1119-1138 | Once every lease is done or lost, a merged report that reads valid has a report of every slot but those that are done with a report that says nothing, so it speaks for the whole fleet exactly when there are none |
| `FleetOutcome.OneSlotSaysNothing` | server/regulator_server/fleet.py:1127 | Of two done slots one reported nothing, and the run reads valid |
| `FleetOutcome.OutcomeIsGravest` | server/regulator_server/fleet.py:851-859 | The merged outcome is the gravest that a worker reports, failed before aborted before stopped, completed when none is; a report without one is a failure |
| `MergeTheorems.EpochsExactWhenListed` | worker/regulator_agent/results.py:516-525 | A merged epoch's executions are never too many, and all of them if and only if every worker that executed anything in it had a success there |
| `MergeTheorems.FailedEpochIsLost` | worker/regulator_agent/results.py:516-525 | A worker all of whose searches in an epoch failed is missing from that epoch's merged count |
| `MergeTheorems.SummedPeakBoundsTruePeak` | server/regulator_server/fleet.py:796 | However the workers' searches interleave, the summed peaks are at least the most ever in flight at once |
| `MergeTheorems.OneRunPeak` | worker/regulator_agent/results.py:486-491 | One run that saw every enter and leave has no higher a peak than the workers' true one |
| `Conf.ParseText` | worker/regulator_agent/savedsearches.py:46-113 | The parser's loops equal the line-by-line specification |
| `Conf.RenderText` | worker/regulator_agent/savedsearches.py:116-145 | The printer's loops equal its specification |
| `ConfRoundTrip.RoundTrip` | worker/regulator_agent/savedsearches.py:46-145 | Parsing what was printed gives the document back, order included, under any header, for every document of safe names, keys and values |
| `ConfLimits.RoundTripExactlyWhenSafe` | worker/regulator_agent/savedsearches.py:46-145 | Under any header a document of good names, keys and values comes back, order included, if and only if all its values are safe: no line but the last ends in a backslash, and the last not in a lone one |
| `ConfLimits.UnsafeIsLost` | worker/regulator_agent/savedsearches.py:46-145 | One unsafe value anywhere in a document keeps the document from coming back |
| `ConfLimits.ParsedIsUnbroken` | worker/regulator_agent/savedsearches.py:46-95 | Whatever text is parsed, no value it gives has a newline straight after a backslash |
| `ConfGlue.ReadsGlued` | worker/regulator_agent/savedsearches.py:55-78 | A value that ends in a lone backslash swallows the line after it; a stanza's lines are read as those joined ones |
| `ConfGlue.StanzaSpoils` | worker/regulator_agent/savedsearches.py:46-145 | What is stored for the first such value of a stanza is not the value, whatever follows it |
| `ConfLimits.TrailingBackslashIsLost` | worker/regulator_agent/savedsearches.py:46-145 | A document with a value that ends in one backslash does not come back |
| `ConfDefaults.ParsedExactly` | worker/regulator_agent/savedsearches.py:46-113 | What any text gives: a stanza for each name it opens but default's, however often, and in it for each key the last value set there, else the last set under default or before any stanza |
| `ConfDefaults.MarkIsSkipped` | worker/regulator_agent/savedsearches.py:76 | A byte order mark in front of a text changes nothing |
| `SavedSearches.NormaliseTwice` | worker/regulator_agent/savedsearches.py:184-200 | Normalising a search twice is normalising it once |
| `SavedSearches.NormaliseExactly` | worker/regulator_agent/savedsearches.py:184-200 | A search is trimmed, and gets the search command in front if and only if it is not empty and starts neither with a pipe nor with that word, in any case, and a blank, a newline or its end |
| `SavedSearches.BuildStanza` | worker/regulator_agent/savedsearches.py:258-285 | The stanza builder equals its specification |
| `SavedSearches.FromStanzaCanonical` | worker/regulator_agent/savedsearches.py:288-318 | Whatever is read is in canonical form if and only if its app is its own or a hint without blanks around it |
| `SavedSearches.StanzaRoundTrip` | worker/regulator_agent/savedsearches.py:258-318 | A saved search in canonical form is read back from its own stanza |
| `SavedSearches.FileRoundTrip` | worker/regulator_agent/savedsearches.py:405-406 | A printed list of distinctly named searches in canonical form parses back to that list |
| `SavedSearches.SwitchesRead` | worker/regulator_agent/savedsearches.py:180-181 | A search is scheduled, or disabled, if and only if its switch says one of six words, in any case and with any blanks around it |
| `SavedSearches.BareStanza` | worker/regulator_agent/savedsearches.py:258-285 | A stanza without annotations has every attribute of the full one but those whose names start with "regulator." |
| `StepIds.CandidatesDiffer` | worker/regulator_agent/savedsearches.py:876-880 | Two numbered candidates are never the same text |
| `StepIds.StepIdFor` | worker/regulator_agent/savedsearches.py:867-883 | The search for a free id ends, and gives the first free candidate: well formed, new, and added to the taken ones |
| `StepIds.StepIdsFor` | worker/regulator_agent/savedsearches.py:864-883 | For every list of names the ids are pairwise distinct, outside the initial set, non-empty and over the allowed characters |
| `StepIds.BaseKeeps` | worker/regulator_agent/savedsearches.py:874 | An id is made of its name's letters, digits and underscores, lowered and in order, as many as 56 characters hold, and is "search" where there are none |
| `Cron.ParseCronField` | worker/regulator_agent/savedsearches.py:671-710 | The field parser's loop equals its specification |
| `Cron.ParseField` | worker/regulator_agent/savedsearches.py:671-710 | A parsed field is not empty, within bounds, and has no weekday 7 |
| `Cron.FieldHolds` | worker/regulator_agent/savedsearches.py:671-710 | A field holds exactly the values its comma-separated parts name, with 7 read as 0 for a weekday |
| `Cron.ParseCron` | worker/regulator_agent/savedsearches.py:769-785 | An expression is accepted if and only if it has five words that are each a field; the sets are those of its fields |
| `Cron.NextAfter` | worker/regulator_agent/savedsearches.py:759-766 | The least matching minute strictly after the given one, or none when none matches within the limit; CronDays and CronText say what matches |
| `Cron.FortnightFirings` | worker/regulator_agent/savedsearches.py:743-756 | The minute-by-minute walk counts exactly matching days times hours times minutes; how many days match, CronDays says |
| `Cron.FiringsPerDay` | worker/regulator_agent/savedsearches.py:743-756 | A fourteenth of that count; for schedules by weekday, WeeklyRate says how much |
| `CronDays.DaysOfTheWeek` | worker/regulator_agent/savedsearches.py:732-734 | The fifth of January 2026 is a Monday, each midnight starts the next day of the week, and the day rule reads those days |
| `CronDays.FallsExactly` | worker/regulator_agent/savedsearches.py:732-741 | The day rule: any day of the months when both fields are free, the restricted one's days when one is, either's when neither is |
| `CronDays.BothIsEither` | worker/regulator_agent/savedsearches.py:726-741 | A schedule restricted both ways matches whenever one of the two restricted one way does |
| `CronDays.NextOnWeekday` | worker/regulator_agent/savedsearches.py:759-766 | The next firing of a schedule by weekdays is on a weekday it names, and no earlier minute on one, at its times and in its months, is passed over |
| `CronDays.WeeklyIsTwice` | worker/regulator_agent/savedsearches.py:743-756 | A schedule by weekdays falls on each of them exactly twice in the fortnight |
| `CronDays.MonthlyIsItsDays` | worker/regulator_agent/savedsearches.py:743-756 | A schedule by days of the month falls on those of the 5th to the 18th |
| `CronDays.EveryDay` | worker/regulator_agent/savedsearches.py:743-756 | A free one falls on every day of the fortnight, one without January on none |
| `CronDays.EitherDays` | worker/regulator_agent/savedsearches.py:743-756 | One restricted both ways falls on at least as many days as by either field, and at most on both together |
| `CronDays.WeeklyRate` | worker/regulator_agent/savedsearches.py:743-756 | Firings a day times seven are the weekdays, or seven, times the hours times the minutes |
| `CronText.PartRead` | worker/regulator_agent/savedsearches.py:683-702 | A written part, a star, a value or a range, with a step or without, is taken if and only if it fits its field, and is read as what it says |
| `CronText.FieldRead` | worker/regulator_agent/savedsearches.py:671-710 | A field of written parts is taken if and only if all of them fit, holds exactly what one of them covers, and is free if and only if one is a bare star |
| `CronText.WeekdaysRead` | worker/regulator_agent/savedsearches.py:671-710 | The same for weekdays, with Sunday named by 0 or 7 |
| `CronText.ReadSchedule` | worker/regulator_agent/savedsearches.py:769-785 | A written expression is taken if and only if every part of it fits, and each field is what its parts cover |
| `CronText.NextDue` | worker/regulator_agent/savedsearches.py:759-785 | From the text of a schedule to its next firing: the first minute after the given one at which it is due by what its parts say |
| `Calendar.LaterMinutes` | worker/regulator_agent/savedsearches.py:743-766 | Counting n minutes on from a moment adds exactly n to its minute number |
| `Calendar.MinutesInjective` | worker/regulator_agent/savedsearches.py:759-766 | Two valid moments with the same minute number are the same moment |
| `Calendar.ReachedByCounting` | worker/regulator_agent/savedsearches.py:759-766 | Every later moment is reached by counting minutes |
| `AdmissionOrder.EveryRunIsOrderly` | tools/fake_splunk.py:304-356 | After every operation of every run: the active jobs are within the limit, and as many as the limit whenever anybody waits; jobs are admitted in order of arrival, whoever waits came after everybody ever admitted, and so no job is in both lists or twice in one; none is counted done twice |
| `AdmissionOrder.OpOrderly` | tools/fake_splunk.py:304-443 | Each create, remove, cancel, finalise, pause, resume, pump and reset preserves that |
| `FinishedJobs.FinishedForGood` | tools/fake_splunk.py:341-356 | A job once done or failed stays finished under any later pauses, resumes, finalises, removals and dispatches on a clock that does not go back |
| `AdmissionQueue.CompleteExactly` | tools/fake_splunk.py:336-339 | A job gives up its slot if and only if it is finished and not paused: one paused after it finished keeps it |
| `JobClock.ElapsedIsTimeRun` | tools/fake_splunk.py:328-361 | Whatever the pauses and resumes since a job started, its elapsed time is the time in which it was not paused; it is done or failed if and only if that has reached its duration |
| `JobClock.PauseStandsStill` | tools/fake_splunk.py:328-334 | Nothing runs while a job is paused, and it goes on at the resume from where it stood |
| `JobClock.ParsesThenRuns` | tools/fake_splunk.py:341-361 | An unpaused job parses for a tenth of its duration and runs for the rest |
| `JobClock.FinalizedIsDone` | tools/fake_splunk.py:949-957 | A finalised job is done at once and never failed, its duration what had run of it |
| `JobClock.LoadSlowsSearches` | tools/fake_splunk.py:390-398 | Each search running adds the same penalty to the next, a tenth of it where that one is accelerated |
| `AdmissionOrder.PausedJobKeepsItsSlot` | tools/fake_splunk.py:336-356 | A run in which a job paused when it was already over keeps the only slot at every later instant, and the next job waits |
| `AdmissionCounts.RetireExactly` | tools/fake_splunk.py:304-314 | A pump takes a job's slot if and only if it has finished and is not paused, and counts it as done if and only if it is neither failing nor internal |
| `AdmissionCounts.CountersExactly` | tools/fake_splunk.py:398-443 | In every run the counters are of the searches of users created, of the cancellations, and of the arrivals that found the limit reached, since the last reset |
| `AdmissionCounts.PumpCounters` | tools/fake_splunk.py:322-326 | A pump takes the gauge afresh, raises the peak to it where it is higher, and counts nothing else |
| `AdmissionCounts.PeakOnlyGrows` | tools/fake_splunk.py:322-326 | The peak falls only at a reset and is never below the gauge |
| `SearchHeads.SearchHead.Pump` | tools/fake_splunk.py:304-326 | The in-place pump, with its retiring and admitting loops, equals its specification |
| `SearchHeads.SearchHead.CreateJob` | tools/fake_splunk.py:374-436 | Creating a job in place: straight in when there is room, else to the end of the queue |
| `SearchHeads.SearchHead.RemoveJob` | tools/fake_splunk.py:438-443 | Removing drops every job of the sid from both lists and pumps |
| `SearchHeads.SearchHead.Cancel` | tools/fake_splunk.py:942-948 | Cancelling removes and counts |
| `SearchHeads.SearchHead.Finalize` | tools/fake_splunk.py:949-957 | Finalising marks, starts if need be, trims the duration and pumps |
| `SearchHeads.SearchHead.Pause` | tools/fake_splunk.py:958-962 | A started job that is not paused is paused |
| `SearchHeads.SearchHead.Resume` | tools/fake_splunk.py:963-968 | Resuming adds the pause to the job's total |
| `SearchHeads.SearchHead.Reset` | tools/fake_splunk.py:445-452 | A reset clears the lists and the counters |
| `ConfigIo.ConfigStore.ImportConfig` | server/regulator_server/configio.py:290-400 | The import loops over targets, scenarios and baselines equal the upsert specification |
| `ConfigIo.ConfigStore.ImportLabels` | server/regulator_server/configio.py:403-444 | The baseline loop equals its specification: a baseline lands once its run is here |
| `ConfigIo.ConfigStore.ExportConfig` | server/regulator_server/configio.py:175-225 | The export loops equal their specification |
| `ConfigIo.Assigned` | server/regulator_server/configio.py:333-340 | Assigning a row's fields never adds or drops a column |
| `ConfigKeys.CredentialsStay` | server/regulator_server/configio.py:311-358 | An import leaves every credential of a target that is here as it is if and only if the document names another master key than this instance's; every other column is what the document last says of it |
| `ConfigKeys.CreatedExactly` | server/regulator_server/configio.py:326-358 | A new target has of each column what the rows after its first one with an address last say, credentials under another key apart; else what that row says; else the default |
| `ConfigRows.ScenarioFileExactly` | server/regulator_server/configio.py:360-398 | After an import each file of a scenario is what the document last brings of it, one of the three that may travel and text; every other file is as it was |
| `ConfigRows.BaselineExactly` | server/regulator_server/configio.py:403-444 | After an import a label whose run is here is of that run, with the scenario and the target its last row gives or else the run's, made at the last instant stated, else when it was, else now |
| `ConfigRows.RunsExactly` | server/regulator_server/configsource.py:357-394 | A pull brings exactly the archived runs that are not here yet and leaves the others as they are |
| `ConfigExports.ExportNamesExactly` | server/regulator_server/configio.py:108-225 | An export names exactly every target, each scenario with a scenario.yaml and one of its three files as text of a megabyte at most, and each baseline whose run is here |
| `ConfigExports.ExportedFilesExactly` | server/regulator_server/configio.py:108-138 | Of such a scenario it carries exactly the files that can travel, as they are |
| `ConfigTwice.ImportIdempotentExactly` | server/regulator_server/configio.py:290-444 | Importing a document again, at any later time: its scenarios and baselines never change, however often it names one; and nothing changes exactly when it overlooks no target: one that is not here, named before the row that creates it by rows that give a column a value other than its default, which no row from the creating one on sets |
| `ConfigTwice.ScenariosTwice` | server/regulator_server/configio.py:344-398 | Any scenario rows, imported again, change nothing |
| `ConfigTwice.BaselinesTwice` | server/regulator_server/configio.py:403-444 | Any baseline rows, imported again at any later time, change nothing, as long as the targets go by the same names |
| `ConfigTwice.CreatedTarget` | server/regulator_server/configio.py:319-340 | A new target is what its first row with an address makes of the defaults, and then what the rows after that give it |
| `ConfigTwice.DistinctTargetsSuffice` | server/regulator_server/configio.py:290-444 | A document that names no target twice imports idempotently |
| `ConfigTwice.NamedInVainIsOverlooked` | server/regulator_server/configio.py:326-340 | A target named first without an address and then with one: the first row's owner lands only the second time |
| `ConfigRestore.TargetComesBackExactly` | server/regulator_server/configio.py:319-340 | A target comes back from its exported row if and only if its name is usable as it stands and it has an address |
| `ConfigRestore.RestoreBringsBack` | server/regulator_server/configio.py:175-444 | Importing an export under the same key into an empty instance that holds the runs restores the same targets, credentials included, and the same baselines |
| `ConfigRestore.RestoreBringsScenarios` | server/regulator_server/configio.py:110-138 | Of the scenarios exactly those with a plain name and a scenario.yaml that is text and small enough come back, each with those of its files that are |
| `ConfigSource.ConfigSync.Pull` | server/regulator_server/configsource.py:357-413 | Configuration, then runs, then waiting baselines; what could not be applied is carried; the digest is the pulled document's |
| `ConfigSource.ConfigSync.Document` | server/regulator_server/configsource.py:453-475 | The document is this instance's rows and then the carried ones it does not export; those it does are let go |
| `ConfigSource.ConfigSync.PushConfig` | server/regulator_server/configsource.py:478-495 | A push that works makes the shared copy that document; one that fails changes neither the copy nor the digest |
| `ConfigSource.ConfigSync.MaybePush` | server/regulator_server/configsource.py:542-559 | Afterwards the shared copy says what a push from here would say, if writing is on and worked |
| `ConfigSafety.PullNeverRemoves` | server/regulator_server/configsource.py:357-413 | Whatever the shared copy says, a row that is here stays here |
| `ConfigSafety.PulledIsHereOrCarried` | server/regulator_server/configsource.py:395-401 | Every usable name of a pulled document is here afterwards or carried |
| `ConfigSafety.LocalVersionWins` | server/regulator_server/configsource.py:463-471 | Once this instance exports a row, only its own version is pushed |
| `ConfigLoss.PushesLoseExactly` | server/regulator_server/configsource.py:357-495 | Over every sequence of pulls, edits and pushes by one writer: of each name seen at the last pull and not deleted here since, a push has a row that lands elsewhere, or the row as it was pulled when it is not here, unless what is here is a target with a blank address, a scenario whose name or scenario.yaml cannot travel, or a baseline whose run is not here; and exactly then where the names exported here read back |
| `ConfigLoss.OwnNamesExactly` | server/regulator_server/configio.py:108-225 | What an export names, read off the tables: every target, each scenario with a scenario.yaml and a file that can travel, each baseline whose run is here |
| `ConfigLoss.OwnLands` | server/regulator_server/configio.py:290-444 | An exported row, imported alone elsewhere, gives what it names exactly when the target has an address, the scenario a plain name and a scenario.yaml that travels, the baseline its run |
| `ConfigLoss.OversizedScenarioIsLost` | server/regulator_server/configio.py:120-128 | One pull of a scenario whose scenario.yaml is over the size limit, and every push from here loses it |
| `ConfigSafety.LandedIsHere` | server/regulator_server/configio.py:344-398 | A pulled scenario row that could land has landed, so that a carried one never could |
| `ConfigSafety.EventsSafe` | server/regulator_server/configsource.py:357-495 | In every state of such a run each name seen is here or carried under a name that reads back |

## Left out

- HTTP, tokens, the database, threads and the event loop: each handler is one atomic step, a claim two; the order of
  steps and the loss of messages are arbitrary.
- The scheduler, the engines, the scenario loader, the drivers, SmartStore, HEC and telemetry are not part of this
  model; a worker's scheduler is its pause, load and start, and it accepts every load it is sent.
- A clock is read once in each step, where the code sometimes reads it twice within one; instants, loads, weights and
  rates are reals, so floating-point rounding is not modelled.
- Lease rows are values in a sequence that the handlers reassign, and histograms inside the step, run and interval
  aggregates are values, so aliasing between two references to one row or histogram is not captured.
- A lease row holds neither the instant it was claimed at nor its log tail, which nothing in the protocol reads back.
- FleetStores.FleetStore.Heartbeat: does not hand the interval document to the supervisor; an interval taken for a
  beat that is then lost is lost with it.
- FleetStores.FleetStore.Final: does not store the log tail that comes with a report.
- FleetRuns.FleetRun.OnePass: does not write samples, live statistics or telemetry, nor ask the driver to stop.
- FleetStores.FleetStore.ClaimWrite: a restart count is one more than the count read, as in the code, so a lease that
  changed hands and was lost again in between keeps too low a count; `LeaseAnswers.UnhurriedClaimTakes` states the count
  of a claim whose write follows its read.
- Planning.Plan: produces neither images nor scenario files.
- MergeSummaries.MergeReports: leaves out what is recomputed from rounded figures (throughput, mean events a second,
  percentages), the descriptive fields taken from the first report, and the configured load, whose sum fails when
  workers report different load models.
- Results.StepStats.Add: does not add up the run durations of a step, of which only a mean in events a second is made.
- Results.RunStats.Record: does not stamp the record itself with its epoch.
- Percentiles.PercentileAccurate: p is a real strictly between 0 and 100; at and beyond the ends the code returns the
  least or the greatest value, as `Percentiles.PercentileUs` states.
- Conf.ParseText: letters are lowered in ASCII only, and a number's digits are ASCII digits; white space and line
  breaks are all those Python recognises.
- Intervals.MergeIntervals: leaves out the instants, the rates, and the percentiles of intervals without a sketch.
- HistogramWire.ReadWritten: speaks of the bucket table alone; the whole of a histogram is what `HistogramWire.ToWire`
  says.
- HistogramWire.ToWire: counts on the wire are natural numbers, and a negative bucket number is an error here where
  the code would read it.
- Cron.ParseCron: keeps no copy of the expression's text.
- Relative time modifiers and calendar snapping, which carry an acknowledged inconsistency for weeks.
- SearchHeads.SearchHead.CreateJob: the random draws (jitter, acceleration, failure) are inputs; results, rows and
  payloads are not modelled.
- ConfigIo.ConfigStore.ImportLabels: does not list the labels that wait for their runs.
- ConfigIo.ConfigStore.ImportConfig: does not build the report of counts, skipped rows and warnings; rows refer to each
  other by name where the database uses ids; the order of an export is the table's rather than by name; a name or an
  instant that is neither text nor a number is not read; file sizes are in characters; a null in a column that refuses
  one is not modelled.
- ConfigSource.ConfigSync.Document: the order of carried rows is left open and a digest is what a document says
  without regard to order, since a hash collision is not modelled.
- ConfigSource.ConfigSync.Pull: the archived runs arrive as a map by uid; reading them, and failing to, is not modelled.
- Several writers of one shared copy, and the unlocked gap while a document is assembled.
- The web console, target probes, bundles, archives, the gate language and run admission: input and output, library
  calls, or settled by one branch.

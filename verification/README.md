# Carrera race monitor: verified model of the live pipeline

The program follows a slot-car race live. An adapter polls the Control Unit over a Bluetooth link and turns
its frames into telemetry events; a bus hands every event to bounded queues; one consumer keeps the dashboard
aggregates, one appends logs, and one feeds the race service, which stores laps, events and reports in a
database and remembers in memory which race is active. A supervisor keeps the link up and obeys commands that
the user interface leaves in a settings file. This project models those three parts and proves what they
promise over every run.

Each object the program updates in place is a Dafny class. Its methods are proved against functions on values
(`ensures State() == Step(old(State()), op)`), and the theorems are about runs of those functions.

**Race persistence** (`RaceTables`, `RaceRules`, `RaceStore`, `ReportingService`, `RaceService`,
`RaceInvariants`, `RaceLifecycle`, `RaceRuns`, `RaceReplay`, `RaceRecovery`, `RaceCrashes`, `RaceReports`,
`Reporting`, `Sorting`). The database is a class holding its tables; a `Session` works on a copy until it commits. A
transaction can commit, fail to read, do its work and fail to write it (the session is then rolled back), or
commit and fail to read its row back (`Tx`); the lap transaction can fail at each of its statements
(`LapFault`). `DoRestart` is a crash followed by recovery. `RaceInvariants.Writes` lists the transactions each
operation commits, and a crash after any number of them is proved to leave exactly what a faulted form of the
same operation leaves (`RaceCrashes.CrashIsFaultedOperation`); the run theorems are then stated for lives of
the process with crashes anywhere (`RaceCrashes.Live`). Each operation reads the clock once; only `Wait` moves
it. The database chooses race ids; an id that is taken makes the insert fail. Nothing assumes that ids are
never reused.

**Live ingest** (`LiveAdapter`, `LapPipeline`, `LapStamps`, `LapCounting`, `RaceRunner`, `LiveDashboard`,
`StateManager`, `EventBus`, `Storage`). The adapter's diffing of status frames, its lap timing from crossings, the bus and its drop-oldest queues, the log
writer and the dashboard aggregates, each compared with a description that has no memory of its own.

**Link supervision** (`Watchdog`, `ReconnectRunner`, `SupervisorRules`, `Supervisor`, `SupervisorRuns`,
`SupervisorBackoff`, `DisconnectWins`, `ConnectServed`, `LinkStatus`). The watchdog and the runner take poll and connect outcomes as inputs. The supervisor is a
machine whose steps run from one suspension point to the next, with its operation lock, the first-in first-out
queue of tasks waiting for it, and any number of concurrent calls; every interleaving of those steps is a run.

## Promises that do not hold as written, with the exact condition

- *A running race is the active one* is lost exactly by: a start or resume whose row cannot be read back after
  the commit, a recovery that storage interrupts, and creating a race under a configured default status of
  `running` (`RaceRuns.RunningIsActiveStep`, an if-and-only-if; `StartCanLosePointer` is an instance). The
  converse fails without any fault (`ActiveMayBePaused`).
- *The safety-car cache agrees with the log* is lost exactly by creating a race under an id whose deleted
  predecessor left `true` in the cache, and *start and end events alternate* exactly by switching the flag on
  when it could not be read and was on already (`RaceRuns.SafetyCarStep`; `DeletedRaceLeavesFlag` and
  `ReusedIdShowsSafetyCar` are instances).
- *Saved reports stay true* needs editing of started races to be disabled (`RaceRuns.EditedReportsGoStale`, an if-and-only-if).
- *A manual disconnect wins* has an exact condition in every reachable state in which the stored wish is
  "disconnected" and no connect or retry call is still waiting for the lock, whoever holds the lock
  (`DisconnectWins.DisconnectWinsIff`): a connect can still start before a new request if and only if the loop
  decided to connect before and is parked on the lock (`ParkedConnectOutlivesDisconnect` is a run), or read
  "wanted" earlier in its iteration and is in the middle of an await, or a connect or retry command issued
  before the disconnect is still unread (`RetryOutlivesDisconnect`: the retry call leaves such a command). A
  disconnect command that a scan command overwrites still keeps the loop from connecting, but leaves the open
  session open (`OverwrittenCommandLeavesSession`).
- A zero lap time passes event validation but not the table's check; the whole ingest transaction is rolled
  back, identity row included (`RaceInvariants.LapRejectedOnlyByKeyOrTime`).

## Model

| member | source | states |
|---|---|---|
| RaceStore.Session.Commit | src/services/race_service.py:289-290 | the database becomes what the session worked on, or is unchanged and the work is lost |
| RaceStore.RaceRepository.InsertLapIdentityIfNew | src/repositories/race_repository.py:325-346 | new exactly if the key was absent; on a duplicate only the savepoint is undone, the rest of the session's work stays |
| RaceStore.RaceRepository.AddLap | src/repositories/race_repository.py:159-180 | refused exactly when a positivity check or the unique (race, car, number) key would be violated |
| RaceStore.RaceRepository.LapCountByCar | src/repositories/race_repository.py:232-242 | one pass that ends with exactly the cars that have laps, each with its number of rows |
| RaceStore.RaceRepository.LatestSafetyEvent | src/repositories/race_repository.py:244-270 | the newest safety-car row by (timestamp, row id) |
| RaceStore.RaceRepository.DeleteRace | src/repositories/race_repository.py:133-135 | the race and every child row of it are gone |
| RaceStore.RaceRepository.ListRunning | src/repositories/race_repository.py:54-66 | the running races, newest first, at most one hundred |
| RaceTables.WithoutRace | src/models.py:128-130 | cascading deletes remove exactly the rows of the deleted race and keep the order of all others |
| RaceService.RaceService.Create | src/services/race_service.py:107-117 | a new race under an unused id, in the configured status; nothing otherwise |
| RaceService.RaceService.TransitionRace | src/services/race_service.py:254-292 | table check, timestamps written once, status and event in one transaction that is lost as a whole when its commit fails; each fault with its own outcome |
| RaceService.RaceService.PauseOther | src/services/race_service.py:183-189 | the active race, if it is another one, is paused in a transaction of its own |
| RaceService.RaceService.Activate | src/services/race_service.py:180-208 | the active race is paused first and stays paused when the requested move is then refused; the pointer moves only on success |
| RaceService.RaceService.Pause | src/services/race_service.py:193-198 | the pointer is cleared only when the pause succeeded and it pointed at that race |
| RaceService.RaceService.Finish | src/services/race_service.py:210-223 | finished, pointer and cached flag cleared, and a report saved unless that fails |
| RaceService.RaceService.Cancel | src/services/race_service.py:241-252 | as Finish, with a report only for a race that has laps |
| RaceService.RaceService.Delete | src/services/race_service.py:163-173 | refused for a running race; clears the pointer but not the cached safety-car flag |
| RaceService.RaceService.Update | src/services/race_service.py:149-161 | edits a draft or ready race, any other only if configured |
| RaceService.RaceService.SetSafetyCar | src/services/race_service.py:296-337 | re-asserting the value logs nothing; cache changed only after the commit |
| RaceService.RaceService.IsSafetyCarActive | src/services/race_service.py:339-374 | answers from the cache, else from the log; a read failure answers false and caches nothing |
| RaceService.RaceService.IngestLap | src/services/race_service.py:378-492 | the lap transaction, then the leader check; whichever statement fails, tables and pointer are as before |
| RaceService.RaceService.StoreLapOf | src/services/race_service.py:414-478 | identity, lap row and checkpoint are committed together or rolled back together, wherever a statement raises |
| RaceService.RaceService.WriteLapRows | src/services/race_service.py:434-469 | the lap is numbered one more than the checkpoint, or than the stored rows when there is none, and the checkpoint follows it |
| RaceService.RaceService.MaybeAutoFinish | src/services/race_service.py:533-550 | finishes the race exactly if some car has reached the target |
| RaceService.RaceService.IngestEvent | src/services/race_service.py:501-531 | logged exactly for an active, running or paused race, if configured and storable |
| RaceService.RaceService.TickOnce | src/race_runner.py:102-143 | finishes exactly a running fixed-duration race whose time is up |
| RaceService.RaceService.RestartProcess | src/services/race_service.py:559-586 | memory is dropped, each running race is reseeded and reattached or paused; a storage failure rolls its transaction back and abandons the rest |
| RaceService.RaceService.SeedFromExistingLaps | src/services/live_continuity.py:184-202 | each driver's checkpoint becomes its number of stored laps, crossing time 0 |
| RaceService.RaceService.Perform | src/services/race_service.py:87-588 | every operation of the service does to tables, pointer and cache what the step function says |
| RaceService.RaceService.LargestCount | src/services/race_service.py:535-536 | the largest lap count of any car, 0 if there is none |
| RaceInvariants.StepWrites | src/services/race_service.py:87-588 | whatever an operation does to the database it does by its listed transactions, each legal when committed |
| RaceLifecycle.TransitionTable | src/services/race_service.py:53-65 | for each status and move, written out: what a transaction answers and changes under every fault; a move outside the table is refused and changes nothing |
| RaceLifecycle.ActivateOutcome | src/services/race_service.py:180-208 | a start of a draft or ready race, or a resume of a paused one, that commits makes that race running and active, pauses the race that was active, and changes no other |
| RaceLifecycle.ActivateRefused | src/services/race_service.py:180-208 | from any other status it is refused, and neither that race nor the pointer moves |
| RaceLifecycle.ActivateStopped | src/services/race_service.py:183-189 | a storage error while pausing the active race stops the start of the other one |
| RaceLifecycle.PauseOutcome | src/services/race_service.py:193-198 | the pointer is cleared exactly when the pause succeeded and it was at that race |
| RaceLifecycle.CloseOutcome | src/services/race_service.py:210-252 | a finish or cancel that commits stamps the race once, clears pointer and flag of that race only, and saves one report exactly when it should |
| RaceLifecycle.CloseRefused | src/services/race_service.py:210-252 | any other finish or cancel leaves pointer, flags and reports alone |
| RaceLifecycle.CreateOutcome | src/services/race_service.py:107-117 | one more race without stamps, or nothing |
| RaceLifecycle.UpdateOutcome | src/services/race_service.py:149-161 | who can be edited, and that an edit changes the form only |
| RaceLifecycle.DeleteOutcome | src/services/race_service.py:163-173 | refused for a running race; else the race, its checkpoints and the pointer to it go, and no other |
| RaceLifecycle.DeletedRows | src/models.py:128-130 | a child row survives a delete if and only if it belongs to another race |
| RaceLifecycle.SetSafetyAnswers | src/services/race_service.py:296-337 | each answer of a request to set the flag, one event exactly when the value changes, and the flag reads back as set |
| RaceLifecycle.IdleRaceHasNoFlag | src/services/race_service.py:355-361 | a race that is neither running nor paused has no flag, cached or answered |
| RaceLifecycle.ReadIsCached | src/services/race_service.py:339-374 | any other race answers from the cache, or else from the log and leaves that answer cached; a failed read answers no and caches nothing |
| RaceLifecycle.NewestTells | src/repositories/race_repository.py:244-270 | the event read is the one of the greatest timestamp, the last row among equals |
| RaceLifecycle.NextNumber | src/services/race_service.py:434-469 | in any tables a stored lap is numbered from its checkpoint, or from its rows without one, and lap, identity and checkpoint agree |
| RaceLifecycle.EventOutcome | src/services/race_service.py:501-531 | exactly when a telemetry event is logged, and with which stamp and car |
| RaceInvariants.WritesByKind | src/services/race_service.py:87-588 | only deletes drop rows, only ingest stores laps, only creating, deleting and setting the flag touch what flags depend on |
| RaceInvariants.ContinuityKept | src/services/race_service.py:414-478 | every legal transaction keeps, for every car, laps numbered 1 to n, n identities, and a checkpoint of n |
| RaceInvariants.LapRejectedOnlyByKeyOrTime | src/services/race_service.py:414-478 | in a continuous database the lap-number key never rejects a lap: only a duplicate crossing, a zero time, or a car or crossing time out of range does |
| RaceInvariants.TimesKept | src/services/race_service.py:264-272 | timestamps keep fitting the status and keep their order under every legal transaction |
| RaceInvariants.FrozenKept | src/services/race_service.py:658-673 | every saved report goes on saying what a fresh summary would say |
| RaceInvariants.EveryRunKeepsDatabase | src/services/race_service.py:414-478 | all database invariants in every state reachable by any operations, faults, crashes and recoveries |
| RaceCrashes.CutCommits | src/services/race_service.py:470-490 | for every operation and every k there is a faulted form of it that commits exactly its first k transactions |
| RaceCrashes.CrashIsFaultedOperation | src/services/race_service.py:470-490 | a crash after k transactions of any operation leaves the tables that this faulted form leaves |
| RaceCrashes.CrashIsTwoOperations | src/services/race_service.py:559-586 | such a crash and the restart after it are two whole operations of an ordinary run |
| RaceCrashes.LiveIsRun | src/services/race_service.py:87-588 | a life of the process with crashes anywhere reaches only states of ordinary runs |
| RaceCrashes.LiveKeepsDatabase | src/services/race_service.py:414-478 | all database invariants, wherever processes crash |
| RaceCrashes.PointerAfter | src/services/race_service.py:559-586 | a crash inside any operation loses the active race if and only if storage interrupts the recovery of a running race |
| RaceCrashes.AtMostOneRunningLive | src/services/race_service.py:180-252 | with crashes anywhere at most one race is running and ingest writes to it |
| RaceCrashes.LapTargetBoundLive | src/services/race_service.py:470-490 | with crashes anywhere no car passes its race's target by more than that race's lost finishes, crashes between lap and finish included |
| RaceCrashes.SafetyCarLive | src/services/race_service.py:296-374 | with crashes anywhere cache and log agree and events alternate |
| RaceRecovery.ReattachesFromAnyTables | src/services/race_service.py:559-579 | from any tables with at most a hundred running races an undisturbed recovery changes no race and activates the oldest running one |
| RaceRecovery.PausesFromAnyTables | src/services/race_service.py:580-586 | with reattaching off it pauses exactly the running races and activates none |
| RaceRecovery.RecoverySeeds | src/services/live_continuity.py:184-202 | under both settings the checkpoints of the drivers of running races become their stored counts, those of other races stay |
| RaceRuns.RunningIsActiveStep | src/services/race_service.py:180-252 | "running implies active" survives a step if and only if the step is none of the listed losses |
| RaceRuns.RestartPointer | src/services/race_service.py:559-586 | from any tables with at most one running race recovery re-establishes it under both settings, exactly unless storage interrupts it |
| RaceRuns.AtMostOneRunning | src/services/race_service.py:180-252 | in every run without such a loss at most one race is running and ingest writes to it |
| RaceRuns.ActiveMayBePaused | src/services/race_service.py:183-190 | a failed start leaves the context pointing at a paused race |
| RaceRuns.StartCanLosePointer | src/services/race_service.py:290-292 | a commit whose row cannot be read back leaves a running race that is not active |
| RaceRuns.RunFollows | src/services/race_service.py:52-72 | along any run a race never leaves a terminal status and never rewrites a timestamp until it is deleted |
| RaceRuns.FinishSavesSummary | src/services/race_service.py:210-223 | a finish whose snapshot is written saves exactly the summary of the finished race |
| RaceRuns.SummaryIsFrozen | src/services/race_service.py:658-673 | that summary is what any later state returns, at any clock, and the report is still stored |
| RaceRuns.EditedReportsGoStale | src/services/race_service.py:149-161 | with editing enabled, an edit of a finished race keeps its saved report true if and only if it changes nothing |
| RaceRuns.LapTargetBound | src/services/race_service.py:470-490 | in every run no car passes its race's target by more than the number of lost automatic finishes of that race |
| RaceRuns.AutoFinishLeader | src/services/race_service.py:533-550 | a race that a lap finished has a leader at the target, exactly at it when none of its finishes was lost before |
| RaceRuns.SafetyCarStep | src/services/race_service.py:296-374 | cache and log stay in agreement, and events alternate, each if and only if the step is not the listed exception |
| RaceRuns.SafetyCarRun | src/services/race_service.py:296-374 | agreement and alternation in every run without those exceptions |
| RaceRuns.SafetyCarAnswer | src/repositories/race_repository.py:244-270 | the answer is the same from the cache, from a fresh service, and by the parity of the logged events |
| RaceRuns.DeletedRaceLeavesFlag | src/services/race_service.py:163-173 | from any running race: sending the safety car out, pausing and deleting leaves the race's flag in the cache |
| RaceRuns.ReusedIdShowsSafetyCar | src/services/race_service.py:355-361 | a race created under such an id reports a safety car that was never sent out |
| RaceReplay.ReplayChangesNothing | src/services/race_service.py:414-432 | among lap events, repeating a recorded one anywhere later leaves the whole final state identical, even across an automatic finish |
| RaceReplay.StoredLapIsFinal | src/repositories/race_repository.py:325-346 | a stored lap's event changes nothing when it arrives again after any operations, faults, crashes and recoveries that neither delete its race nor leave another race active |
| RaceReplay.OtherRaceTakesLap | src/services/race_service.py:414-432 | when another race is active the event is stored for that race exactly if it is new there |
| RaceRuns.TickFinishesExactly | src/race_runner.py:116-134 | however its finish ends, a beat changes a race if and only if it is the active, running, timed one, the clock is its duration past its start, and the finish lands |
| ReportingService.ReportingService.GroupByCar | src/services/reporting_service.py:54-69 | one pass that groups laps into per-car count, minimum, sum and highest number |
| ReportingService.ReportingService.DriverStatistics | src/services/reporting_service.py:48-102 | one entry per driver by car id, each with the count, sum, rounded mean, minimum and newest time of its own stored laps |
| ReportingService.ReportingService.FinalStandings | src/services/reporting_service.py:106-147 | the loop builds the table that Reporting.StandingsAreRight describes: totals are sums of lap times, order by laps, then total, then best, then car |
| ReportingService.ReportingService.RankRows | src/services/reporting_service.py:111-147 | one pass over the ranked drivers gives positions, laps behind and gaps |
| ReportingService.ReportingService.RaceSummary | src/services/reporting_service.py:151-164 | the summary of an existing race with its duration, statistics and standings, None for a missing race |
| ReportingService.ReportingService.SaveReport | src/services/reporting_service.py:177-188 | appends one report, for an existing race only |
| RaceReports.ReportsCountEveryLap | src/services/reporting_service.py:48-102 | in every reachable state a driver's total is its highest lap number, the last lap is the newest row, and totals sum to the stored rows |
| RaceReports.RankingIsUnique | src/services/reporting_service.py:113-121 | no other arrangement of the drivers is in ranking order |
| Reporting.StandingsAreRight | src/services/reporting_service.py:106-147 | one row per driver, its total the sum and its best the minimum of its lap times, positions 1 to n, strictly ordered, laps behind and gaps exactly the differences to the leader and never decreasing |
| Reporting.TotalIsSum | src/services/reporting_service.py:59-60 | a driver's total is the sum of the times of all its laps |
| Reporting.TableTells | src/services/reporting_service.py:54-102 | every statistic of every driver, said of the stored laps themselves |
| Reporting.SummaryTells | src/services/reporting_service.py:151-164 | the duration is what lies between the start and the finish, or now |
| Reporting.StandingsEmptyIff | src/services/reporting_service.py:111-112 | the table is empty if and only if no driver has a lap |
| Reporting.BestIsMinimum | src/services/reporting_service.py:54-69 | the best lap is a stored lap and no stored lap is faster |
| Reporting.ContinuousAggregates | src/services/reporting_service.py:71-82 | on continuous laps the highest number is the count and the lap found under it is the newest |
| Reporting.TotalsAddUp | src/services/reporting_service.py:84-101 | the drivers' lap totals account for every stored lap |
| Reporting.RoundedIsNearest | src/services/reporting_service.py:94-94 | the average is the nearest whole millisecond, an even one when two are equally near |
| LiveAdapter.CarSlotMapping.NormalizeSlot | src/services/live_continuity.py:32-57 | the answer and the remembered decision for any mode, table and lock |
| LiveAdapter.AnswersNeverChange | src/services/live_continuity.py:38-41 | an answer once given is given again whatever is looked up or locked in between |
| LiveAdapter.MappingIsStable | src/services/live_continuity.py:32-57 | a session that starts with no table always answers by its mode alone |
| LiveAdapter.SlotsOfCars | src/services/live_continuity.py:32-57 | which slot is which car's in each mode |
| LiveAdapter.LockedTakesNothing | src/services/live_continuity.py:42-44 | a locked table takes no new slot and answers only what it has |
| LiveAdapter.StartCodes | src/carrera_client.py:310-327 | the race state of every start code |
| LiveAdapter.FuelIsProportional | src/carrera_client.py:590-602 | levels 0 to 15 are 0 to 100 percent in proportion |
| LiveAdapter.FuelOnlyOnChange | src/carrera_client.py:573-650 | a fuel frame is emitted if and only if its slot's level is new or changed, with that level |
| LiveAdapter.PitOnlyOnChange | src/carrera_client.py:573-650 | likewise for the pit flags |
| LiveAdapter.SpeedOnlyOnChange | src/carrera_client.py:573-650 | likewise for the speeds |
| LiveAdapter.UnknownIsReported | src/carrera_client.py:507-528 | an unknown frame is reported once and disturbs neither lap timing nor the status diff |
| LiveAdapter.LiveCarreraAdapter.TranslateTimer | src/carrera_client.py:652-680 | the first crossing of a session only sets the reference; later ones are measured from the previous crossing of that car and numbered on, as LapCounting.LapsAreNumbered says of whole sessions |
| LiveAdapter.LiveCarreraAdapter.TranslateStatus | src/carrera_client.py:573-650 | emits exactly the per-slot differences to the previous status, then the race state if it changed; raises exactly when a car's slot is new, and then remembers nothing |
| LiveAdapter.LiveCarreraAdapter.OnFrame | src/carrera_client.py:507-528 | a frame equal to the one before is skipped, every other translated, and one that cannot be read ends the loop |
| RaceRunner.RaceTelemetryRunner.DispatchEvent | src/race_runner.py:86-96 | laps are recorded, other events logged if configured, under any storage fault; nothing without an active race; the last race state is remembered |
| RaceRunner.RaceTelemetryRunner.FollowFrame | src/race_runner.py:74-96 | one polled frame, through adapter and runner, changes the database as one step of the pipeline that LapExactness is about |
| LapPipeline.LapExactness | src/carrera_client.py:652-680 | for any frames of any sessions, including ones cut off by an unreadable frame, without a clock reset: stored laps are numbered 1, 2, 3 with the successive distinct crossing differences inside each session and nothing else |
| LapPipeline.OneLap | src/services/race_service.py:414-478 | one measured lap of a running race is stored once for its car, or leaves no trace when its time is zero or the car has no driver |
| LapPipeline.OneEvent | src/services/race_service.py:414-499 | any lap event, with or without a Control Unit time: stored with the next number, its time, date and driver exactly when its time is positive, its car has a driver and its stamp, the monotonic one if it carries no other, is new; else no trace |
| LapPipeline.OtherEventIsLogged | src/race_runner.py:86-96 | every event that is no lap is logged for the active race while that runs or is paused, and moves nothing else |
| LapStamps.UnstampedLapsStored | src/services/race_service.py:494-499 | any number of laps without a Control Unit time: stored, in order and numbered on, are exactly those whose monotonic stamp is new |
| LapStamps.DifferentStampsAllStored | src/services/race_service.py:494-499 | with different stamps every one of them is stored |
| LapCounting.LapsAreNumbered | src/carrera_client.py:652-680 | in one session a car's lap frames carry 1, 2, 3 and so on, one for each crossing after its first, repeated frames not counted |
| LapCounting.DashboardCountsCrossings | src/state_manager.py:127-128 | folded into the dashboard, its lap count is the number of those crossings |
| LiveDashboard.DiffThenFoldIsDirectView | src/carrera_client.py:573-650 | in one session, translating differences and folding them shows for every slot the last fuel, pit flag and speed any status had for it, and the last race state |
| StateManager.StateManager.Apply | src/state_manager.py:86-153 | the in-place update of cars, counters and recent list by one event |
| StateManager.AggregatesEqualHistory | src/state_manager.py:108-133 | best, sum, samples, lap count and latest are the minimum, sum, count, maximum and last of the accepted laps |
| StateManager.OrderDoesNotMatter | src/state_manager.py:108-133 | except for the latest lap, they do not depend on the order of the laps |
| StateManager.AcceptedPlusDropped | src/state_manager.py:108-127 | accepted plus dropped lap events are all processed ones |
| StateManager.RecentIsNewestFirst | src/state_manager.py:90-90 | the recent list is exactly the newest events, newest first, up to its bound |
| StateManager.LastEventIsNewest | src/state_manager.py:127-153 | a car's last event time is that of the newest event that counted for it |
| StateManager.ReadingsShown | src/state_manager.py:127-153 | what each kind of event changes in its car and in no other: fuel within 0 to 100, no negative speed |
| StateManager.OthersTouchNoCar | src/state_manager.py:91-127 | events without a car of 1 to 6, of a kind that says nothing of a car, or refused laps change no car |
| StateManager.RankedByLapsThenBest | src/state_manager.py:310-322 | ranked ahead is who has more laps, then the faster best lap, no best lap coming last, then the lower car |
| StateManager.StateManager.BuildRaceMetrics | src/state_manager.py:309-347 | the loops build the ranked cars with positions, the leader, the fastest lap and the total that the next three rows describe |
| StateManager.PositionsAreRanks | src/state_manager.py:319-324 | every known car is placed once, at one more than the number of cars ranked before it |
| StateManager.MetricsAreRight | src/state_manager.py:326-343 | the leader is ranked before everybody else, the fastest lap is the least best lap, the total is the sum over the cars |
| StateManager.RankingIsTheOnlyOrder | src/state_manager.py:309-322 | the live ranking is the only strictly ordered arrangement of the known cars |
| StateManager.OnlyCanonicalCars | src/state_manager.py:91-96 | no event ever creates a car outside 1 to 6 |
| EventBus.EventBus.Subscribe | src/event_bus.py:31-45 | refused after closing and for a name already taken, else an empty queue |
| EventBus.EventBus.Publish | src/event_bus.py:47-70 | every queue gets the event, one at its bound losing exactly its oldest entry, none touched after closing |
| EventBus.QueueIsNewestSuffix | src/event_bus.py:47-70 | a queue is always the newest contiguous part of what was published since it was subscribed, within its bound |
| EventBus.NothingIsDropped | src/event_bus.py:47-70 | if it never filled, taken plus waiting entries are everything published, in order |
| EventBus.PublishReachesAll | src/event_bus.py:47-70 | a publish leaves the smaller of the bound and one more event, the newest ones in order |
| EventBus.OverflowsDropOneEach | src/event_bus.py:53-63 | over any run, everything heard was taken, still waits, or fell to one publish that found the queue full |
| EventBus.SubscribersAreIsolated | src/event_bus.py:47-70 | a subscriber's queue depends on its own actions and on publishing only |
| Storage.JsonlEventWriter.CollectBatch | src/storage.py:130-142 | takes the oldest queued events, up to the batch limit |
| Storage.JsonlEventWriter.RunOnce | src/storage.py:119-124 | one turn of the writer moves one batch from the queue to the files |
| Storage.JsonlEventWriter.WriteBatch | src/storage.py:154-182 | each file takes the batch or fails on its own; a failing CSV keeps the rows before the failure |
| Storage.JsonlEventWriter.DrainRemaining | src/storage.py:144-152 | empties the queue into one last batch |
| Storage.NoEventIsLost | src/storage.py:119-152 | while the queue never fills and writes succeed, file plus queue is everything that arrived |
| Storage.NoRowIsLost | src/storage.py:119-152 | likewise the CSV plus the laps still queued, whatever happens to the event file |
| Storage.RowsAreLaps | src/storage.py:168-178 | the CSV has one row per lap event that names a car, in order, with its car, number, time and stamp |
| Storage.BeatEmptiesQueue | src/storage.py:119-142 | a queue of up to 512 entries is empty after one turn, a longer one is 512 shorter |
| Storage.RefusedBatchIsLost | src/storage.py:154-182 | a file that refuses a batch loses it, a CSV that fails after some rows keeps those, and the other file is not concerned |
| Storage.FilesReproduceStream | src/storage.py:119-182 | after the final drain the event file is the arrived sequence and the CSV its laps, each whatever happens to the other |
| Watchdog.LinkHealthTracker.OnTimeout | src/services/live_continuity.py:114-122 | one more timeout; stalled at the hard limit, degraded from the warning limit |
| Watchdog.ReadLoop | src/carrera_client.py:433-540 | the events are those read off the polls alone, and the loop ends exactly at the first run of hard-limit timeouts or failed poll |
| Watchdog.TrackerFollowsStreak | src/services/live_continuity.py:107-129 | the tracker's streak is the loop's own at every point, and its health is determined by it |
| Watchdog.RecoveredRun | src/carrera_client.py:447-500 | a run of timeouts ended in time emits one warning per streak value from the threshold on, then exactly one recovery |
| Watchdog.StalledRun | src/carrera_client.py:465-486 | a run that reaches the hard limit emits the same warnings, then one stall |
| Watchdog.OneRecoveryPerRun | src/carrera_client.py:491-500 | while the link is open there are as many recoveries as ended runs, and no stall |
| ReconnectRunner.CarreraClientRunner.Pump | src/carrera_client.py:907-931 | relays up to and including the first event that finds stop set or a forced reconnect due |
| ReconnectRunner.CarreraClientRunner.PeriodicReconnectDue | src/carrera_client.py:853-862 | due exactly after the configured period, and never while the last reported race state is running if races are to be spared |
| ReconnectRunner.DueMeans | src/carrera_client.py:853-862 | exactly when a forced reconnect is due |
| ReconnectRunner.LatestIsLastReported | src/carrera_client.py:907-914 | the race state that spares a reconnect is the last one reported |
| ReconnectRunner.KnownAcrossSessions | src/carrera_client.py:907-914 | between attempts it is the last one of everything relayed, whichever session that was in |
| ReconnectRunner.StopsExactlyWhenSet | src/carrera_client.py:907-931 | the runner stops after an attempt exactly when stop was set during it or by any event it relayed |
| ReconnectRunner.CarreraClientRunner.Run | src/carrera_client.py:864-956 | the whole life of the runner: its sleeps, which attempt may reset the clock, what it relays, and where it stops |
| ReconnectRunner.RelayedToFirstCut | src/carrera_client.py:907-931 | no relayed event but the last could have ended the session |
| ReconnectRunner.BackoffIsCappedPower | src/carrera_client.py:953-954 | doubling with a floor of one second and a ceiling is the capped power of two, also for an initial delay of 0 |
| ReconnectRunner.SleepLaw | src/carrera_client.py:864-956 | the k-th sleep is the capped power of two for its place since the last successful connect |
| ReconnectRunner.ConsecutiveCountsBack | src/carrera_client.py:887-907 | that place counts back to the last success, or to the first attempt |
| ReconnectRunner.OnlyFirstResets | src/carrera_client.py:876-880 | only the first attempt may reset the Control Unit clock |
| ReconnectRunner.DelayIsMonotone | src/carrera_client.py:953-954 | while nothing connects sleeps never shrink and never pass the ceiling |
| Supervisor.RuntimeSettings.RequestCommand | src/services/runtime_settings.py:121-139 | overwrites the slot under a new number; only connect and disconnect change the desired flag |
| Supervisor.RuntimeSettings.ConsumeCommand | src/services/runtime_settings.py:141-154 | delivers the slot's command only while its number is new |
| Supervisor.NewestCommandOnly | src/services/runtime_settings.py:121-154 | of any requests between two reads exactly the newest is delivered, once, and the flag is the last connect or disconnect among them |
| Supervisor.BluetoothConnectionSupervisor.SyncRuntimeRequests | src/services/bluetooth_connection_supervisor.py:522-547 | settings, then a new command, then the decision of the iteration |
| Supervisor.BluetoothConnectionSupervisor.ActOnDesire | src/services/bluetooth_connection_supervisor.py:250-263 | wait, pump, or go for the lock to connect |
| Supervisor.BluetoothConnectionSupervisor.OpenAdapter | src/services/bluetooth_connection_supervisor.py:288-314 | begins a connect under the lock, with the reset flag only before the first success |
| Supervisor.BluetoothConnectionSupervisor.OnConnected | src/services/bluetooth_connection_supervisor.py:323-341 | the adapter is taken over, the attempt counter is reset, and the next iteration runs |
| Supervisor.BluetoothConnectionSupervisor.OnConnectFailed | src/services/bluetooth_connection_supervisor.py:270-286 | counts the failure and waits by the schedule, or drops out when no longer wanted |
| Supervisor.BluetoothConnectionSupervisor.MaybeMarkStale | src/services/bluetooth_connection_supervisor.py:396-416 | stale exactly when ready and too long silent; then a reconnect if configured and wanted |
| Supervisor.BluetoothConnectionSupervisor.HandleUnexpectedDisconnect | src/services/bluetooth_connection_supervisor.py:418-431 | ignored after a manual disconnect, else the session is closed and the failure counted |
| Supervisor.BluetoothConnectionSupervisor.PumpLiveEventsOnce | src/services/bluetooth_connection_supervisor.py:349-385 | each way the wait for an event can end |
| Supervisor.BluetoothConnectionSupervisor.Connect | src/services/bluetooth_connection_supervisor.py:93-115 | wanted from now on, in memory and in the settings; the loop is started if it was not |
| Supervisor.BluetoothConnectionSupervisor.Disconnect | src/services/bluetooth_connection_supervisor.py:117-138 | unwanted from now on; an open session is closed while the lock is held |
| Supervisor.BluetoothConnectionSupervisor.RetryNow | src/services/bluetooth_connection_supervisor.py:140-154 | wanted, a retry command left in the slot, an open session closed |
| Supervisor.BluetoothConnectionSupervisor.ScanDevices | src/services/bluetooth_connection_supervisor.py:156-176 | nothing while the link is busy, else a scan that holds the lock |
| Supervisor.BluetoothConnectionSupervisor.NextBackoffDelay | src/services/bluetooth_connection_supervisor.py:556-561 | for n failures the n-th entry of the schedule, its last for any larger n, its first for 0, and the fixed interval without a schedule |
| Supervisor.BluetoothConnectionSupervisor.Perform | src/services/bluetooth_connection_supervisor.py:88-561 | every step of the object is the step of the machine the theorems are about |
| SupervisorRuns.StepKeeps | src/services/bluetooth_connection_supervisor.py:250-452 | every step of every task keeps the whole supervisor invariant |
| SupervisorRuns.EveryInterleaving | src/services/bluetooth_connection_supervisor.py:250-452 | the invariant holds after every interleaving from any stored settings |
| SupervisorRuns.SingleSession | src/services/bluetooth_connection_supervisor.py:288-341 | never more than one session connected and not yet disconnected, none while another is being opened, and at most one ever reset the clock |
| SupervisorRuns.StatusIsBacked | src/services/bluetooth_connection_supervisor.py:433-452 | a connected, ready or stale status has an adapter, or that session's disconnect is in flight |
| SupervisorRuns.ResetUntilFirstSession | src/services/bluetooth_connection_supervisor.py:303-306 | after every interleaving the next connect may reset the clock if and only if no session was opened yet |
| SupervisorBackoff.StepCounts | src/services/bluetooth_connection_supervisor.py:270-286 | from the cause of a step alone: what it does to the attempt counter, and that it waits exactly once for a failed connect or an unexpected disconnect while wanted, and not for a stale reconnect |
| SupervisorBackoff.ClosingHasItsCause | src/services/bluetooth_connection_supervisor.py:396-431 | the loop closes a session as dropped exactly when its stream ends unwithdrawn, and as stale exactly when it was silent too long and is to be replaced |
| SupervisorBackoff.BackoffFollowsFailures | src/services/bluetooth_connection_supervisor.py:270-286 | after every interleaving the counter is the number of failures since the last READY, and the waits are, in order, the n-th schedule entry (or the last) for the n-th such failure that is waited out, and no others |
| SupervisorBackoff.DelayIsScheduled | src/services/bluetooth_connection_supervisor.py:556-561 | the delay the machine reads is that entry by its index |
| DisconnectWins.DisarmedStep | src/services/bluetooth_connection_supervisor.py:250-268 | a supervisor to which nothing known can still start a connect stays so under every step that is no request |
| DisconnectWins.DisarmedRun | src/services/bluetooth_connection_supervisor.py:250-268 | and so no interleaving of any length starts one |
| DisconnectWins.DisconnectWinsIff | src/services/bluetooth_connection_supervisor.py:117-138 | while the stored wish is off and no connect or retry call waits, some interleaving without a new request starts a connect if and only if the loop is parked on the lock, past its reading of the settings, or an old command is unread |
| DisconnectWins.DisconnectWinsOnRuns | src/services/bluetooth_connection_supervisor.py:117-138 | the same if-and-only-if in every reachable state, from any stored settings and under any lock holder |
| DisconnectWins.ParkedCanStart | src/services/bluetooth_connection_supervisor.py:288-302 | a loop parked on the lock connects once the holder and everyone queued before it are served |
| DisconnectWins.MidIterationStarts | src/services/bluetooth_connection_supervisor.py:522-547 | what the loop read as wanted in this iteration, and nobody withdraws, leads to a connect |
| DisconnectWins.UnreadStarts | src/services/runtime_settings.py:141-154 | an unread connect or retry command leads to a connect, whoever holds the lock or waits for it |
| DisconnectWins.ClosingCallCarriesOut | src/services/bluetooth_connection_supervisor.py:129-138 | a call that had to close a session carries the disconnect out exactly unless a connection was asked for meanwhile |
| DisconnectWins.CommandWinsIff | src/services/runtime_settings.py:121-139 | after a disconnect command, overwritten or not, a connect can start if and only if the loop is parked or past its reading of the settings |
| DisconnectWins.CallCarriesOut | src/services/bluetooth_connection_supervisor.py:129-138 | with nothing to close and the lock free a call carries the disconnect out at once |
| DisconnectWins.CallWinsIff | src/services/bluetooth_connection_supervisor.py:117-138 | and then a connect can start if and only if an old connect or retry command is unread |
| DisconnectWins.OverwrittenCommandLeavesSession | src/services/runtime_settings.py:125-131 | an overwritten disconnect command leaves the open session open and the loop idle |
| DisconnectWins.RetryOutlivesDisconnect | src/services/bluetooth_connection_supervisor.py:140-154 | a run in which a connect starts right after a completed disconnect, from a retry issued before it |
| DisconnectWins.ParkedConnectOutlivesDisconnect | src/services/bluetooth_connection_supervisor.py:288-302 | a run in which a connect decided during a scan starts after the disconnect that was queued before it |
| ConnectServed.ConnectCallServed | src/services/bluetooth_connection_supervisor.py:93-115 | a connect call that gets the lock at once, with nothing connected, leaves the wish in memory and settings, and a connect can follow, whatever the loop was doing |
| ConnectServed.RetryCallServed | src/services/bluetooth_connection_supervisor.py:140-154 | so it can after a retry call, whether or not that closes a session first |
| ConnectServed.CommandServed | src/services/runtime_settings.py:121-139 | a connect command can lead to a connect, and a retry command even against a stored wish to be disconnected |
| ConnectServed.WantedStarts | src/services/bluetooth_connection_supervisor.py:250-268 | whatever the loop is doing, with the wish stored, the lock free and nothing connected a connect can start |
| ConnectServed.OldDisconnectCostsOne | src/services/bluetooth_connection_supervisor.py:522-547 | an unread disconnect command against the stored wish delays that by an iteration and no more |
| LinkStatus.OpenedIsReady | src/services/bluetooth_connection_supervisor.py:323-341 | an opened session is READY with the counter at 0, and the loop waits for its events |
| LinkStatus.FailedIsReconnecting | src/services/bluetooth_connection_supervisor.py:270-286 | a failed connect that is still wanted leaves RECONNECTING and the loop waiting |
| LinkStatus.StatusFollowsTelemetry | src/services/bluetooth_connection_supervisor.py:349-416 | telemetry brings a stale link back to READY, silence makes a ready one STALE from the limit on |
| LinkStatus.ScanWhenIdle | src/services/bluetooth_connection_supervisor.py:156-167 | a scan call goes ahead exactly when the link is neither up nor being built |
| LinkStatus.ScanCallEnds | src/services/bluetooth_connection_supervisor.py:168-176 | a scan call that ends leaves SCANNING only while a connection is wanted, one that raises leaves the status as it was |
| LinkStatus.LoopShowsItsWork | src/services/bluetooth_connection_supervisor.py:288-341 | with both calls allowed, after every interleaving: CONNECTING while the loop opens a session, SCANNING while it scans |
| LinkStatus.FirstComeFirstServed | src/services/bluetooth_connection_supervisor.py:101-138 | the operation lock is served in turn: no step of any task overtakes a waiting one, and a grant takes the one who waited longest |
| LinkStatus.RefusedCallOnlyShows | src/services/bluetooth_connection_supervisor.py:94-100 | a call the configuration forbids shows an error and changes nothing else |
| LinkStatus.ConnectCallShows | src/services/bluetooth_connection_supervisor.py:101-115 | a connect call on a free lock takes back the status of a manual disconnect and no other |
| LinkStatus.DisconnectCallShows | src/services/bluetooth_connection_supervisor.py:129-138 | a disconnect call on a free lock, from its first step to its end: wish withdrawn everywhere, session closed once, status by who disconnected |
| LinkStatus.RetryCallShows | src/services/bluetooth_connection_supervisor.py:140-154 | a retry call on a free lock likewise: RECONNECTING while it closes, DISCONNECTED at its end, one new retry command |
| LinkStatus.OldCommandsAreSkipped | src/services/bluetooth_connection_supervisor.py:85-85 | a new supervisor obeys no command issued before it was made |
| LinkStatus.WishIsRead | src/services/bluetooth_connection_supervisor.py:522-547 | the wish stored in the settings is what the next iteration goes by: withdrawn it waits, kept it goes on or goes for the lock |
| Sorting.SortIsOrdered | src/services/reporting_service.py:113-121 | sorting by a key that separates all entries gives a strictly ordered list |
| Sorting.SortIsPermutation | src/services/reporting_service.py:113-121 | and neither loses nor invents an entry |
| Sorting.OrderIsUnique | src/state_manager.py:319-322 | two strictly ordered arrangements of the same entries are equal |

## Left out

- LapPipeline.LapExactness: the bus between adapter and race service is taken to drop nothing (EventBus.NothingIsDropped says when that is so) and the database not to fail; faults are the subject of RaceRuns.
- LiveDashboard.DiffThenFoldIsDirectView: one session; speeds and fuel are reals, so rounding is not modelled.
- SupervisorRuns.StatusIsBacked: for adapters that never report the supervisor's own state "stale", which the live adapter does not.
- ReconnectRunner.CarreraClientRunner.Run: the connection-state events it emits and its drop-oldest output queue are not modelled; neither is the wording of errors, nor a connect that raises anything but a connection error.
- ReconnectRunner.CarreraClientRunner.Pump: the output queue is what was put into it; dropping its oldest entry when full is not modelled.
- RaceRunner.RaceTelemetryRunner.FollowFrame: the bus queue between adapter and runner, and storage faults, which RaceRunner.RaceTelemetryRunner.DispatchEvent has.
- DisconnectWins.DisconnectWinsIff: a connect or retry call that is still waiting for the lock counts as a request not yet served.
- ConnectServed.ConnectCallServed: a call that finds the lock taken waits in the queue; the same then holds from the moment it is granted the lock.
- Watchdog.ReadLoop: frame translation is the subject of LiveAdapter; the loop's end by disconnect is the end of the given polls.
- RaceService.RaceService.Perform: one clock reading per operation, in whole milliseconds; name, notes, source id and row audit times are not stored.
- RaceService.RaceService.TransitionRace: a lifecycle event that cannot be added fails the whole transaction, as the session's failed flush does; how the database driver itself opens transactions is not modelled.
- RaceService.RaceService.RestartProcess: creation order is taken to be id order.
- ReportingService.ReportingService.DriverStatistics: the average is rounded from the exact quotient; the rounding of the quotient to a binary float before that is not modelled.
- StateManager.StateManager.Apply: the connection record, the active-car detector and the snapshot file are left out.
- Reads that only look rows up (list_races, get_active_race, list_reports), repeat_race, and the CSV exports: single-branch copies of stored rows.
- Request validation beyond what the race rules use, and button enablement in the user interface.
- Supervisor shutdown and cancellation of the runner's task; device ids, device choice and scan results; the supervisor's outgoing event queue.
- The settings file's encoding and races between two processes rewriting it: each settings operation is atomic.
- Bluetooth and serial access, threads and real time: poll results, connect outcomes and clock values are inputs.
- The mock adapter, command line, configuration files, logging, and everything drawn on screen.

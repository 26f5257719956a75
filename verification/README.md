# Verified model of the modem recovery daemon

This project models, in Dafny, the parts of the daemon whose correctness lies in runs and not in
single calls, and proves what they keep:

- **the recovery policy** (`DecisionTable`, `Ladder`, `Gates`, `Transitions`, `Engine`,
  `EngineLaws`, `PolicyLaws`, `PathRuns`): one cycle maps observations, prior states, globals,
  settings and clock readings to plans and new states. Exactly which issue calls for which action is
  said per action, and what each gate reports. Over unbounded runs it is shown that resets stay within
  the ladder's budget, are spaced, escalate in order, are paid for by healthy cycles, and that
  modems do not disturb one another;
- **the cycle driver around it** (`CycleDriver`, `DaemonRuns`, `DriverLaws`, `LostSaves`, `SimSwaps`):
  hydration, the SIM-swap stage, the dispatch filter and persistence, each of which may be cut
  short by an error, a cancellation or a death, so that the run theorems are about what the daemon
  dispatches and stores; and exactly which of its actions the backoffs bind;
- **the state store** (`Disk`, `StateStore`, `LockProtocol`, `LockProgress`): power loss between
  any two file steps, injected faults, the schema downgrade, any sequence of calls, and any number
  of tasks in any number of processes taking the two locks on bounded worker pools, failing and
  dying; and exactly which programs of such calls can deadlock;
- **the webhook poster** (`Webhook`, `WebhookRuns`, `WebhookShutdown`): every interleaving of the
  cycle's `enqueue`, the consumer and the shutdown drain, and exactly what a shutdown can lose;
- **the timed loops** (`Supervisor`, `CycleScheduler`): the amortised restart rate and the
  deadline arithmetic;
- **the Zao log** (`ZaoLog`, `ZaoTailer`): the backward scan against the audit tool's forward
  grouping, and the inotify-driven cache against a fresh parse.

Code that changes things step by step is a method or a class, proved against a specification
function; the run theorems are lemmas about those functions. `Wire` holds the shared records.

## How to read a run theorem

A per-path run (`PathRuns`) is a sequence of cycles as the stored record of one USB path goes
through them: absent, only reset by the SIM-swap stage, on the engine's per-modem path, or inside a
short-circuited driver-reset cycle. `DaemonRuns.CycleProjects` and `RunProjects` show that every
daemon run, seen from one path, is such a sequence, so each `PathRuns` theorem holds of the stored
records. The driver starts actions before it saves records, so an action can run whose record is
lost: `DaemonRuns.AccountedExactlyWhenSaved` says when, and the bounds on what is *started* carry a
term for the lost ones. The webhook,
lock and tailer models are step systems: a run is a sequence of states joined by enabled moves.

## Where the code differs from its comments

The model follows the code. Each point is a proved lemma unless a line says otherwise.

- The driver-reset cycle carries `healthy_streak` through even when the modem degrades
  (src/spark_modem/policy/engine.py:94-97), so a streak can survive a bad cycle:
  `PathRuns.DriverResetCarriesStreakThroughDegradation`, with the exact condition in
  `PathRuns.BadCycleRestartsCountUnlessDriverReset`.
- Actions run before anything is saved (src/spark_modem/daemon/cycle_driver.py:251-262). A save that
  raises drops its own record and every later modem's (lines 446-457), and the loop goes on
  (src/spark_modem/daemon/main.py:776-788); SIGTERM cancels the cycle (src/spark_modem/daemon/sigterm.py:128-134). What
  ran then is neither counted nor stamped: `DaemonRuns.AccountedExactlyWhenSaved`. The backoffs
  bind what follows an action exactly when its record was saved: `LostSaves.SpacedExactlyWhenSaved`.
  On a disk on which saves fail any action is started without bound:
  `LostSaves.LostSavesResetWithoutBound`.
- No transition enters `recovering` or `exhausted` (src/spark_modem/policy/transitions.py:56-58):
  `Transitions.NoTransitionEntersRecoveringOrExhausted`, `PathRuns.OnlyHealthyOrDegradedReached`.
- A host-level driver reset is planned and counted but not dispatched
  (src/spark_modem/daemon/cycle_driver.py:401-403); a per-modem one, from the `qmi_proxy_died`
  row, is dispatched without the fleet-fraction gate
  (src/spark_modem/policy/engine.py:461-464): `DaemonRuns.PerModemDriverResetIgnoresTheFleet` gives
  the exact condition, `DaemonRuns.DeadProxyIsResetBelowTheFraction` a cycle. That the host-level
  plan reaches no modem follows from `DaemonRuns.CycleProjects`.
- The identity file is given only the modems surfaced this cycle
  (src/spark_modem/daemon/cycle_driver.py:354-355), so a swap can go unreported:
  `SimSwaps.SwapReportedExactlyWhenRemembered`, `SimSwaps.EnrolmentElsewhereHidesASwap`.
- When observation itself fails the cycle raises at the SIM-swap stage's strict `zip`, before
  anything is written (src/spark_modem/daemon/cycle_driver.py:323): `CycleDriver.Driver.RunOneCycle`.
- The driver takes the expected modem count from the modems it found (or 4), not from the setting;
  the composed daemon never supplies host issues. This is how `ContextOf` and `DiagOf` are defined.
- A failing directory fsync raises after the target was replaced
  (src/spark_modem/state_store/atomic.py:141-155): the exact condition is in
  `StateStore.StateFile.AtomicWriteBytes`.
- A reset accepts a record with a newer schema version and refuses one below 1:
  `StateStore.StateFile.ResetModemStreakAndCounters`. A file without a version is of version 0 to a
  load, which sets it aside (src/spark_modem/state_store/store.py:481), and of version 1 to a reset,
  which rewrites it in place (src/spark_modem/wire/state.py:36): no other file is treated so,
  `StateStore.ResetRewritesAnOldFileExactlyWhenUnversioned`.
- Putting a failed envelope back into a full queue suspends the only consumer
  (src/spark_modem/webhook/poster.py:227): `WebhookRuns.BlockedForever`,
  `WebhookRuns.ConsumerCanBlock`. An attempt in flight while the
  drain returns can end up unreported: `WebhookRuns.InFlightAttemptCanBeLost`, with the exact
  condition in `WebhookShutdown.LostExactlyWhenAtRisk` and
  `WebhookShutdown.LateOfferAccountedExactlyWhenNext`. Some drop events report one attempt too few: `WebhookRuns.DropEventsReportAttempts`.
- After a create-mode rotation the new Zao log is never watched, because the old handle is still
  held (src/spark_modem/event_sources/asyncinotify_producer.py:159-165):
  `ZaoTailer.RotationIsNeverFollowed`, `ZaoTailer.RotationGoesUnseen`.
- File locks are taken and released on the process's thread pool
  (src/spark_modem/state_store/locks.py:247,284), so calls that wait for files held elsewhere can
  take every worker that their own process needs to release on. Exactly which programs can
  deadlock is `LockProgress.DeadlockExactlyWhenCanJam`: it takes two processes that each use more
  files than they have workers (`LockProgress.DeadlockNeedsTwoCrowdedProcesses`), and no pool is
  large enough for all programs (`LockProgress.TooFewWorkersDeadlock`).
- `advance` is called after early wakes too (src/spark_modem/daemon/main.py:821), so a deadline can
  run several intervals ahead: `CycleScheduler.EarlyWakesAccumulate`.

## Model

| member | source | states |
|---|---|---|
| DecisionTable.TopPriorityIssueIsMostUrgent | src/spark_modem/policy/decision_table.py:76-97 | an issue is chosen exactly when one of a ranked category exists; it is the first one listed in the most urgent category present |
| DecisionTable.FirstInCategoryIsFirst | src/spark_modem/policy/decision_table.py:93-97 | the search within a category returns its first issue, or nothing exactly when there is none |
| Ladder.SelectRungFindsFirstOpenRung | src/spark_modem/policy/ladder.py:43-76 | the rung is the first at or above the base whose counter is below its ceiling; exhausted exactly when the remaining headroom is 0 |
| Ladder.SelectRungNeverStepsDown | src/spark_modem/policy/ladder.py:62-76 | as counters grow the choice never moves to a lower rung, and exhaustion is permanent |
| Ladder.BumpUsesOneHeadroom | src/spark_modem/policy/ladder.py:71-76 | an executed open rung costs every base at or below it exactly one unit of headroom and none above |
| Gates.LadderGateSeesEveryDestructiveKind | src/spark_modem/policy/gates.py:95-121 | a destructive kind passes exactly when every remembered destructive execution is at least the interval old; a harmless kind always passes |
| Transitions.TransitionLaw | src/spark_modem/policy/transitions.py:22-111 | exactly when a modem ends healthy, what it ends as otherwise, when the RF flag is set, that counters, streak and timestamps stay, and that validity is kept |
| Transitions.NoTransitionEntersRecoveringOrExhausted | src/spark_modem/policy/transitions.py:56-111 | these two states can be kept but never entered, and `unknown` is always left |
| Engine.RunCycle | src/spark_modem/policy/engine.py:57-214 | the loops over the fleet compute the specified plans, events, transitions, states and globals on both paths |
| Engine.TransitionOnly | src/spark_modem/policy/engine.py:93-113 | the short-circuited loop only transitions each modem and records its change |
| Engine.ProcessModems | src/spark_modem/policy/engine.py:115-206 | the per-modem loop equals independent steps put together in order |
| Engine.ProcessModem | src/spark_modem/policy/engine.py:119-206 | steps 1 to 8 of one modem append exactly that modem's plan and events to the caller's lists |
| Engine.EligibilityLaw | src/spark_modem/policy/engine.py:432-516 | the host reset is eligible exactly when no thermal issue is listed, the cooldown has passed, the modems with a QMI channel-hung issue reach the fraction of a positive expected count, and one of them has all three signal readings at or above their floors |
| Engine.HungCountIsCardinality | src/spark_modem/policy/engine.py:483-490 | the sum over the snapshots is the number of hung modems |
| EngineLaws.HealthyMeansQuiet | src/spark_modem/policy/engine.py:116-175 | a modem that ends healthy has no issue, plans nothing and executes nothing |
| EngineLaws.PlanEventAndBumpAgree | src/spark_modem/policy/engine.py:302-429 | at most one plan per modem; an executed one has no skip event, a gated or exhausted one has one or two, and the counter is bumped exactly for the executed kind |
| EngineLaws.DriverResetExactlyForDeadProxy | src/spark_modem/policy/engine.py:151-175 | a modem's own driver reset runs exactly when a dead proxy is its most urgent issue and its own gates allow it, whatever the expected fleet size |
| EngineLaws.SuppressionFlagsNameTheGates | src/spark_modem/policy/engine.py:302-429 | for every state of the gates: whether the attempt executes, the reason its plan gives, its three flags, and its events in order, each naming the attempted action and its cause |
| EngineLaws.FinalizeWritesOneRecord | src/spark_modem/policy/engine.py:217-252 | count, per-kind stamp and last-action time move together and only for the executed kind |
| EngineLaws.StepWritesOneAtomicRecord | src/spark_modem/policy/engine.py:119-206 | counters after a step are the old ones, or none on decay, plus the executed one; decay happens exactly when the streak reaches K |
| EngineLaws.StepKeepsValid | src/spark_modem/wire/state.py:82-101 | every state a step writes passes both validators and has its streak below K |
| EngineLaws.PerModemCycleIsPointwise | src/spark_modem/policy/engine.py:115-214 | the cycle writes exactly the observed paths, each with its own step, and leaves the globals alone |
| EngineLaws.DriverResetCycleIsPointwise | src/spark_modem/policy/engine.py:83-113 | the short-circuited cycle writes bare transitions, one host plan, no event, and stamps the globals |
| EngineLaws.SplittingCommutes | src/spark_modem/policy/engine.py:115-214 | the cycle of a whole fleet is the cycles of its two parts side by side |
| EngineLaws.PermutingCommutes | src/spark_modem/policy/engine.py:115-214 | listing the modems in another order changes no state and no collection of plans, events or transitions |
| EngineLaws.NonInterference | src/spark_modem/policy/engine.py:115-214 | a modem's plans, events and new state are those of its own step whatever the rest of the fleet |
| PolicyLaws.RunsExactlyWhatIsCalledFor | src/spark_modem/policy/decision_table.py:35-73 | an action runs on a modem if and only if its most urgent issue is one of those listed for that action, or for a reset now used up below it on the ladder, its own ceiling is not reached, and the gates let it through |
| PolicyLaws.ReportsExactlyWhatIsCalledFor | src/spark_modem/policy/engine.py:131-180 | the plan and events of a modem in every case: none without a listed issue, the table's own reason for the five that need no action, a skip naming the first remedy when every reset is used up, else the attempt's |
| PolicyLaws.TransitionsAreTheChanges | src/spark_modem/policy/engine.py:93-206 | a cycle, short-circuited or not, lists exactly one transition for each modem whose state changed, from the old state to the one written, with the first issue as its cause |
| PathRuns.PathStepLaw | src/spark_modem/policy/engine.py:119-252 | one cycle of a path's record: counters, stamps and streak as a function of clearing, execution and health |
| PathRuns.ExecutionLaw | src/spark_modem/policy/engine.py:151-175 | an executed action respected both backoffs, its ceiling and the ladder's choice on the record it was decided on |
| PathRuns.ExecutionsAreSpaced | src/spark_modem/policy/gates.py:72-121 | in every run of a stored record, in engine stamps, two executions of a kind are a backoff apart and two destructive ones the ladder interval apart, through decays, SIM swaps and absences |
| PathRuns.CountersCountExecutions | src/spark_modem/policy/engine.py:236-252 | between clears each counter grows by exactly the executions of its kind |
| PathRuns.CeilingsHold | src/spark_modem/policy/engine.py:151-198 | no ladder counter ever exceeds its ceiling in any run that starts within them |
| PathRuns.LadderBudget | src/spark_modem/policy/engine.py:151-198 | between two clears at most the three ceilings' sum, less what was already used, of ladder resets run |
| PathRuns.DecaysCostHealthyCycles | src/spark_modem/policy/engine.py:119-129 | K times the decays never exceeds the healthy cycles of the run |
| PathRuns.RunsPaidByClears | src/spark_modem/policy/engine.py:119-198 | ladder resets are at most the counters' sum plus one budget for each decay and SIM swap |
| PathRuns.AmortisedLadderResets | src/spark_modem/policy/engine.py:119-198 | over any run, resets are bounded by the budget, the SIM swaps and the healthy cycles alone |
| PathRuns.HeadroomCountsDown | src/spark_modem/policy/ladder.py:62-76 | from a fixed base the headroom left is the initial one less the executed resets at or above it |
| PathRuns.EscalationProgress | src/spark_modem/policy/ladder.py:62-76 | between clears the choice never steps down, and the ladder is exhausted exactly when the base's headroom has all been run |
| PathRuns.EscalationStep | src/spark_modem/policy/engine.py:151-175 | the next ladder reset that runs is the next one of the full escalation |
| PathRuns.EscalationIsAPrefix | src/spark_modem/policy/ladder.py:36-76 | from empty counters the executed ladder kinds are a prefix of soft x max, modem x max, usb x max |
| PathRuns.StreakIsHealthySinceModK | src/spark_modem/policy/engine.py:119-129 | the streak is, modulo K, the healthy cycles since the last unhealthy one, driver-reset cycles being transparent |
| PathRuns.KHealthyCyclesClear | src/spark_modem/policy/engine.py:119-129 | from a streak below K, a run of at least K healthy cycles ends with empty counters |
| PathRuns.BadCycleRestartsCountUnlessDriverReset | src/spark_modem/policy/engine.py:93-129 | a cycle that ends unhealthy leaves a zero streak if and only if it is not a driver-reset cycle, or follows a SIM swap, or the streak was zero already |
| PathRuns.DriverResetCarriesStreakThroughDegradation | src/spark_modem/policy/engine.py:93-113 | a concrete degraded cycle that keeps a positive streak |
| PathRuns.RecordsStayValid | src/spark_modem/wire/state.py:82-101 | in every run from a valid record every record is valid |
| PathRuns.OnlyHealthyOrDegradedReached | src/spark_modem/policy/transitions.py:60-111 | from a fresh record only healthy and degraded are ever reached after the first cycle |
| CycleDriver.Driver.constructor | src/spark_modem/daemon/cycle_driver.py:147-170 | the driver starts on the given store with no event logged |
| CycleDriver.Driver.RunOneCycle | src/spark_modem/daemon/cycle_driver.py:172-291 | the stages in order, to the end or to where the cycle is cut short; store and event log then hold exactly what was written before |
| CycleDriver.Driver.DetectAndHandleSimSwaps | src/spark_modem/daemon/cycle_driver.py:297-371 | identity file saved when something is new or changed, then one reset and one event per swapped path, as far as it gets |
| CycleDriver.Driver.LoadPriors | src/spark_modem/daemon/cycle_driver.py:218-225 | the engine sees the stored record of each found modem, or a fresh one; a load that raises ends the cycle |
| CycleDriver.Driver.DispatchActions | src/spark_modem/daemon/cycle_driver.py:373-437 | exactly the unsuppressed planned actions about a found modem are started, in order, up to where it is cut short |
| CycleDriver.FilterIsExact | src/spark_modem/daemon/cycle_driver.py:385-437 | one plan is started if and only if no suppression flag is set, its reason is a planned action, and it is about a modem found this cycle |
| CycleDriver.Driver.StampIfRan | src/spark_modem/daemon/cycle_driver.py:447-450 | the last-action time is set exactly when an action ran on the path |
| CycleDriver.Driver.SaveStates | src/spark_modem/daemon/cycle_driver.py:446-457 | of the written records the first ones in scan order are saved, up to the save that raises, and nothing else changes |
| CycleDriver.Driver.PersistStatesAndGlobals | src/spark_modem/daemon/cycle_driver.py:439-483 | states as above; the globals become the engine's only if every save was made |
| DaemonRuns.StageOneByPath | src/spark_modem/daemon/cycle_driver.py:316-371 | a path's record is the reset one exactly when the stage got to its swap; a complete stage handles exactly the changed ICCIDs |
| DaemonRuns.DispatchByPath | src/spark_modem/daemon/cycle_driver.py:385-437 | filtering the fleet's plans and then looking at one path is filtering that path's plans |
| DaemonRuns.DispatchedExactlyWhenBumped | src/spark_modem/daemon/cycle_driver.py:385-437 | a per-modem plan of a found modem passes the filter if and only if the engine bumped that kind's counter and stamp |
| DaemonRuns.CycleProjects | src/spark_modem/daemon/cycle_driver.py:172-291 | in any cycle, cut short or not, the driver starts on a path only what the path's own machine runs, all of it unless it stops before; the stored record makes that machine's step when it is saved and is left as the SIM-swap stage left it otherwise |
| DriverLaws.StartsExactlyWhatIsCalledFor | src/spark_modem/daemon/cycle_driver.py:218-437 | in any cycle an action is started on a modem only if its issue calls for it and the gates let it through under this cycle's maintenance window and settings; in one that is not cut short or short-circuited, if and only if |
| DriverLaws.NothingIsStartedForThese | src/spark_modem/policy/decision_table.py:43-63 | nothing is started on a modem whose most urgent issue is a carrier denial, an absent, failed or locked card, or unlisted |
| DriverLaws.LeftAlonePlan | src/spark_modem/policy/decision_table.py:43-63 | of such a listed modem the cycle's one plan carries that issue's own reason |
| DriverLaws.NothingDestructiveInMaintenance | src/spark_modem/policy/gates.py:52-61 | with the maintenance window open no modem, USB or driver reset is started, in any cycle from any store |
| DriverLaws.ShortCircuitsExactlyWhenFleetIsHung | src/spark_modem/policy/engine.py:466-516 | a cycle is short-circuited if and only if the cooldown is over, the found modems with a hung channel reach the fraction of all found, and one of them has its signal above the floors |
| DriverLaws.NothingStartedWhenShort | src/spark_modem/daemon/cycle_driver.py:401-403 | in such a cycle no action is started |
| DriverLaws.CutDispatchStartsAPrefix | src/spark_modem/daemon/cycle_driver.py:373-437 | a cycle cut short while it dispatches has started exactly the first so many of the actions it would have started, one cut short later all of them, earlier none |
| DriverLaws.CycleEndsAs | src/spark_modem/daemon/cycle_driver.py:172-291 | a cycle ends by the length mismatch exactly when observation failed, with the engine's result exactly when it got through the saves, else cut short |
| DaemonRuns.AccountedExactlyWhenSaved | src/spark_modem/daemon/cycle_driver.py:251-262 | the stored record shows exactly the actions started on its path if and only if none was or the record was saved |
| DaemonRuns.RunProjects | src/spark_modem/daemon/cycle_driver.py:172-291 | over any run the stored record is the end of its path's own run, whose executions are, in order, the started actions whose record was saved |
| DaemonRuns.DispatchedLadderResetsAreBounded | src/spark_modem/policy/engine.py:119-198 | over any run, K times the ladder resets started on a modem is at most the budget's bound by SIM swaps and healthy cycles, plus K for each reset whose record was lost |
| DaemonRuns.DispatchesAreSpaced | src/spark_modem/policy/gates.py:72-121 | over any run every started action is a backoff, or the ladder interval, after each earlier one whose record was saved, in stamps, and in start times less the delay between the earlier one's stamp and start |
| LostSaves.LostIsStartedAgain | src/spark_modem/daemon/cycle_driver.py:251-262 | an action whose record was lost is started again, with the same stamp, when the cycle is run again on the same readings |
| LostSaves.SpacedExactlyWhenSaved | src/spark_modem/daemon/cycle_driver.py:251-262 | in every continuation everything started later on the path keeps the backoff and the ladder interval from a started action if and only if that action's record was saved |
| LostSaves.LostSavesResetWithoutBound | src/spark_modem/daemon/cycle_driver.py:446-457 | any action any cycle starts is, on a disk on which no save succeeds, started in each of n repetitions of that cycle with the same stamp, with no healthy cycle and at most one SIM swap |
| DaemonRuns.PerModemDriverResetIgnoresTheFleet | src/spark_modem/policy/engine.py:461-464 | outside a short-circuited cycle a modem's driver reset is started exactly when a dead proxy is its most urgent issue and its own gates allow it |
| DaemonRuns.DeadProxyIsResetBelowTheFraction | src/spark_modem/policy/decision_table.py:35-73 | a cycle in which that happens while the host-level reset is not eligible |
| DaemonRuns.DriverResetsAreSpaced | src/spark_modem/policy/engine.py:474-477 | the stored reset count is the number of short-circuited cycles that saved it, the stamp is the last one's, and they are the global cooldown apart |
| SimSwaps.IdentityFileIsLastSurfaced | src/spark_modem/daemon/cycle_driver.py:316-355 | in every run a path in the identity file holds the last identity surfaced there |
| SimSwaps.ReportedSwapsAreReal | src/spark_modem/daemon/cycle_driver.py:336-371 | every swap event appended, in any run of cycles cut short or not, names two consecutive surfaced ICCIDs of the path that differ, and the record then has streak 0 and no counters |
| SimSwaps.SwapReportedExactlyWhenRemembered | src/spark_modem/daemon/cycle_driver.py:336-355 | only a change of ICCID at a path still in the identity file is reported, and a complete stage reports every such change |
| SimSwaps.EnrolmentElsewhereHidesASwap | src/spark_modem/daemon/cycle_driver.py:354-355 | a run in which another path's new card erases the memory and a swap is not reported |
| SimSwaps.CrashLosesTheRemainingResets | src/spark_modem/daemon/cycle_driver.py:354-371 | a cycle cut short after the identity file is saved and before a reset leaves that swap unhandled for good |
| Disk.CrashTargetIsPossible | src/spark_modem/state_store/atomic.py:82-155 | whatever subset of pending directory changes survives, the entry is one of the predicted ones |
| Disk.CrashLeavesAPossibleBlob | src/spark_modem/state_store/atomic.py:109-155 | after a power loss the target holds one of the predicted whole contents |
| Disk.EachPossibleBlobCanBeLeft | src/spark_modem/state_store/atomic.py:109-155 | and each of those is what some power loss leaves: the prediction is exact |
| Disk.ReplaceIsSafe | src/spark_modem/state_store/atomic.py:141-152 | replacing the target by a synced file adds only the complete new contents |
| Disk.DirectorySyncSettles | src/spark_modem/state_store/atomic.py:82-106 | after the directory fsync only the live contents can survive |
| StateStore.CrashThenLoadSucceeds | src/spark_modem/state_store/atomic.py:109-155 | after a crash in any state of an operation the file is whole, old or new, and loads |
| StateStore.CrashLeavesOldOrNew | src/spark_modem/state_store/atomic.py:109-155 | from a settled target it is exactly the old or the new contents |
| StateStore.LoadGivesBackTheSaved | src/spark_modem/state_store/store.py:154-258 | loading the contents of a save gives the saved record, every field |
| StateStore.LoadLaw | src/spark_modem/state_store/store.py:204-258 | for every contents, which record or which error a load gives |
| StateStore.ResetKeepsTheRest | src/spark_modem/state_store/store.py:281-302 | a reset accepts exactly a missing file and valid records of version 1 or above or none, and keeps every field but streak and counters |
| StateStore.SavedOutlivesPowerLoss | src/spark_modem/state_store/atomic.py:82-155 | after a finished save and any power loss the next load gives exactly the saved record |
| StateStore.CrashDuringSaveLoadsOldOrSaved | src/spark_modem/state_store/atomic.py:109-155 | after a power loss inside a save the next load gives what it would have before, or exactly the record being saved |
| StateStore.EveryHistoryLoads | src/spark_modem/state_store/store.py:128-302 | over any history of saves, loads and resets, each finished, failed or cut off by a power loss, the disk stays consistent and every load succeeds |
| StateStore.StateFile.Perform | src/spark_modem/state_store/store.py:128-302 | any one call, whatever fails, passes only through the states allowed for it |
| StateStore.StateFile.PerformAll | src/spark_modem/state_store/store.py:128-302 | over any sequence of calls, a power loss at any moment leaves a consistent disk that loads |
| StateStore.OldVersionSurvives | src/spark_modem/state_store/store.py:206-253 | during a downgrade the old file is at the target or its shadow after any crash |
| StateStore.CrashDuringDowngrade | src/spark_modem/state_store/store.py:206-253 | in every state a downgrade passes through the above holds and the next load succeeds |
| StateStore.StateFile.constructor | src/spark_modem/state_store/store.py:109-126 | the store starts on the given, consistent disk |
| StateStore.StateFile.WriteAndFsyncTemp | src/spark_modem/state_store/atomic.py:32-79 | succeeds exactly without a fault and with the temp name free; then the temp file is whole and synced; the target is never touched |
| StateStore.StateFile.AtomicWriteBytes | src/spark_modem/state_store/atomic.py:109-155 | which failure is raised for which fault, that a failure leaves the target as it was if and only if it is not the directory fsync's, that no temp name is left, and that every state on the way is crash-safe |
| StateStore.StateFile.SaveModemStateLocked | src/spark_modem/state_store/store.py:154-170 | the record is saved at the current version, or the write's failure is raised |
| StateStore.StateFile.LoadModemState | src/spark_modem/state_store/store.py:172-258 | absent, corrupt, too new, current and old files each give the documented result; only an old file is touched, and success or failure of its downgrade leaves a consistent disk with the old bytes at the shadow once moved |
| StateStore.StateFile.SaveThenLoad | src/spark_modem/state_store/store.py:154-258 | after a save that succeeds a load that can read the file returns exactly the saved record |
| StateStore.StateFile.DowngradeFile | src/spark_modem/state_store/store.py:214-253 | the old file ends at its shadow with its bytes and a fresh record at the target; a failure leaves the old file in place or at the shadow with its bytes, on a crash-safe disk |
| StateStore.StateFile.ResetModemStreakAndCounters | src/spark_modem/state_store/store.py:260-302 | streak and counters are emptied, everything else, timestamps and version included, is kept; the refusals are exact |
| StateStore.ResetRewritesAnOldFileExactlyWhenUnversioned | src/spark_modem/state_store/store.py:281-302 | a reset rewrites in place a file that a load would set aside if and only if it is a valid record without a version; a load then accepts it |
| LockProtocol.MutualExclusion | src/spark_modem/state_store/locks.py:256-288 | in every run at most one task holds a key's file lock |
| LockProtocol.CallsAreLinearizable | src/spark_modem/state_store/store.py:146-302 | the commit order replayed one call after another, each finished or cut short by an error or a death, gives every reply and every file |
| LockProtocol.RunAlone | src/spark_modem/state_store/store.py:128-302 | the sequential reference is the store: a call run alone without faults gives its reply and leaves its file |
| LockProtocol.SerialCallsAgree | src/spark_modem/state_store/store.py:128-302 | a load after a save gives the saved record, after a reset the cleared one; a load changes no current file |
| LockProtocol.DiskStepsHaveAFate | src/spark_modem/state_store/atomic.py:109-155 | whatever a call's disk steps leave at any moment is what the lock model's commit does in one of its fates |
| LockProtocol.LogOnlyGrows | src/spark_modem/state_store/store.py:146-302 | an entry once committed keeps its place in that order |
| LockProtocol.RepliesAreSerialOrRaised | src/spark_modem/state_store/store.py:146-302 | in every run each call in that order that was not cut short gave the sequential reply and left the sequential file; each one cut short raised and left the file in the way it was cut short |
| LockProtocol.WaysToEnd | src/spark_modem/state_store/store.py:228-258 | which of these ways are open to a call, by what it read and whether it has moved an old file aside |
| LockProtocol.LockStepsNeedAWorker | src/spark_modem/state_store/locks.py:247-288 | taking, being refused, starting to wait for and giving back a file lock each need a worker of the process that no waiting call occupies |
| LockProtocol.DeathFreesItsLocks | src/spark_modem/state_store/locks.py:256-288 | a call can be cut off at every moment but one, which frees exactly the locks it held and touches nothing else |
| LockProtocol.BlockingNeverRefused | src/spark_modem/state_store/locks.py:164-205 | only a call that does not wait for the file lock is ever refused |
| LockProtocol.StepKeepsInv | src/spark_modem/state_store/locks.py:164-288 | every step, failures and deaths included, keeps lock tables, files and log in agreement |
| LockProgress.DeadlockExactlyWhenCanJam | src/spark_modem/state_store/locks.py:247-288 | with at least one worker a process, and whatever the files, a deadlock can be reached if and only if some calls can each hold a file while others, waiting for files so held, fill the pool of every process that holds one |
| LockProgress.SomeTaskCanMove | src/spark_modem/state_store/locks.py:247-288 | otherwise, in every state of every run in which a call is open some task can step |
| LockProgress.RunsEndWithAllCallsOver | src/spark_modem/state_store/locks.py:256-288 | every run has at most eight steps a call, and one of a program that cannot deadlock, once it cannot go on, has finished every call |
| LockProgress.DeadlockNeedsTwoCrowdedProcesses | src/spark_modem/state_store/locks.py:256-288 | a deadlock takes two processes, each using more files than it has workers |
| LockProgress.TooFewWorkersDeadlock | src/spark_modem/state_store/locks.py:247-288 | for every size of pool, two processes that load the same files, twice as many as either has workers, can reach a deadlock whatever the files |
| LockProtocol.PerModemLockTable.GetLock | src/spark_modem/state_store/locks.py:57-78 | the same lock object for the same path, created at most once, others untouched |
| LockProtocol.AsyncFlockHandle.Release | src/spark_modem/state_store/locks.py:221-253 | releasing twice is releasing once |
| Webhook.WebhookPoster.constructor | src/spark_modem/webhook/poster.py:93-135 | a poster starts with nothing queued, sent or dropped |
| Webhook.WebhookPoster.Enqueue | src/spark_modem/webhook/poster.py:148-182 | without a URL nothing; with fewer queued than the bound, or no bound, one more queued envelope and no drop; otherwise one drop event and the same queue |
| Webhook.WebhookPoster.Stop | src/spark_modem/webhook/poster.py:199-201 | only the stop flag is set |
| Webhook.WebhookPoster.AttemptOrRequeue | src/spark_modem/webhook/poster.py:203-227 | sent, given up, or handed back with one attempt fewer and the right delay |
| Webhook.WebhookPoster.Drain | src/spark_modem/webhook/poster.py:296-346 | ends with an empty queue; items are tried once in order while the budget lasts, each is sent or reported, and the metric counts them |
| Webhook.WebhookPoster.DrainOne | src/spark_modem/webhook/poster.py:319-333 | one attempt, one delivery or one drop event |
| Webhook.WebhookPoster.FlushRest | src/spark_modem/webhook/poster.py:334-346 | everything the budget left over is reported once, in order |
| WebhookRuns.FlushReportsAll | src/spark_modem/webhook/poster.py:334-346 | the flush of the step system is the same list of reports |
| WebhookRuns.EveryEnvelopeIsInOnePlace | src/spark_modem/webhook/poster.py:148-346 | over every interleaving each offered envelope is exactly once among sent, dropped, queued and in flight; the queue keeps its bound |
| WebhookRuns.TotalsAddUp | src/spark_modem/webhook/poster.py:161-227 | offered = counted sent + counted dropped + queued + in flight, and the metric's counts are those of the deliveries and the drop events |
| WebhookRuns.AttemptsAreBounded | src/spark_modem/webhook/poster.py:203-346 | at most max(1, retries) attempts per envelope, the drain's included |
| WebhookRuns.DropEventsReportAttempts | src/spark_modem/webhook/poster.py:203-346 | a drop event reports the attempts made if and only if it is neither the drain's failed attempt nor a give-up with no retry configured; else one too few |
| WebhookRuns.BackoffIndexInRange | src/spark_modem/webhook/poster.py:218-226 | the backoff index is always in range and follows the number of attempts made |
| WebhookRuns.QueueActsAtItsBound | src/spark_modem/webhook/poster.py:118-227 | in every run an offer is queued without a drop if and only if the queue holds fewer than its bound or has none, and a failed attempt with a retry left suspends the consumer if and only if exactly the bound is queued |
| WebhookRuns.QueueFullMeansAtTheBound | src/spark_modem/webhook/poster.py:170-182 | in every run each queue-full event was made by an offer with exactly the bound queued |
| WebhookRuns.BlockedConsumerStaysBlocked | src/spark_modem/webhook/poster.py:186-227 | while suspended, no step short of a drain delivers, tries or frees anything, and each new envelope is dropped |
| WebhookRuns.BlockedForever | src/spark_modem/webhook/poster.py:186-227 | over any such run the consumer never resumes |
| WebhookRuns.ConsumerCanBlock | src/spark_modem/webhook/poster.py:203-227 | a run from the start that ends suspended |
| WebhookRuns.DrainTakesOrFlushes | src/spark_modem/webhook/poster.py:317-346 | between two attempts the drain takes the next envelope if and only if one is queued and its budget has not run out, and reports the rest otherwise |
| WebhookRuns.QuietDrainReportsEverything | src/spark_modem/webhook/poster.py:296-346 | a drain that ends with the consumer holding nothing leaves every envelope sent or reported |
| WebhookRuns.UnreportedAfterShutdown | src/spark_modem/webhook/poster.py:186-346 | with drain done and consumer gone an envelope is unreported if and only if it is queued, and it stays so |
| WebhookShutdown.LostExactlyWhenAtRisk | src/spark_modem/webhook/poster.py:186-346 | an envelope offered before the drain's flush can end neither sent nor reported if and only if, at the flush, the consumer has it and is to put it back or has a further attempt left |
| WebhookShutdown.AtRiskEitherWay | src/spark_modem/webhook/poster.py:203-227 | of those, one awaiting room is lost in every continuation, any other can also be sent |
| WebhookShutdown.LateOfferAccountedExactlyWhenNext | src/spark_modem/webhook/poster.py:148-197 | an envelope offered after the flush is ever sent or reported if and only if the queue is full or it is the next item of a consumer still getting one |
| WebhookShutdown.LateOfferCanBeLost | src/spark_modem/webhook/poster.py:186-197 | in the latter case it can still end unaccounted for |
| WebhookRuns.InFlightAttemptCanBeLost | src/spark_modem/webhook/poster.py:203-346 | a run from the start in which that happens |
| Supervisor.RestartOnCrash | src/spark_modem/event_sources/supervisor.py:145-185 | over any script of crashes, returns and cancellations the loop stops at the first non-crash, and its clock and events are the specified ones |
| Supervisor.AttemptCountsSinceLongRun | src/spark_modem/event_sources/supervisor.py:157-184 | the counter is the number of crashes since the last long uptime, that one included |
| Supervisor.EventReportsTheSleep | src/spark_modem/event_sources/supervisor.py:162-185 | each event carries that number and the very delay by which the clock then moves |
| Supervisor.DelayFollowsTheEnvelope | src/spark_modem/event_sources/supervisor.py:157-185 | the n-th crash since the last long uptime is followed by the n-th delay of the envelope, or its last |
| Supervisor.RestartRate | src/spark_modem/event_sources/supervisor.py:145-185 | for any envelope with its cap last, m caps less a fixed allowance have gone by after the m-th crash's sleep, in every run, if and only if the reset uptime covers what the early delays lose |
| Supervisor.DefaultRestartRate | src/spark_modem/event_sources/supervisor.py:106-109 | with the shipped numbers, at least 60 m - 225 seconds |
| CycleScheduler.Scheduler.constructor | src/spark_modem/daemon/cycle_scheduler.py:36-43 | the first deadline is one interval after boot |
| CycleScheduler.Scheduler.Create | src/spark_modem/daemon/cycle_scheduler.py:36-43 | a scheduler is made exactly for a positive interval |
| CycleScheduler.Scheduler.Advance | src/spark_modem/daemon/cycle_scheduler.py:67-77 | the catch-up loop ends and equals the closed form |
| CycleScheduler.AdvanceIsLeast | src/spark_modem/daemon/cycle_scheduler.py:67-77 | the new deadline is the first after now among those at least one interval on |
| CycleScheduler.WithinOneIntervalExactlyWhenDue | src/spark_modem/daemon/cycle_scheduler.py:67-77 | it is within one interval of now if and only if the call was not early |
| CycleScheduler.OverrunSkipsADeadline | src/spark_modem/daemon/cycle_scheduler.py:58-77 | a cycle overran exactly when advancing at that time would skip a deadline, but for the one moment exactly an interval late |
| CycleScheduler.DeadlinesStayOnGrid | src/spark_modem/daemon/cycle_scheduler.py:43-77 | over any run deadlines stay on the boot grid, move on at every call and are ahead of it |
| CycleScheduler.LeadIsBoundedByEarlyCalls | src/spark_modem/daemon/cycle_scheduler.py:67-77 | a deadline is at most one interval ahead, plus one for each early call since the last due one |
| CycleScheduler.EarlyWakesAccumulate | src/spark_modem/daemon/main.py:821 | n early wakes at one moment put it n intervals further |
| ZaoLog.ParseBytes | src/spark_modem/zao_log/parser.py:69-111 | the reverse loop returns the specified snapshot |
| ZaoLog.ScanReturnsTheLatestBlock | src/spark_modem/zao_log/parser.py:71-111 | that is the longest contiguous same-timestamp run ending at the last matching line, with its active lines and timestamp |
| ZaoLog.ABlockOrNone | src/spark_modem/zao_log/parser.py:100-101 | such a run exists, or no line matches and the snapshot is unknown |
| ZaoLog.ParseZaoBlocks | tools/audit_soak_zao.py:141-191 | the forward loop returns the specified blocks |
| ZaoLog.GroupsPartitionTheLog | tools/audit_soak_zao.py:163-191 | the blocks cut the matching lines, in order and without loss, into maximal one-timestamp pieces |
| ZaoLog.ScanWithinAudit | tools/audit_soak_zao.py:163-191 | the daemon has a block exactly when the audit has one, with the same timestamp, and its active lines are among the audit's |
| ZaoLog.ScanIsTailOfLastGroup | src/spark_modem/zao_log/parser.py:79-111 | the daemon's block is the tail of the audit's last one |
| ZaoLog.ScanEqualsAuditExactlyWhenUnbroken | src/spark_modem/zao_log/parser.py:85-98 | the two collect the same lines if and only if no other line sits inside the last block |
| ZaoLog.ActiveSetsAgreeExactlyWhenShownUnbroken | src/spark_modem/zao_log/parser.py:85-111 | the two agree on which modem lines are active if and only if every one that the last block shows active is shown active after the last other line inside the block |
| ZaoLog.SplitBurstHidesALine | src/spark_modem/zao_log/parser.py:87-91 | a log in which they disagree about an active line |
| ZaoLog.FindContemporaneousBlock | tools/audit_soak_zao.py:220-227 | the loop returns the block before the first one later than the event, if any |
| ZaoLog.FoundBlockIsLastExactlyWhenInOrder | tools/audit_soak_zao.py:211-227 | that is the last block not later than the event if and only if such blocks come first |
| ZaoLog.SortedLogsAreInOrder | tools/audit_soak_zao.py:141-148 | in a log that never goes back that is the latest block not after the event |
| ZaoTailer.ZaoLogInotifyTailer.constructor | src/spark_modem/zao_log/inotify_tailer.py:55-73 | the cache starts as a parse of the file, or unknown without one |
| ZaoTailer.ZaoLogInotifyTailer.OnInotifyEvent | src/spark_modem/zao_log/inotify_tailer.py:83-158 | what each kind of event does to snapshot, offset and inode, and when it wakes the cycle loop |
| ZaoTailer.WokenExactlyByWhatIsCached | src/spark_modem/zao_log/inotify_tailer.py:99-158 | the loop is woken exactly by the watched file's going and by a readable change or arrival under the log's name; what each kind of event leaves as snapshot, size and inode |
| ZaoTailer.OffsetAndInodeDoNotMatter | src/spark_modem/zao_log/inotify_tailer.py:121-158 | remembered size and inode never decide what is cached; a changed cache always wakes the loop |
| ZaoTailer.Producer.constructor | src/spark_modem/event_sources/asyncinotify_producer.py:120-131 | the file is watched from the start exactly when it exists |
| ZaoTailer.Producer.HandleEvent | src/spark_modem/event_sources/asyncinotify_producer.py:133-174 | which events go to the event-log reopener, which to the tailer, and that a file watch is added only by a parent-directory event for the log's name while no handle is held |
| ZaoTailer.StepKeepsInv | src/spark_modem/event_sources/asyncinotify_producer.py:123-174 | every step of producer, tailer and log without rotation keeps watch, queue and cache in agreement |
| ZaoTailer.CacheIsFreshUnlessMissed | src/spark_modem/zao_log/inotify_tailer.py:99-158 | in every such run, at every quiet moment, the cache is a fresh parse unless a change went by that no event told of |
| ZaoTailer.NothingIsMissedOnceWatched | src/spark_modem/event_sources/asyncinotify_producer.py:123-174 | from a parse made with the file watch in place nothing is missed until the producer crashes |
| ZaoTailer.CoherentFromFirstParse | src/spark_modem/zao_log/inotify_tailer.py:108-158 | so from the first event that is parsed the cache equals a fresh parse at every quiet moment |
| ZaoTailer.LeftAloneComesToRest | src/spark_modem/event_sources/asyncinotify_producer.py:133-174 | from every state of such a run the producer, left alone, comes to rest within four steps for each event queued, and the cache is then a fresh parse unless a change went by untold |
| ZaoTailer.WhoCanAct | src/spark_modem/event_sources/asyncinotify_producer.py:116-174 | when other programs can change the log and the producer can start, crash or make its next step, of which it always has exactly one unless it waits |
| ZaoTailer.WhatIsToldOf | src/spark_modem/event_sources/asyncinotify_producer.py:116-131 | what each change of the log by others does to it, and exactly which of them the kernel tells the producer of |
| ZaoTailer.EventHandledAlone | src/spark_modem/event_sources/asyncinotify_producer.py:133-174 | what the producer's own steps make of one queued event when nothing else acts: which masks reach the tailer, what is cached, when the file watch is added, and when the producer fails |
| ZaoTailer.RotationDetaches | src/spark_modem/event_sources/asyncinotify_producer.py:156-165 | moving or deleting the watched log leaves a handle on no current file |
| ZaoTailer.RotationIsNeverFollowed | src/spark_modem/event_sources/asyncinotify_producer.py:159-165 | in every run, after that no sequence of events puts the watch on a file at the path before the producer restarts or that same file is moved back |
| ZaoTailer.DetachedStep | src/spark_modem/event_sources/asyncinotify_producer.py:159-165 | a step ends that detachment if and only if it is such a restart or return |
| ZaoTailer.StartupGapGoesUnseen | src/spark_modem/event_sources/asyncinotify_producer.py:120-131 | a run in which a write between building the tailer and starting the producer goes unseen |
| ZaoTailer.RotationGoesUnseen | src/spark_modem/event_sources/asyncinotify_producer.py:159-165 | a run from the start in which the new log's lines go unseen |

## Left out

Parts of the repository:

- Subprocesses, `qmicli`, sysfs, udev, netlink, `/dev/kmsg`, `sd_notify`, HTTP, DNS and HMAC: foreign calls. A POST or an action outcome is an arbitrary boolean, an observation an arbitrary snapshot.
- Text parsers, regular expressions and YAML: a log line is a record or no match. The parser's and the audit tool's patterns are taken to agree on every line, though their word-boundary checks differ, and the audit's timestamps to be parseable.
- CLI subcommands, redaction, support bundles, fleet capture, cutover checks, metrics, status.json, the Prometheus server, webhook payloads, deduplication, SIGHUP and the event-log reopener: they would add only easy members.
- The transition and skip events appended after the states are saved: they are in the cycle's result, their writing is not modelled. Only SIM-swap events are, because their order with the resets matters.
- JSON and pydantic: a file is a typed value, with or without a version number, or garbage.
- globals.json and the identity file on disk: their save and load follow the modem file's steps under one shared pair of locks. Here they are values the driver reads and writes whole; disk and lock theorems are about modem files.

Assumptions:

- Settings are fixed during a run; the monotonic clock does not restart; no task is cancelled in the middle of taking a file lock. Wall-clock stamps carry no claim.
- A SIM-swap reset and its event are one step, and so are an action and its verification. State files are at the current schema version when the driver loads them: a downgrade, modelled in `StateStore`, would start a record afresh.
- A process's workers are those of its thread pool that nothing else keeps: in the daemon the Prometheus server keeps one (src/spark_modem/daemon/main.py:981). The poster's DNS lookups (src/spark_modem/webhook/dns.py:66) borrow one and give it back; they are not modelled.
- Clock readings, intervals, deadlines and the fleet fraction are real numbers, and so exact: that deadlines stay on the boot grid, and that a fraction is reached exactly, is not claimed of doubles.
- A state file's version is an integer or missing; one of another type is not part of this model.
- The consumer task of the poster is not cancelled: shutdown waits for it.
- The engine's clock readings are taken in order within one modem's step; `PathRuns` needs no order between cycles, because every gate compares with stored stamps.
- ICCIDs are compared before redaction; equal digests stand for equal cards.
- Power loss keeps any subset of the directory changes not yet fsynced, in order, and makes unsynced file contents garbage.
- The step systems interleave at awaits and lock operations. In `ZaoTailer` a stat, and a read with its parse, are each one step; the kernel's event queue does not overflow; the Zao log and events.jsonl lie in different directories; log age, which depends on the wall clock, is not part of a snapshot.

Weaker than the code does, or narrower than it might be read:

- Engine.RunCycle: does not model the maintenance file or thermal sources; the maintenance flag is an input of the cycle.
- CycleDriver.Driver.RunOneCycle: where the cycle is cut short is an input, which error it was is not kept; the transition and skip events appended after the saves are not part of it.
- CycleDriver.Driver.LoadPriors: does not model a load that downgrades a file; the only older files there can be are of a version below 1, the first.
- Webhook.WebhookPoster.Drain: is the drain with nothing else running; the concurrent one is `WebhookRuns`.
- Supervisor.RestartRate: takes the last delay of the envelope as its largest and the envelope as non-empty; with an empty one the code raises on the first crash.
- SimSwaps.SwapReportedExactlyWhenRemembered: is one-way for a cycle cut short inside the stage; `SimSwaps.CrashLosesTheRemainingResets` shows what such a cycle does. A cycle cut short before the identity file is rewritten counts as having surfaced nothing.
- ZaoTailer.CoherentFromFirstParse: excludes create-mode rotation, where it is false (`ZaoTailer.RotationGoesUnseen`).
- LockProgress.RunsEndWithAllCallsOver: is about finitely many calls, each made once.

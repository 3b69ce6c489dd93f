# A verified model of the local orchestrator

The application runs plans that a language model writes on the user's machine, and keeps a durable record of
everything it does. This project models the parts of it that keep state and make promises over whole runs, and
proves those promises with Dafny. To check it, run `dafny verify dfyconfig.toml`.

- **The plan scheduler** (`DependencyGraph`, `Schedule`, `Trail`, `Settling`, `Steps`, `Picking`,
  `SkipPropagation`, `Conclusion`, `Outcomes`, `ResultCollector`, `PlanRunner`). `PlanExecution` is a class with the
  fields of the program. The environment chooses which running tasks finish; what each worker comes back with, which
  writes the disk refuses, and when the deadline passes or the user interrupts, are inputs of a run.
- **The store** (`Records`, `Persistence`): typed upserts under nested savepoints.
- **The protocols that rewrite the store** (`Journal`, `Lifecycle`, `Recovery`, `RecoveryEffect`, `RecoveryRun`,
  `Interruption`, `InterruptionEffect`, `InterruptionRun`, `Rotation`, `RotationRun`, `RotationRestart`). A journal
  lists the state changes of a run; it is legal when each is a step of its table. Any write of a recovery or an
  interruption may be refused. An interruption suspended at an await shares the store with any other component; a
  rotation stops after the stages its input names.
- **The audit chain and its live stream** (`AuditChain`, `AuditPages`, `AuditLog`, `SseStream`, `SseBroker`,
  `EventId`). The module `AuditTrail` of `AuditLog.dfy` holds the log. The stream is the one of section 9.2 of the
  WHATWG HTML Living Standard, resumed with `Last-Event-ID`.
- **Two algorithmic pieces**: the byte arithmetic of outputs and summaries (`Utf8`, `PayloadGuard`, `MessageFit`,
  `PayloadFit`, `CanonicalJson`, `ContextReducer`), and the dictionary between shell dialects (`Strings`,
  `CommandScan`, `DialectRules`, `ShellMeaning`, `ShellTranslation`, `ShellRoundTrip`).

Each algorithm is proved against functions and predicates on values; what the program promises is then a lemma about
those. What the steps of a protocol do to the records is also told in the fields of the records alone, beside the
functions that compute it (`RecoveryEffect`, `InterruptionEffect`, `Outcomes`), and what the dictionary writes in the
tokens of both sides (`ShellMeaning`). Where a promise fails, the model keeps the code as it is and states when it
holds:

- Cutting a message to size need not end on text that is not ASCII. Halving inside a UTF-8 sequence (section 3 of
  RFC 3629) leaves stray continuation bytes, each decoded as the three bytes of U+FFFD. The texts that halving cannot
  change are characterised exactly (`MessageFit.Stuck`, `MessageFit.HalvingSettles`); a run of the
  loop that does not end reaches one of them, and under a budget that cannot be met it ends if and only if every
  output drains (`PayloadFit.FitMessage`, `MessageFit.Drains`). The end of a text mostly tells: it drains if it is
  ASCII or ends in three ASCII characters (`MessageFit.AsciiEndDrains`), and does not if it ends in anything but ASCII
  (`MessageFit.EndDecides`). With one or two ASCII characters at the end it depends on what comes before
  (`MessageFit.OneAsciiBehind`, `MessageFit.TwoAsciiBehind`).
- Recovery interrupts the waiting conversation of a paused session and leaves the session paused
  (`Recovery.PausedSessionLosesItsConversation`).
- Recovery cut short and started again ends where it would have ended, except when it was cut short between a
  rotating parent and a child that waits behind it, otherwise resumable: the child is resumed
  (`Recovery.RestartedPass`, `RotationRestart.MaskedStoreDiffers`). No rotation of the program leaves such a child
  (`RotationRestart.RestartAfterRotation`).
- An interruption does not look into a plan that has ended: a task left open in such a plan stays open
  (`InterruptionEffect.TasksOverExactly`).
- A rotation in which the write that closes the parent is the first thing to fail leaves a healthy child behind a
  parent that still rotates (`Rotation.HealthyWhenClosed`, `Rotation.HealthyBesideRotating`).
- `which`, a lone dash, and listings of the environment drive do not survive the way to PowerShell and back
  (`ShellRoundTrip.ReversibleCommands`).
- A chain of audit events whose last event was altered and rehashed, or dropped, verifies (`AuditPages.Altered`,
  `AuditPages.Removed`).
- The verification reads by pages, each asked for by the sequence of the last event before it. With n the place of
  an event and p the page size, an event put or altered there with a sequence of at most n / p * p, n >= p, is
  passed over, although one walk over the list would report it (`AuditPages.PagesAsOneWalk`, `AuditPages.Inserted`,
  `AuditPages.CopyUnnoticed`, `AuditPages.DoubleUnnoticed`).

Identifiers, clocks, outcomes of processes, replies of the remote model and refusals of the disk are inputs of the
model. The hash is any collision-free function of the hashed dictionary.

## Model

| member | source | states |
|---|---|---|
| DependencyGraph.ValidateDependencies | src/agentic_local_app/execution/plan_runner.py:337-370 | a task list is accepted if and only if every dependency is known, a sequential plan only points backwards and the graph has no cycle; an accepted one comes with a topological order, a rejected cycle with tasks that wait on each other |
| DependencyGraph.RankExcludesCycles | src/agentic_local_app/execution/plan_runner.py:337-370 | a topological order excludes every cycle, whatever its length |
| DependencyGraph.WaitingSetHasCycle | src/agentic_local_app/execution/plan_runner.py:359-370 | tasks that all wait inside their own set contain a cycle, so the count of scheduled tasks falls short only then |
| DependencyGraph.Discard | src/agentic_local_app/execution/plan_runner.py:359-366 | one round of the queue: every task enters it at most once, exactly when its last dependency is discarded |
| Picking.Ready | src/agentic_local_app/execution/plan_runner.py:485-512 | the picks are launchable tasks with free, pairwise different locks, in increasing declaration order, no more than the free workers; something is picked whenever anything can be, and in a parallel plan nothing pickable is passed over but for a lock already picked |
| Picking.LaunchKeepsPicks | src/agentic_local_app/execution/plan_runner.py:468-541 | launching the first pick leaves the others launchable |
| Schedule.SomethingLaunchable | src/agentic_local_app/execution/plan_runner.py:468-515 | a plan that runs normally with nothing running and something left has a launchable task, in a sequential plan the first one left |
| Steps.NeverStalled | src/agentic_local_app/execution/plan_runner.py:468-483 | the error PLAN_SCHEDULER_STALLED cannot be raised: with nothing running no lock is held and some task can start |
| Schedule.SkippedExactly | src/agentic_local_app/execution/plan_runner.py:733-749 | while a plan runs normally the skipped tasks are exactly those with a direct or transitive dependency that ran and ended otherwise than COMPLETED |
| SkipPropagation.SkipList | src/agentic_local_app/execution/plan_runner.py:733-749 | the worklist skips a task only for a direct dependency that is lost, with the label of the state that dependency ended in, and leaves nobody to skip |
| SkipPropagation.SkipListClosure | src/agentic_local_app/execution/plan_runner.py:733-749 | although the worklist only walks tasks still schedulable, applying its list closes the skips: nobody left can blame a dependency |
| Settling.CompletionThenRelease | src/agentic_local_app/execution/plan_runner.py:602-634 | a completion followed by the release of its dependants keeps the invariant of a normally running plan |
| Settling.FailureThenSkip | src/agentic_local_app/execution/plan_runner.py:602-634 | any other end followed by the skip of its dependants keeps it too, and no terminal record changes |
| Settling.LaunchKeepsOccupancy | src/agentic_local_app/execution/plan_runner.py:517-541 | after a launch the running tasks still fit the workers, hold pairwise different locks, and the held locks are exactly theirs |
| Settling.EndKeepsOccupancy | src/agentic_local_app/execution/plan_runner.py:618-626 | and after an end, the lock of the ended task being free again |
| Settling.LaunchKeepsSequence | src/agentic_local_app/execution/plan_runner.py:485-541 | a sequential plan launches in strictly increasing declaration order |
| Steps.LaunchIsSound | src/agentic_local_app/execution/plan_runner.py:517-541 | one launch keeps the whole scheduler state sound: graph, workers, locks, history, and dependencies COMPLETED for everything that ran |
| Steps.EndIsSound | src/agentic_local_app/execution/plan_runner.py:602-626 | one end keeps it sound, and statuses only move forward |
| PlanRunner.PlanExecution.ApplyChanges | src/agentic_local_app/execution/plan_runner.py:855-891 | a batch is stored, taken into memory and published as a whole, or, exactly when the disk refuses one of its writes, store, memory and trail stay as they were |
| PlanRunner.PlanExecution.TransitionPlan | src/agentic_local_app/execution/plan_runner.py:824-853 | the plan record moves with counters that number the tasks in each state, stored before it is published, or not at all, exactly when the disk refuses it |
| PlanRunner.BatchKeepsAgreement | src/agentic_local_app/execution/plan_runner.py:873-891 | memory, store and published trail agree after every committed batch |
| Trail.TrailIsLegal | src/agentic_local_app/execution/plan_runner.py:855-891 | every published event is a step of its table, and none leaves a terminal state |
| Trail.BatchIsStored | src/agentic_local_app/execution/plan_runner.py:873-877 | every record published about is in the store as it is in memory |
| Trail.BatchExtendsTrail | src/agentic_local_app/execution/plan_runner.py:878-891 | replaying the events from the initial states gives the states in memory |
| PlanRunner.PlanExecution.Finish | src/agentic_local_app/execution/plan_runner.py:602-634 | the new record says what the worker came back with, cancelled before timed out before exit code: which ends are COMPLETED, TIMED_OUT, FAILED, INTERRUPTED and CANCELLED, with which reason and exit data; the two streams of a command are stored whole under their own names; worker and lock are free and the propagation restores the invariant; it fails exactly when the disk refuses a write |
| Settling.StopsExactly | src/agentic_local_app/execution/plan_runner.py:752-786 | the stop conditions: exactly a completion declared to end the plan, and a failure or timeout declared to end it that is critical, says so itself or is not the mere answer of a recognised program; with the state and the reason of each |
| Outcomes.EndTold | src/agentic_local_app/execution/plan_runner.py:602-659 | the end of a task keeps the record of every other worker, and the ended one carries what its worker came back with |
| PlanRunner.PlanExecution.Launch | src/agentic_local_app/execution/plan_runner.py:517-541 | one pending task becomes RUNNING, takes a worker and its lock, and nothing else changes, unless the disk refuses the write |
| PlanRunner.PlanExecution.LaunchReady | src/agentic_local_app/execution/plan_runner.py:468-483 | a round only launches, never stalls, and leaves something running or nothing to do; it is cut short exactly by a refused write |
| PlanRunner.PlanExecution.Drain | src/agentic_local_app/execution/plan_runner.py:788-807 | every running task ends and is recorded as its worker came back, or as a forced termination; nothing else changes and nothing runs any more; it is cut short exactly by a refused write |
| Outcomes.DrainTold | src/agentic_local_app/execution/plan_runner.py:788-807 | so does the drain that ends a plan |
| PlanRunner.PlanExecution.MarkRemaining | src/agentic_local_app/execution/plan_runner.py:809-814 | exactly the schedulable tasks end, for the one reason given, unless the disk refuses the batch |
| PlanRunner.PlanExecution.Stop | src/agentic_local_app/execution/plan_runner.py:417-422 | after a stop condition no task is open, terminal records are untouched, the plan carries the stop reason, and tasks were skipped for it or for a dependency; a persistence error is answered exactly when the disk refused a write |
| PlanRunner.PlanExecution.Interrupt | src/agentic_local_app/execution/plan_runner.py:424-429 | after an interruption no task is open, the plan is INTERRUPTED without a result, and the interrupted tasks carry the reason of the user; a persistence error exactly when the disk refused a write |
| PlanRunner.PlanExecution.BudgetFailed | src/agentic_local_app/execution/plan_runner.py:431-434 | after the deadline the rest is skipped for the budget and the plan FAILED; a persistence error exactly when the disk refused a write |
| PlanRunner.PlanExecution.EndBatch | src/agentic_local_app/execution/plan_runner.py:389-397 | exactly the workers that came back are recorded, each by its outcome, in declaration order, or a stop condition ended the plan with its reason; a persistence error exactly when the disk refused a write |
| PlanRunner.PlanExecution.Proceed | src/agentic_local_app/execution/plan_runner.py:376-388 | a plan that was not started is started, everything that can be launched is, and then something runs or nothing is left |
| PlanRunner.PlanExecution.Loop | src/agentic_local_app/execution/plan_runner.py:372-400 | for every order of completions, all outcomes, interrupt and deadline, the loop terminates, raises none of its internal errors, and ends with plan and tasks terminal, nothing running, no lock held and every task that was launched recorded as its worker came back; a persistence error exactly when the disk refused a write |
| PlanRunner.PlanExecution.Run | src/agentic_local_app/execution/plan_runner.py:309-335 | a plan is refused before any write exactly when it or a task is not pending, a task is foreign or declared twice, or its dependencies cannot be scheduled; otherwise it runs to a conclusion, in which every task that was handed to a worker carries the state, reason and exit data its outcome gives, and any other was skipped or interrupted where it stood, or to a persistence error exactly when the disk refused a write; the signals account for how it ended |
| Conclusion.DrainKeepsReasons | src/agentic_local_app/execution/plan_runner.py:652-659 | draining skips nobody, and interrupts only by the signal of the user |
| Conclusion.CompletedPlanSkips | src/agentic_local_app/execution/plan_runner.py:412-415 | a COMPLETED plan met no stop condition and skipped exactly what a failure doomed |
| Conclusion.ResultCoversThePlan | src/agentic_local_app/execution/plan_runner.py:436-456 | in every run that was not interrupted the result lists partition the tasks, the interrupted list is empty, and the persisted counters are their lengths and add up |
| ResultCollector.Build | src/agentic_local_app/execution/result_collector.py:81-138 | a result is built exactly when plan and tasks are terminal, the tasks belong to the plan and it was not interrupted; each list holds the tasks of its states, and each entry says of its task how it ran, with which exit code, reason and verdict |
| ResultCollector.SelectIsSubsequence | src/agentic_local_app/execution/result_collector.py:103-130 | each list is in declaration order |
| ResultCollector.SelectIsComplete | src/agentic_local_app/execution/result_collector.py:103-130 | and holds exactly the tasks of its states |
| ResultCollector.ListsPartition | src/agentic_local_app/execution/result_collector.py:103-130 | every task of a finished plan is in exactly one list |
| ResultCollector.CountersMatchLists | src/agentic_local_app/execution/plan_runner.py:844-853 | the persisted counters are the lengths of the lists |
| ResultCollector.TallyIsCounted | src/agentic_local_app/execution/plan_runner.py:844-853 | each persisted counter is the number of tasks in its states |
| Persistence.Store.Execute | src/agentic_local_app/persistence/memory.py:60-114 | writes, nested transactions and handlers, run with the snapshot stack, compute exactly the intended meaning and leave the stack as it was |
| Persistence.OnlySurvivorsRemain | src/agentic_local_app/persistence/memory.py:72-114 | at any nesting and wherever writes fail, the store holds its content at entry plus the surviving writes, in order |
| Persistence.InnerFailureKeepsOuterWrites | src/agentic_local_app/persistence/memory.py:98-111 | an inner transaction that fails inside a handler leaves the run as if it had not been written: the outer writes stand or fall together |
| Persistence.Store.SaveAll | src/agentic_local_app/execution/plan_runner.py:873-877 | one batch in one transaction: all of its writes, or none, exactly when the disk refuses one |
| Journal.OneMoreWrite | src/agentic_local_app/lifecycle/conversation_lifecycle.py:147-199 | a permitted write extends a legal journal by at most one step of one table |
| Journal.PermittedIsAccounted | src/agentic_local_app/lifecycle/conversation_lifecycle.py:275-379 | the journal entry of a write accounts for its whole effect on the states |
| Journal.FinalStatesStay | src/agentic_local_app/domain/transitions.py:149-178 | terminal tasks, plans and cycles, and interrupted, failed or closed conversations, keep their state along any legal journal |
| States.NoWayOut | src/agentic_local_app/domain/transitions.py:142-176 | a task or a plan is over exactly when its table lists no way out of its state |
| Journal.JournalGrew | src/agentic_local_app/domain/transitions.py:213-225 | of two readings of one growing legal journal the later is reached from the earlier |
| Lifecycle.LifecycleManager.Save | src/agentic_local_app/lifecycle/conversation_lifecycle.py:275-298 | one permitted write, entered in the journal when it changes a state |
| Lifecycle.LifecycleManager.Attempt | src/agentic_local_app/lifecycle/conversation_lifecycle.py:275-298 | the same write, numbered: stored and entered in the journal, or nothing at all, exactly when the disk refuses it |
| RecoveryRun.RecoveryCoordinator.Recover | src/agentic_local_app/orchestration/recovery.py:247-277 | from any store the restart pass does to every record what the policy says and nothing else: a conversation that waits on an unanswered request or result, current in a running session and with no parent that rotates, keeps its record and its session stays running, every other active one is interrupted, and each open session goes where its conversation sends it and is listed so; by table-listed transitions only; exactly when the disk refuses a write it stops there, and is a cut of the pass |
| RecoveryEffect.RecoveredIsRestarted | src/agentic_local_app/orchestration/recovery.py:247-277 | what becomes of every task, plan, cycle, conversation and session, told in the fields of the records: which change, to what state, with which reason and counters |
| RecoveryEffect.ResumableWaits | src/agentic_local_app/orchestration/recovery.py:494-521 | a conversation counts as resumable if and only if some outbound request or result of it has no later message of it, it waits, its session runs and points to it, and its parent does not rotate |
| RecoveryEffect.OnlyWaitingIsLeft | src/agentic_local_app/orchestration/recovery.py:247-277 | afterwards every active conversation, and the one of every running session, still waits in that sense |
| RecoveryEffect.WaitingStays | src/agentic_local_app/orchestration/recovery.py:494-521 | one that waits keeps its record and its running session; every other active one is interrupted |
| Lifecycle.TallyCounts | src/agentic_local_app/orchestration/recovery.py:212-221 | the counters of an interrupted plan number its tasks in each state |
| RecoveryRun.RecoveryCoordinator.InterruptWaiting | src/agentic_local_app/orchestration/recovery.py:342-348 | the waiting tasks of open plans are interrupted, all of them, or those before the first refused write |
| RecoveryRun.RecoveryCoordinator.InterruptOpenPlans | src/agentic_local_app/orchestration/recovery.py:342-349 | then the open plans, with counters recomputed from the tasks, all of them or those before the first refused write |
| RecoveryRun.RecoveryCoordinator.SettleSession | src/agentic_local_app/orchestration/recovery.py:563-619 | one open session: resumed, failed, completed with its conversation finished, or made ready; a refused write leaves it as it was or between its two writes |
| Recovery.SafeToRestart | src/agentic_local_app/orchestration/recovery.py:247-277 | nothing is left running or half open: no running task, open plan or interrupting session; every active conversation is resumable and every running session points to a resumable one |
| Recovery.TerminalUntouched | src/agentic_local_app/orchestration/recovery.py:317-349 | terminal tasks, plans and cycles, and sessions that are not open, are never touched |
| Recovery.ResumableStays | src/agentic_local_app/orchestration/recovery.py:494-521 | a resumable conversation is left as it is and still is resumable |
| Recovery.PausedSessionLosesItsConversation | src/agentic_local_app/orchestration/recovery.py:494-509 | the waiting conversation of a PAUSED session is interrupted while its session stays PAUSED |
| Recovery.SecondRunChangesNothing | src/agentic_local_app/orchestration/recovery.py:247-277 | a second run changes no record |
| Recovery.RestartedPass | src/agentic_local_app/orchestration/recovery.py:247-277 | a pass cut short anywhere and run again ends in the same store as one that ran through, if and only if it was not cut short between the interruption of a rotating parent and that of the child waiting behind it |
| Recovery.EveryCutIsHarmless | src/agentic_local_app/orchestration/recovery.py:494-509 | every way of cutting the pass short is harmless if and only if no child waits, otherwise resumable, behind a rotating parent |
| Recovery.HoweverOften | src/agentic_local_app/orchestration/recovery.py:247-277 | and then the store left behind is again such a store: the pass may be cut short any number of times |
| Recovery.UnmaskedIsResumed | src/agentic_local_app/orchestration/recovery.py:494-509 | the child of a rotation whose parent alone was interrupted is resumed by the next pass, although the first would have interrupted it |
| InterruptionRun.InterruptionHandler.Begin | src/agentic_local_app/interruption/handler.py:202-276 | a caller that finds a run in flight joins it by its number, an unknown or idle session costs nothing, otherwise the session is INTERRUPTING and its token, and no other, is cancelled; if the disk refuses that write nothing happens at all |
| InterruptionRun.InterruptionHandler.Sweep | src/agentic_local_app/interruption/handler.py:362-382 | the sweep of whatever the store holds when the loop has drained: of the current conversation and a rotating parent the open plan, its tasks that are not over, the running cycle and the conversation end INTERRUPTED, and nothing else changes; a refused write breaks the run off |
| InterruptionRun.InterruptionHandler.SweepAll | src/agentic_local_app/interruption/handler.py:384-528 | open tasks, plan, cycle and conversation end INTERRUPTED, each only if still open, unless the disk refuses a write; no session moves |
| InterruptionRun.InterruptionHandler.BreakOff | src/agentic_local_app/interruption/handler.py:334-339 | after a refused write the session, and no other, is FAILED if its state allows it and the disk takes that write; whoever joined the run learns that it broke |
| InterruptionRun.InterruptionHandler.Finish | src/agentic_local_app/interruption/handler.py:282-289 | the session is READY under a fresh uncancelled token exactly when its state still allows it and the disk takes the write; the run is over either way and its outcome recorded |
| InterruptionRun.InterruptionHandler.Suspended | src/agentic_local_app/interruption/handler.py:342-359 | while a run is suspended any mix of writes, calls and other runs leaves it in place, its token the same and cancelled, the store moving along its tables; its session moves only if one of those writes is to it |
| InterruptionRun.InterruptionHandler.WaitFor | src/agentic_local_app/interruption/handler.py:221-223 | a caller that joined a run is given the outcome of that run once it has one, whatever happens meanwhile, and outcomes never change |
| InterruptionRun.InterruptionHandler.Carry | src/agentic_local_app/interruption/handler.py:275-314 | from the first suspension to the end, as for the whole procedure |
| InterruptionRun.InterruptionHandler.Interrupt | src/agentic_local_app/interruption/handler.py:202-314 | the whole procedure with interference at both suspensions: joining, unknown, idle and started calls are told apart; a caller that starts a run gets the session READY under a fresh token while the signalled one stays cancelled; NOT READY only if another component moved the session, BROKEN only if the disk refused a write; unless broken, the swept conversation and rotating parent stay INTERRUPTED, the plan and the cycle each was on stay over, and so do all tasks of a plan that was open |
| Interruption.SweepIsQuiet | src/agentic_local_app/interruption/handler.py:362-382 | after the sweep neither the conversation nor a parent whose rotation was in flight is active, and their plans and cycles are closed |
| InterruptionEffect.SweepEndsWhatIsInHand | src/agentic_local_app/interruption/handler.py:362-528 | the sweep told in the fields of the records: which plans, tasks, cycles and conversations it ends, with which reason and counters; nothing else changes |
| InterruptionEffect.SweptForGood | src/agentic_local_app/interruption/handler.py:250-314 | whatever legal writes follow, the conversations that were active stay INTERRUPTED and their plans, tasks and cycles stay over |
| InterruptionEffect.TasksOverExactly | src/agentic_local_app/interruption/handler.py:384-410 | the tasks of the current plan are all over after the sweep if and only if the plan was still open or they were over before: the sweep does not look into a plan that has ended |
| Interruption.SweptTasksTerminal | src/agentic_local_app/interruption/handler.py:384-410 | every task of the swept plan is terminal, those that were are untouched, and so are those of other plans |
| Interruption.RepeatedSweepWritesNothing | src/agentic_local_app/interruption/handler.py:362-382 | a repeated sweep changes nothing |
| Interruption.SweptWorkStaysClosed | src/agentic_local_app/interruption/handler.py:250-314 | whatever legal writes follow the sweep, the plan and the cycle stay closed |
| Interruption.InterruptedForGood | src/agentic_local_app/interruption/handler.py:250-314 | and a conversation that was active, or the rotating parent, stays INTERRUPTED |
| RotationRun.RotationCoordinator.Rotate | src/agentic_local_app/context/rotation.py:215-350 | a rotation is refused for its limit exactly from maxRotations rotations on, below it for its budget exactly when no cycle is left, otherwise exactly when the source is not in WAITING_MODEL_RESPONSE, RUNNING_PLAN or WAITING_USER; one that passes ends at the stage that the answers of its collaborators and the failing steps determine, the store is exactly what belongs to that stage, by table-listed transitions only; a refusal changes nothing |
| RotationRun.RotationCoordinator.Ask | src/agentic_local_app/context/rotation.py:420-504 | the resume cycle opens, the child waits, the request is posted, up to the first step that fails |
| RotationRun.RotationCoordinator.Hear | src/agentic_local_app/context/rotation.py:506-657 | an accepted acknowledgement, or a rejected reply that fails the cycle |
| RotationRun.RotationCoordinator.Conclude | src/agentic_local_app/context/rotation.py:293-303 | child healthy, parent closed, cycle completed, in this order, up to the first step that fails |
| Rotation.NothingInTheWay | src/agentic_local_app/context/rotation.py:215-350 | with good answers and no failing step the pending message is posted again, from whatever stage on |
| Rotation.StatesAt | src/agentic_local_app/context/rotation.py:215-350 | the states of parent, child and resume cycle at every stage |
| Rotation.MessagesSay | src/agentic_local_app/context/rotation.py:420-657 | the messages the child has at every stage, and their fields: the request and whether it is posted, the accepted or rejected reply, the copy that names its original |
| Rotation.CountersFollowTheCycle | src/agentic_local_app/context/rotation.py:353-462 | the rotation and cycle counters rose by exactly one if and only if the resume cycle exists, and stay within their limits |
| Rotation.ChildCountsTheWire | src/agentic_local_app/context/rotation.py:464-657 | the byte count of the child is its instructions plus exactly the messages confirmed or received; the session points to it |
| Rotation.HealthyWhenClosed | src/agentic_local_app/context/rotation.py:293-302 | in the end the child is HEALTHY if and only if the parent is CLOSED, unless the acknowledgement came and the first step that fails is the write that closes the parent |
| Rotation.EndsHealthy | src/agentic_local_app/context/rotation.py:293-302 | that is exactly how a rotation ends with a healthy child behind a parent that rotates |
| Rotation.HealthyBesideRotating | src/agentic_local_app/context/rotation.py:293-302 | an instance: everything is answered well and only that write is refused |
| Rotation.OpenResume | src/agentic_local_app/context/rotation.py:420-462 | counters, cycle, request and pointer of the child change together |
| Rotation.RejectAck | src/agentic_local_app/context/rotation.py:568-657 | a rejected reply is stored, counted and closes the cycle as FAILED |
| Rotation.ReplacedMessageBytes | src/agentic_local_app/persistence/memory.py:242-245 | replacing a message moves the byte count of its conversation by the difference |
| Rotation.ForeignUpsert | src/agentic_local_app/persistence/memory.py:242-245 | writing a message of one conversation leaves those of the others as they were, in order |
| RotationRestart.ChildNotMasked | src/agentic_local_app/context/rotation.py:282-326 | wherever a rotation stopped, its child does not wait on a request of the user or a result behind a rotating parent: until the parent is CLOSED its messages are the resume request and the reply |
| RotationRestart.NobodyMasked | src/agentic_local_app/context/rotation.py:215-350 | nor does any other conversation that did not before |
| RotationRestart.RestartAfterRotation | src/agentic_local_app/orchestration/recovery.py:247-277 | a restart after a rotation cut short anywhere may itself be cut short anywhere, any number of times, and ends in the same store |
| RotationRestart.MaskedStoreDiffers | src/agentic_local_app/orchestration/recovery.py:494-509 | a concrete store that no rotation leaves, for which a cut restart does differ |
| AuditTrail.AuditLog.Handle | src/agentic_local_app/observability/audit_log.py:143-184 | an audited event extends the chain of its session and no other; it is refused exactly when the write fails or its identifier is taken, and then its place is taken by the next one; its sequence, the hash before it, 64 zeros at the start, and its own hash are stated |
| AuditTrail.AuditStore.Append | src/agentic_local_app/persistence/memory.py:335-348 | append only: a used sequence, a used identifier or a gap is refused and nothing changes |
| AuditTrail.AuditLog.Verify | src/agentic_local_app/observability/audit_log.py:201-239 | for every list of events and every page size of at least 1 the paged walk gives the verdict of one walk over what its pages show: the number of intact events and the first break with its reason |
| AuditTrail.AnyHistory | src/agentic_local_app/observability/audit_log.py:143-239 | after any mix of events, refused writes and restarts every chain verifies, with all its events checked |
| AuditPages.RowsAfterPage | src/agentic_local_app/persistence/memory.py:354-363 | after a full page whose events were numbered on, the rows left are those behind it with a later sequence |
| AuditPages.OneInside | src/agentic_local_app/persistence/memory.py:354-363 | an event behind well numbered ones is shown in its place, or, when its sequence is not past the full pages before it, passed over as if it were not there |
| AuditPages.PagesAsOneWalk | src/agentic_local_app/observability/audit_log.py:201-239 | on every list the walk by pages answers as one walk over the whole list, if and only if that one finds nothing or breaks at an event whose sequence is past the full pages before it |
| AuditChain.OnlyOneAnswer | src/agentic_local_app/observability/audit_log.py:242-251 | the verdict on a chain is unique, and valid exactly for an intact chain |
| AuditChain.SharedHashSharesThePast | src/agentic_local_app/observability/audit_log.py:71-120 | two intact chains that hold the same hash hold it at the same place and agree up to there |
| AuditChain.SameTipSameChain | src/agentic_local_app/observability/audit_log.py:71-120 | two intact chains ending in the same hash are equal event by event |
| AuditPages.TamperedPast | src/agentic_local_app/observability/audit_log.py:201-251 | whatever was done to the past of an event still there, one walk stops at that event at the latest and not before the first departure, and the walk by pages reports the same, if and only if the event it stops at is not too old for its page |
| AuditPages.ShownPastIsChecked | src/agentic_local_app/observability/audit_log.py:201-251 | an event of the chain that is shown passes if and only if everything shown before it is its past |
| AuditPages.Altered | src/agentic_local_app/observability/audit_log.py:201-251 | read by pages, an altered event goes unnoticed exactly when it is the last and its hash was recomputed or its sequence is too old for its page; otherwise the walk stops on it, or on the next one when its hash fits |
| AuditPages.Removed | src/agentic_local_app/observability/audit_log.py:201-251 | read by pages of any size, a removed event is reported as a gap at its successor, unless it was the last |
| AuditPages.Inserted | src/agentic_local_app/observability/audit_log.py:201-251 | read by pages, an inserted event goes unnoticed exactly when its sequence is too old for its page, or its hash fits and it is put behind the last event, or ends a page and hides its own double or the last event; otherwise it is reported on itself or on the one it displaced |
| AuditPages.CopyUnnoticed | src/agentic_local_app/observability/audit_log.py:201-239 | an instance: a copy of the first event behind a full page, and the chain verifies in full |
| AuditPages.DoubleUnnoticed | src/agentic_local_app/observability/audit_log.py:201-239 | another: a double of the only event, read by pages of one, is taken for it |
| SseBroker.Broker.Subscribe | src/agentic_local_app/interfaces/sse.py:314-358 | whatever is published, registered, read or closed meanwhile, every frame delivered is of the session, task and types asked for, and the audited ones are exactly the events asked for after the position asked for, up to some number, each once, in order, without a gap; a consumer that stops has all the frames it came for or nothing left in its queue, and then, the broker being open, everything up to the last event; a client is dropped only if more accepted frames than a queue holds were published while it was suspended, closed out only if the broker was closed then, and has everything offered before |
| SseBroker.Broker.Replay | src/agentic_local_app/interfaces/sse.py:379-393 | the replay covers every accepted event up to a number not before the registration |
| SseBroker.Broker.GoLive | src/agentic_local_app/interfaces/sse.py:342-356 | the live phase continues exactly where the replay stopped, until the consumer has its frames, has nothing left to take, or takes a signal |
| SseBroker.Broker.Publish | src/agentic_local_app/interfaces/sse.py:204-236 | the audit log first, whose refusal, exactly for a failing write or a used identifier, stops the publication; the chain of the session, and no other, grew by this event, which is offered under its sequence to every registered client, which takes it, filters it out or is dropped |
| SseBroker.AuditedReachesAll | src/agentic_local_app/interfaces/sse.py:204-299 | after an audited event every client is in step: nothing is missing from its queue as long as it is registered |
| SseStream.SelectionIsExact | src/agentic_local_app/interfaces/sse.py:379-393 | the events owed to a resumed stream: exactly the accepted ones after the position, each once, increasing |
| SseStream.DeliveredIsWanted | src/agentic_local_app/interfaces/sse.py:141-163 | the frames of a stream hold nothing of another session, task or type than asked for, and every event asked for in their stretch, once and in order |
| SseStream.LiveStep | src/agentic_local_app/interfaces/sse.py:342-356 | a live frame is skipped exactly when the replay delivered it |
| SseStream.ReconnectionCompletes | src/agentic_local_app/interfaces/sse.py:314-358 | a stream resumed from the number of the last frame received, of whatever kind, completes the first one without loss or repetition |
| SseStream.NothingAfterTheLast | src/agentic_local_app/interfaces/sse.py:337-341 | past the number of the last audited frame received nothing was left out |
| SseStream.EventIsQueued | src/agentic_local_app/interfaces/sse.py:287-293 | a queued event keeps the queue an exact stretch of the chain |
| EventId.PrintThenParse | src/agentic_local_app/interfaces/sse.py:116-123 | the identifier the broker prints is read back as the same position |
| EventId.ParseExactly | src/agentic_local_app/interfaces/sse.py:116-123 | an identifier is read if and only if it spells a number, or two with a dot between them, in white space or not, and as those numbers |
| PayloadGuard.TruncationIsFair | src/agentic_local_app/execution/payload_guard.py:95-124 | the whole budget is used and no more, each stream keeps its half share, what is kept is the end of the stream at the range reported, standard error loses bytes only when standard output is down to its share |
| PayloadGuard.ChunkIsExact | src/agentic_local_app/execution/payload_guard.py:200-235 | a chunk is served exactly for a stored stream, an offset inside it and positive sizes, and is the stretch it reports |
| PayloadGuard.ReadStream | src/agentic_local_app/execution/payload_guard.py:200-235 | chunk after chunk of any positive sizes reassemble the stored stream, and the reading ends |
| PayloadFit.FitMessage | src/agentic_local_app/execution/payload_guard.py:137-166 | on every input: the message fits or all outputs are empty, or the next round changes nothing at all; the latter takes an output that halving never empties, and with such an output only a message that fits ends the loop; it always ends when each output is ASCII or ends in three ASCII characters; standard errors change only once all standard outputs are empty; the run is a chain of rounds, each made on a message that was too big and halving the longest output whose turn it is |
| PayloadFit.Longest | src/agentic_local_app/execution/payload_guard.py:169-176 | the longest output of a stream, the first on ties |
| PayloadFit.HalveLeaves | src/agentic_local_app/execution/payload_guard.py:179-197 | a result that was cut says so, and on ASCII its text is the end of the original at the range it reports |
| PayloadFit.RangeIsExact | src/agentic_local_app/execution/payload_guard.py:179-197 | an output that came with the range of its text in the stream still is the stream at its range |
| PayloadFit.TotalDrops | src/agentic_local_app/execution/payload_guard.py:152-163 | every round that changes anything makes progress |
| PayloadFit.RoundKeepsDraining | src/agentic_local_app/execution/payload_guard.py:137-166 | no round changes whether all outputs can be emptied, so whether the loop ends under a budget it cannot meet is decided by the outputs it was given |
| PayloadFit.EndsTell | src/agentic_local_app/execution/payload_guard.py:137-190 | outputs that are ASCII or end in three ASCII characters can all be emptied, and with one that ends in anything but ASCII they cannot |
| MessageFit.AsciiDrains | src/agentic_local_app/execution/payload_guard.py:179-197 | repeated halving empties every ASCII text |
| MessageFit.AsciiEndDrains | src/agentic_local_app/execution/payload_guard.py:179-190 | repeated halving empties every text whose last three characters are ASCII |
| MessageFit.EndDecides | src/agentic_local_app/execution/payload_guard.py:179-190 | repeated halving never empties a text whose last character is not ASCII |
| MessageFit.OneAsciiBehind | src/agentic_local_app/execution/payload_guard.py:179-190 | a character that is not ASCII followed by one that is: repeated halving empties it if and only if the first takes two bytes |
| MessageFit.TwoAsciiBehind | src/agentic_local_app/execution/payload_guard.py:179-190 | two ASCII characters behind two of three bytes are never emptied |
| MessageFit.HalvingShortens | src/agentic_local_app/execution/payload_guard.py:179-190 | halving shortens a text if and only if the stray continuation bytes it leaves do not make up for the half removed |
| MessageFit.KeptIsDecoded | src/agentic_local_app/execution/payload_guard.py:179-190 | what is kept of a text are its last bytes in UTF-8, decoded with replacement characters |
| MessageFit.HalvingSettles | src/agentic_local_app/execution/payload_guard.py:179-190 | halving makes progress or leaves the text as it is, and it leaves exactly the texts characterised by `Stuck` |
| MessageFit.TwoBytesNeverVanish | src/agentic_local_app/execution/payload_guard.py:179-190 | one two-byte character becomes U+FFFD, longer than what it came from, and stays it for ever |
| ContextReducer.Compose | src/agentic_local_app/context/reducer.py:152-178 | the fewest reduction steps that fit, or a refusal after all three, exactly when none fits; the size it reports is the number of bytes of the text, whatever the order of the fields |
| CanonicalJson.SizeIsLength | src/agentic_local_app/domain/canonical.py:30-43 | the size of a value is the number of bytes of its text in UTF-8, escapes included |
| CanonicalJson.RearrangedLength | src/agentic_local_app/domain/canonical.py:30-43 | listing the fields of objects in another order, at any depth, leaves the size as it is |
| ContextReducer.RefusedWhenNothingFits | src/agentic_local_app/context/reducer.py:152-178 | that is, exactly when the payload after the third step is too big |
| ContextReducer.ReductionsNeverGrow | src/agentic_local_app/context/reducer.py:97-132 | no step makes the canonical size larger |
| ContextReducer.OpenPlansAndLastTerminal | src/agentic_local_app/context/reducer.py:111-119 | the second step keeps the open plans and the last terminal one, in their order |
| ContextReducer.NothingElseChanges | src/agentic_local_app/context/reducer.py:97-132 | goal, message, state sections, budget and request never change |
| CommandScan.ScanLine | src/agentic_local_app/domain/dialects.py:264-341 | the loop over the characters computes the scan |
| CommandScan.ScansExactly | src/agentic_local_app/domain/dialects.py:264-341 | a line scans exactly when its quotes are closed, nothing outside them is a character that ends the attempt, and something is left; its tokens one after the other are the line without white space and semicolons outside quotes |
| CommandScan.ScanPrintScan | src/agentic_local_app/domain/dialects.py:264-341 | scan, print, scan is the identity on the segments of every line that scans |
| CommandScan.PrintThenScan | src/agentic_local_app/domain/dialects.py:853-878 | clean segments printed with spaces and separators scan to themselves |
| DialectRules.ReadPosixListing | src/agentic_local_app/domain/dialects.py:363-380 | `ls` is refused exactly when some option has a letter other than a, A and l, or none; hidden files are shown exactly when some option says so, and the paths are the other tokens in order |
| DialectRules.ReadLinesAndFile | src/agentic_local_app/domain/dialects.py:391-412 | the arguments of `head` and `tail` are accepted exactly when they are spelled from counts and one file name; the last count wins, and ten stands for none |
| DialectRules.ReadContent | src/agentic_local_app/domain/dialects.py:471-489 | the arguments of `Get-Content` are accepted exactly when they are spelled from one file name and at most one limit with its number |
| DialectRules.ReadPowerShellListing | src/agentic_local_app/domain/dialects.py:450-461 | `Get-ChildItem` is refused exactly when some parameter is not `-Force`, hidden files are shown exactly when it is given, and the paths are the other tokens in order |
| ShellTranslation.TranslateLine | src/agentic_local_app/domain/dialects.py:853-911 | a line is left alone exactly when it does not open with a known program or an assignment; it is rewritten exactly when it can be read and every command has a counterpart, into those counterparts in order |
| ShellTranslation.AllOrNothing | src/agentic_local_app/domain/dialects.py:853-911 | a line that is rewritten scans, in its new form, to the counterpart of each of its commands in order, each headed by a fixed reading command |
| ShellMeaning.MeansExactly | src/agentic_local_app/domain/dialects.py:345-522 | what each rule writes, and when it writes nothing: for `head` and `tail` the file and the decimal of the last count or ten, for `ls` the hidden flag and the path, for the others the fixed word and the operand, and the same the other way round |
| ShellMeaning.NamesOne | src/agentic_local_app/domain/shell.py:155-165 | a word names one program: what is left without white space, quotes, directory, case and executable suffix |
| ShellTranslation.RecognisesExactly | src/agentic_local_app/domain/dialects.py:880-890 | which lines are the business of the translator, told by the first word of the line |
| ShellRoundTrip.ReversibleCommands | src/agentic_local_app/domain/dialects.py:363-522 | a translated command comes back to its first PowerShell form if and only if it is not a `which`, its operand is not a lone dash, and it lists the environment drive only as `ls Env:` |
| ShellRoundTrip.RoundTrip | src/agentic_local_app/domain/dialects.py:853-911 | a line comes back to its first PowerShell form if and only if all of its commands do |

## Left out

- Processes, signals, pipes and shells: the executor is a source of outcomes.
- HTTP routes, the command line, rendering, byte encoding of frames, heartbeats, providers and codecs.
- Timestamps, durations and ports of processes in the records; the deadline is a flag that may become true.
- Failure records, retry decisions and the running output of tasks in the scheduler.
- The dialect decision taken at launch and its audit payload: the dictionary is modelled on its own.
- The cut of the result message inside the scheduler: `FitMessage` is modelled on its own, with any size function.
- PlanRunner.PlanExecution.constructor: takes the task records already sorted by declaration order.
- PlanRunner.PlanExecution.Run: after a refused write memory, store and trail are in step; what the caller does with the exception is not modelled.
- Recovery.SecondRunChangesNothing: the events of the pass and the actions its report lists, the termination of orphan processes and the order in which records of one kind are visited are not modelled.
- InterruptionRun.InterruptionHandler.Interrupt: of the report only the outcome is modelled, and the reason is the one of a user interruption; the remote close changes no record.
- RotationRun.RotationCoordinator.Rotate: the writes of one transaction are one step, which fails as a whole; message identifiers are new to the whole store, nobody else writes the session and its conversations meanwhile, the summary record and the remote close of the parent are not stored facts; the type of a rejected reply is an input.
- ResultCollector.Build: of an entry the kept outputs, the dialect decision and the reason derived from an exit code of the shell are not modelled.
- Extra context fields of conversations: cursors, last message identifiers, protocol error counts.
- AuditTrail.AuditLog.Handle: the store is never reset, and the serialisation behind the hash is not modelled.
- SseBroker.Broker.Subscribe: streams of one session only, frames offered on the loop of the client, no publication from inside a subscriber; frames of live output are delivered as they come and never replayed, as in the program.
- EventId.PrintThenParse: ASCII digits and white space.
- PayloadGuard.ChunkIsExact: the lookup of the blob of a task is an input.
- ContextReducer.Compose: the assembly of the first payload from the store is an input; a JSON number is given as it is written.
- ShellTranslation.TranslateLine: ASCII lines without `$`; the rewriting of variables, the wording of refusals, the list of rules fired and the switch that disables the translator are not modelled.
- SQLite, configuration, credentials, skills and scratch folders, telemetry counters, context thresholds and chat views.

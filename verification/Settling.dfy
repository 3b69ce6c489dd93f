/**
 How one step of the scheduler changes the task records, and what each step keeps.  Everything here
 is about values; the runner's methods tie its fields to these functions.
 */
module Settling {
  import opened Options
  import opened States
  import opened Records
  import opened DependencyGraph
  import opened Schedule
  import opened Trail

  // ---- how a task ends ---------------------------------------------------------------------------------

  /** What a worker coroutine returns: the executor's observation, a served or refused chunk, the
      error code of an executor defect, or nothing for a forced termination. */
  datatype Ended =
    | Raw(stdout: seq<bv8>, stderr: seq<bv8>, cancelled: bool, timedOut: bool, spawnError: bool,
          exitCode: Option<int>, recognised: bool)
    | ChunkServed
    | ChunkRefused(code: string)
    | Defect(code: string)
    | Forced

  /** What the worker of a task comes back with, and the names its two streams are stored under. */
  datatype WorkerEnd = WorkerEnd(ended: Ended, stdoutId: string, stderrId: string)

  /** Priority: cancelled, then timed out, then the exit code. */
  function RawOutcome(e: Ended): TaskState
    requires e.Raw?
  {
    if e.cancelled then CANCELLED
    else if e.timedOut then TIMED_OUT
    else if !e.spawnError && e.exitCode == Some(0) then COMPLETED
    else FAILED
  }

  function CancelledState(interrupting: bool, stop: Option<StopReason>): (TaskState, Option<Reason>) {
    if interrupting then (INTERRUPTED, Some(UserInterrupt)) else (CANCELLED, Some(PlanStopped(stop)))
  }

  function EndState(e: Ended, interrupting: bool, stop: Option<StopReason>): (TaskState, Option<Reason>) {
    match e
    case ChunkServed => (COMPLETED, None)
    case ChunkRefused(code) => (FAILED, Some(ErrorCode(code)))
    case Raw(_, _, _, _, spawnError, _, _) =>
      var outcome := RawOutcome(e);
      if outcome.CANCELLED? then CancelledState(interrupting, stop)
      else if outcome.FAILED? && spawnError then (FAILED, Some(SpawnFailed))
      else (outcome, None)
    case Defect(code) => (FAILED, Some(ErrorCode(code)))
    case Forced => CancelledState(interrupting, stop)
  }

  function EndChange(t: string, e: Ended, interrupting: bool, stop: Option<StopReason>): Change {
    var (to, reason) := EndState(e, interrupting, stop);
    Change(t, to, reason, if e.Raw? then Some(Exit(e.exitCode, e.timedOut, e.recognised)) else None)
  }

  /** One blob per stream of a command, even empty, never truncated. */
  function BlobsOf(t: TaskRecord, w: WorkerEnd): seq<BlobRecord> {
    var e := w.ended;
    if e.Raw? then
      [BlobRecord(w.stdoutId, t.decl.sessionId, t.decl.taskId, Stdout, e.stdout, |e.stdout|),
       BlobRecord(w.stderrId, t.decl.sessionId, t.decl.taskId, Stderr, e.stderr, |e.stderr|)]
    else []
  }

  /** What the record of a task says once its worker came back: the runner's own signal wins, then the
      timeout, then the exit code; a chunk that was served counts as a success, and everything else failed. */
  ghost predicate Recorded(e: Ended, before: TaskRecord, now: TaskRecord, interrupting: bool,
                           stop: Option<StopReason>) {
    var signalled := e.Forced? || (e.Raw? && e.cancelled);
    var late := e.Raw? && !e.cancelled && e.timedOut;
    var success := || e.ChunkServed?
                   || (e.Raw? && !e.cancelled && !e.timedOut && !e.spawnError && e.exitCode == Some(0));
    && now.decl == before.decl
    && (now.status == COMPLETED <==> success)
    && (now.status == TIMED_OUT <==> late)
    && (now.status == INTERRUPTED <==> signalled && interrupting)
    && (now.status == CANCELLED <==> signalled && !interrupting)
    && (now.status == FAILED <==> !success && !late && !signalled)
    && (signalled ==> now.reason == Some(if interrupting then UserInterrupt else PlanStopped(stop)))
    && (e.ChunkRefused? || e.Defect? ==> now.reason == Some(ErrorCode(e.code)))
    && (e.Raw? && now.status == FAILED && e.spawnError ==> now.reason == Some(SpawnFailed))
    && (success || late || (e.Raw? && now.status == FAILED && !e.spawnError) ==> now.reason == before.reason)
    && (if e.Raw?
        then now.exitCode == e.exitCode && now.timedOut == e.timedOut && now.recognised == e.recognised
        else now.exitCode == before.exitCode && now.timedOut == before.timedOut && now.recognised == before.recognised)
  }

  lemma EndIsRecorded(before: TaskRecord, t: string, e: Ended, interrupting: bool, stop: Option<StopReason>)
    ensures Recorded(e, before, Changed(before, EndChange(t, e, interrupting, stop)), interrupting, stop)
  {
  }

  /** A recognised program that ran and answered with a non-zero exit code. */
  predicate FailureIsVerdict(t: TaskRecord) {
    && t.status.FAILED? && t.decl.isCommand
    && !t.timedOut && t.exitCode.Some? && t.exitCode.value != 0 && t.recognised
  }

  /** What the end of this task does to the plan. */
  function StopCondition(t: TaskRecord): Option<(PlanState, StopReason)> {
    var d := t.decl;
    if t.status.COMPLETED? && d.stopPlanOnSuccess then
      Some((ShortCircuitedOnSuccess, StopPlanOnSuccess(d.taskId)))
    else if TaskFailure(t.status) && d.stopsPlanOnFailure then
      if FailureIsVerdict(t) && !(d.critical || d.stopPlanOnFailure) then None
      else
        Some((StoppedOnFailure,
              if d.critical then CriticalTaskFailed(d.taskId)
              else if d.stopPlanOnFailure then StopPlanOnFailure(d.taskId)
              else PlainTaskFailed(d.taskId)))
    else None
  }

  /** This task, having ended, stops the plan: it completed and was declared to end the plan by that, or it
      failed or timed out, was declared to end the plan by that, and, unless it is critical or says so
      itself, did not merely answer with a non-zero exit code of a recognised program. */
  ghost predicate Stops(t: TaskRecord, target: PlanState, reason: StopReason) {
    var d := t.decl;
    var answered := && t.status == FAILED && d.isCommand && t.recognised && !t.timedOut
                    && t.exitCode.Some? && t.exitCode != Some(0);
    || (&& t.status == COMPLETED && d.stopPlanOnSuccess
        && target == ShortCircuitedOnSuccess && reason == StopPlanOnSuccess(d.taskId))
    || (&& (t.status == FAILED || t.status == TIMED_OUT) && d.stopsPlanOnFailure
        && (d.critical || d.stopPlanOnFailure || !answered)
        && target == StoppedOnFailure
        && (d.critical ==> reason == CriticalTaskFailed(d.taskId))
        && (!d.critical && d.stopPlanOnFailure ==> reason == StopPlanOnFailure(d.taskId))
        && (!d.critical && !d.stopPlanOnFailure ==> reason == PlainTaskFailed(d.taskId)))
  }

  lemma StopsExactly(t: TaskRecord, target: PlanState, reason: StopReason)
    ensures StopCondition(t) == Some((target, reason)) <==> Stops(t, target, reason)
  {
  }

  ghost predicate Unstopped(tasks: Tasks) {
    forall t, target, reason | t in tasks :: !Stops(tasks[t], target, reason)
  }

  // ---- batches as functions of the records --------------------------------------------------------------

  function Started(tasks: Tasks, policy: ExecutionPolicy): Tasks {
    map t | t in tasks ::
      if policy.Parallel? && tasks[t].decl.dependsOn != [] then tasks[t].(status := WAITING_DEPENDENCY) else tasks[t]
  }

  function Released(tasks: Tasks): Tasks {
    map t | t in tasks ::
      if tasks[t].status.WAITING_DEPENDENCY?
        && DependenciesCompleted(tasks, t) then tasks[t].(status := PENDING) else tasks[t]
  }

  function Remaining(tasks: Tasks, to: TaskState, reason: Reason): Tasks {
    map t | t in tasks ::
      if Schedulable(tasks[t].status) then tasks[t].(status := to, reason := Some(reason)) else tasks[t]
  }

  /** Schedulable tasks were skipped, each for a direct dependency, until nobody is left to skip. */
  ghost predicate SkippedClosure(before: Tasks, after: Tasks) {
    && SameDeclarations(before, after)
    && (forall t | t in before && after[t] != before[t] ::
          && Schedulable(before[t].status)
          && after[t].status.SKIPPED?
          && after[t] == before[t].(status := SKIPPED, reason := after[t].reason)
          && RightlySkipped(after, t))
    && NobodyDoomed(after)
  }

  /** A batch that mentions exactly the tasks that differ is the whole difference. */
  lemma BatchIs(tasks: Tasks, changes: seq<Change>, target: Tasks)
    requires Legal(tasks, changes) && target.Keys == tasks.Keys
    requires forall i | 0 <= i < |changes| :: target[changes[i].taskId] == Changed(tasks[changes[i].taskId], changes[i])
    requires forall t | t in tasks :: Mentions(changes, t) || target[t] == tasks[t]
    ensures AllChanged(tasks, changes) == target
  {
    var after := AllChanged(tasks, changes);
    forall t | t in tasks ensures after[t] == target[t] {
      if Mentions(changes, t) {
        var i :| 0 <= i < |changes| && changes[i].taskId == t;
        AllChangedAt(tasks, changes, i);
      } else {
        UnmentionedUnchanged(tasks, changes, t);
      }
    }
  }

  lemma SingleChange(tasks: Tasks, c: Change)
    requires c.taskId in tasks
    ensures AllChanged(tasks, [c]) == tasks[c.taskId := Changed(tasks[c.taskId], c)]
  {
    assert [c][..0] == [];
    assert AllChanged(tasks, []) == tasks;
  }

  // ---- who occupies what --------------------------------------------------------------------------------

  function Open(tasks: Tasks): set<string> {
    set t | t in tasks && !TaskTerminal(tasks[t].status)
  }

  function Running(tasks: Tasks): set<string> {
    set t | t in tasks && tasks[t].status.RUNNING?
  }

  predicate Holder(tasks: Tasks, t: string, lock: string) {
    t in tasks && tasks[t].status.RUNNING? && tasks[t].decl.resourceLock == Some(lock)
  }

  /** The workers and the locks: exactly the running tasks hold them, never two the same lock. */
  ghost predicate Occupancy(tasks: Tasks, running: set<string>, held: set<string>, workers: nat) {
    && running == Running(tasks)
    && |running| <= workers
    && (forall t, u, l | Holder(tasks, t, l) && Holder(tasks, u, l) :: t == u)
    && (forall t, l | Holder(tasks, t, l) :: l in held)
    && (forall l | l in held :: exists t :: Holder(tasks, t, l))
  }

  // ---- the launch history ---------------------------------------------------------------------------------

  /** `launched` lists, in launch order, the declaration positions of the tasks handed to a worker. */
  ghost predicate History(order: seq<string>, tasks: Tasks, policy: ExecutionPolicy, launched: seq<nat>)
    requires forall t | t in order :: t in tasks
  {
    && Distinct(launched)
    && (forall i | 0 <= i < |launched| ::
          launched[i] < |order| && !Schedulable(tasks[order[launched[i]]].status)
          && DependenciesCompleted(tasks, order[launched[i]]))
    && (forall k | 0 <= k < |order| && Ran(tasks[order[k]].status) :: k in launched)
    && (policy.Sequential? ==>
          && (forall i, j | 0 <= i < j < |launched| :: launched[i] < launched[j])
          && (forall i, k | 0 <= i < |launched| && 0 <= k <= launched[i] < |order| ::
               !Schedulable(tasks[order[k]].status)))
  }

  // ---- what a launch keeps ------------------------------------------------------------------------------

  lemma LaunchKeepsNormal(tasks: Tasks, t: string, policy: ExecutionPolicy)
    requires Normal(tasks, policy)
    requires t in tasks && tasks[t].status.PENDING? && DependenciesCompleted(tasks, t)
    ensures Normal(tasks[t := tasks[t].(status := RUNNING)], policy)
  {
    var after := tasks[t := tasks[t].(status := RUNNING)];
    SameCompleted(tasks, after);
    forall s | s in after && after[s].status.SKIPPED? ensures RightlySkipped(after, s) {
      var d :| SkippedFor(tasks, s, d);
      assert SkippedFor(after, s, d);
    }
    forall u, d | u in after && Schedulable(after[u].status) ensures !Blame(after, u, d) {
      assert !Blame(tasks, u, d);
    }
  }

  /** Nobody completes or leaves `COMPLETED` between the two. */
  ghost predicate CompletedUnchanged(before: Tasks, after: Tasks) {
    forall t | t in before && t in after :: after[t].status.COMPLETED? <==> before[t].status.COMPLETED?
  }

  lemma SameCompleted(before: Tasks, after: Tasks)
    requires SameDeclarations(before, after) && CompletedUnchanged(before, after)
    ensures forall t | t in before :: DependenciesCompleted(after, t) == DependenciesCompleted(before, t)
  {
  }

  lemma LaunchKeepsOccupancy(tasks: Tasks, running: set<string>, held: set<string>, workers: nat, t: string)
    requires Occupancy(tasks, running, held, workers) && |running| < workers
    requires t in tasks && tasks[t].status.PENDING?
    requires tasks[t].decl.resourceLock.Some? ==> tasks[t].decl.resourceLock.value !in held
    ensures var lock := tasks[t].decl.resourceLock;
            Occupancy(tasks[t := tasks[t].(status := RUNNING)], running + {t},
                      if lock.Some? then held + {lock.value} else held, workers)
  {
    var after := tasks[t := tasks[t].(status := RUNNING)];
    var lock := tasks[t].decl.resourceLock;
    var now := if lock.Some? then held + {lock.value} else held;
    assert forall u, l :: Holder(after, u, l) <==> Holder(tasks, u, l) || (u == t && lock == Some(l));
    forall l | l in now ensures exists u :: Holder(after, u, l) {
      if l in held {
        var u :| Holder(tasks, u, l);
        assert Holder(after, u, l);
      } else {
        assert Holder(after, t, l);
      }
    }
    assert running + {t} == Running(after);
  }

  lemma LaunchKeepsHistory(order: seq<string>, tasks: Tasks, policy: ExecutionPolicy, launched: seq<nat>, k: nat)
    requires Declared(order, tasks) && History(order, tasks, policy, launched)
    requires LaunchablePosition(order, tasks, policy.Sequential?, k)
    ensures var t := order[k];
            History(order, tasks[t := tasks[t].(status := RUNNING)], policy, launched + [k])
  {
    var t := order[k];
    var after := tasks[t := tasks[t].(status := RUNNING)];
    SameCompleted(tasks, after);
    var now := launched + [k];
    assert now[|launched|] == k;
    forall j | 0 <= j < |order| && Ran(after[order[j]].status) ensures j in now {
      if j != k {
        assert order[j] != t;
        assert j in launched;
      }
    }
    forall i | 0 <= i < |now|
      ensures now[i] < |order| && !Schedulable(after[order[now[i]]].status)
              && DependenciesCompleted(after, order[now[i]])
    {
      if i < |launched| { assert now[i] == launched[i]; }
    }
    if policy.Sequential? {
      LaunchKeepsSequence(order, tasks, after, launched, k);
    }
  }

  /** In a sequential plan everything before a launchable task is terminal, so the last launch, like
      everything it overtook, stands before it. */
  lemma LaunchKeepsSequence(order: seq<string>, tasks: Tasks, after: Tasks, launched: seq<nat>, k: nat)
    requires Declared(order, tasks) && History(order, tasks, Sequential, launched)
    requires LaunchablePosition(order, tasks, true, k)
    requires after == tasks[order[k] := tasks[order[k]].(status := RUNNING)]
    ensures var now := launched + [k];
            && (forall i, j | 0 <= i < j < |now| :: now[i] < now[j])
            && (forall i, m | 0 <= i < |now| && 0 <= m <= now[i] < |order| :: !Schedulable(after[order[m]].status))
  {
    var now := launched + [k];
    forall i | 0 <= i < |launched| ensures launched[i] < k {
      assert k <= launched[i] ==> !Schedulable(tasks[order[k]].status);
    }
    forall i, m | 0 <= i < |now| && 0 <= m <= now[i] < |order| ensures !Schedulable(after[order[m]].status) {
      if m < k { assert TaskTerminal(tasks[order[m]].status); }
    }
  }

  // ---- what the end of a task keeps ------------------------------------------------------------------------

  ghost predicate EndsAs(before: Tasks, after: Tasks, t: string) {
    && t in before && before[t].status.RUNNING? && t in after
    && after == before[t := after[t]] && after[t].decl == before[t].decl
    && TaskTerminal(after[t].status) && !after[t].status.SKIPPED?
  }

  lemma EndKeepsOccupancy(before: Tasks, after: Tasks, running: set<string>, held: set<string>, workers: nat, t: string)
    requires Occupancy(before, running, held, workers) && EndsAs(before, after, t)
    ensures var lock := before[t].decl.resourceLock;
            Occupancy(after, running - {t}, if lock.Some? then held - {lock.value} else held, workers)
  {
    var lock := before[t].decl.resourceLock;
    var now := if lock.Some? then held - {lock.value} else held;
    assert forall u, l :: Holder(after, u, l) <==> Holder(before, u, l) && u != t;
    assert lock.Some? ==> Holder(before, t, lock.value);
    assert t in running;
    forall l | l in now ensures exists u :: Holder(after, u, l) {
      var u :| Holder(before, u, l);
      assert u != t;
      assert Holder(after, u, l);
    }
    assert running - {t} == Running(after);
  }

  /** Statuses may only move forward: nothing completed is lost, nobody becomes schedulable again. */
  ghost predicate Forward(before: Tasks, after: Tasks) {
    && SameDeclarations(before, after)
    && (forall t | t in before && TaskTerminal(before[t].status) :: after[t] == before[t])
    && (forall t | t in before && !Schedulable(before[t].status) :: !Schedulable(after[t].status))
  }

  lemma ForwardKeepsCompleted(before: Tasks, after: Tasks)
    requires Forward(before, after)
    ensures forall t | t in before && DependenciesCompleted(before, t) :: DependenciesCompleted(after, t)
  {
  }

  lemma ForwardKeepsHistory(order: seq<string>, before: Tasks, after: Tasks, policy: ExecutionPolicy,
                            launched: seq<nat>)
    requires Declared(order, before) && Forward(before, after)
    requires forall t | t in before && Ran(after[t].status) :: Ran(before[t].status)
    requires History(order, before, policy, launched)
    ensures History(order, after, policy, launched)
  {
    ForwardKeepsCompleted(before, after);
  }

  lemma ForwardKeepsReadiness(before: Tasks, after: Tasks)
    requires LaunchedOnlyWhenReady(before) && Forward(before, after)
    requires forall t | t in before && Ran(after[t].status) :: Ran(before[t].status)
    ensures LaunchedOnlyWhenReady(after)
  {
    ForwardKeepsCompleted(before, after);
  }

  /** After a completion, releasing the tasks whose last dependency this was restores the invariant. */
  lemma CompletionThenRelease(before: Tasks, ended: Tasks, policy: ExecutionPolicy, t: string)
    requires Normal(before, policy)
    requires EndsAs(before, ended, t) && ended[t].status.COMPLETED?
    ensures Normal(Released(ended), policy) && Forward(before, Released(ended))
  {
    hide WaitsForAReason, RightlySkipped, NobodyDoomed, LaunchedOnlyWhenReady, DependenciesCompleted;
    var after := Released(ended);
    ReleaseIsForward(before, ended, t);
    hide Released;
    WaitsAfterRelease(before, ended, policy, t);
    ForwardKeepsReadiness(before, after);
    ReasonsStay(before, after);
    NobodyNewlyDoomed(before, after);
  }

  lemma ReleaseIsForward(before: Tasks, ended: Tasks, t: string)
    requires EndsAs(before, ended, t) && ended[t].status.COMPLETED?
    ensures var after := Released(ended);
            && Forward(before, after)
            && (forall u | u in before && Ran(after[u].status) :: Ran(before[u].status))
            && (forall u | u in after && TaskTerminal(after[u].status) && !after[u].status.COMPLETED? ::
                 TaskTerminal(before[u].status))
            && (forall u | u in after && (after[u].status.SKIPPED? || after[u].status.INTERRUPTED?) ::
                 after[u] == before[u])
  {
    hide DependenciesCompleted, TaskTerminal;
    var after := Released(ended);
    assert forall u | u in before && u != t :: ended[u] == before[u];
    EndedIsTerminal(before, ended, t);
  }

  lemma EndedIsTerminal(before: Tasks, ended: Tasks, t: string)
    requires EndsAs(before, ended, t)
    ensures TaskTerminal(ended[t].status) && !TaskTerminal(before[t].status)
    ensures !TaskTerminal(PENDING) && !TaskTerminal(WAITING_DEPENDENCY)
  {
  }

  lemma WaitsAfterRelease(before: Tasks, ended: Tasks, policy: ExecutionPolicy, t: string)
    requires WaitsForAReason(before, policy)
    requires EndsAs(before, ended, t) && ended[t].status.COMPLETED?
    ensures WaitsForAReason(Released(ended), policy)
  {
    var after := Released(ended);
    ForwardKeepsCompleted(before, ended);
    SameCompleted(ended, after);
    forall u | u in after && after[u].status.PENDING? && policy.Parallel? ensures DependenciesCompleted(after, u) {
      assert before[u].status.PENDING? ==> DependenciesCompleted(before, u);
    }
  }

  lemma NobodyNewlyDoomed(before: Tasks, after: Tasks)
    requires NobodyDoomed(before) && Forward(before, after)
    requires forall u | u in after && TaskTerminal(after[u].status) && !after[u].status.COMPLETED? ::
               TaskTerminal(before[u].status)
    ensures NobodyDoomed(after)
  {
    forall u, d | u in after && Schedulable(after[u].status) ensures !Blame(after, u, d) {
      assert !Blame(before, u, d);
    }
  }

  lemma ReasonsStay(before: Tasks, after: Tasks)
    requires SkipsHaveReasons(before) && Forward(before, after)
    requires forall s | s in after && after[s].status.SKIPPED? && after[s] != before[s] :: RightlySkipped(after, s)
    ensures SkipsHaveReasons(after)
  {
    forall s | s in after && after[s].status.SKIPPED? ensures RightlySkipped(after, s) {
      if after[s] == before[s] {
        var d :| SkippedFor(before, s, d);
        assert SkippedFor(after, s, d);
      }
    }
  }

  /** After any other end, skipping the closure of the dependants restores it. */
  lemma FailureThenSkip(before: Tasks, ended: Tasks, after: Tasks, policy: ExecutionPolicy, t: string)
    requires Normal(before, policy) && EndsAs(before, ended, t)
    requires !ended[t].status.COMPLETED? && !ended[t].status.INTERRUPTED?
    requires SkippedClosure(ended, after)
    ensures Normal(after, policy) && Forward(before, after)
  {
    SkipIsForward(before, ended, after, t);
    WaitsAfterSkip(before, after, policy);
    ForwardKeepsReadiness(before, after);
    ReasonsStay(before, after);
  }

  lemma SkipIsForward(before: Tasks, ended: Tasks, after: Tasks, t: string)
    requires EndsAs(before, ended, t) && !ended[t].status.COMPLETED?
    requires SkippedClosure(ended, after)
    ensures Forward(before, after) && CompletedUnchanged(before, after)
    ensures forall u | u in after && Ran(after[u].status) :: Ran(before[u].status)
    ensures forall u | u in after && Schedulable(after[u].status) :: after[u] == before[u]
    ensures forall u | u in after && after[u] != before[u] && u != t ::
              after[u].status.SKIPPED? && RightlySkipped(after, u)
  {
  }

  lemma WaitsAfterSkip(before: Tasks, after: Tasks, policy: ExecutionPolicy)
    requires WaitsForAReason(before, policy)
    requires SameDeclarations(before, after) && CompletedUnchanged(before, after)
    requires forall u | u in after && Schedulable(after[u].status) :: after[u] == before[u]
    ensures WaitsForAReason(after, policy)
  {
    SameCompleted(before, after);
  }

  lemma StartIsNormal(order: seq<string>, tasks: Tasks, policy: ExecutionPolicy)
    requires Declared(order, tasks) && forall t | t in tasks :: tasks[t].status.PENDING?
    ensures Normal(Started(tasks, policy), policy)
  {
    var after := Started(tasks, policy);
    forall t | t in after && after[t].status.WAITING_DEPENDENCY? ensures !DependenciesCompleted(after, t) {
      var d := after[t].decl.dependsOn[0];
      assert d in after[t].decl.dependsOn;
    }
  }

  // ---- generated batches ---------------------------------------------------------------------------------

  /** One change per chosen task, in declaration order. */
  function Batched(order: seq<string>, chosen: set<string>, to: TaskState, reason: Option<Reason>): (cs: seq<Change>)
    ensures forall i | 0 <= i < |cs| :: cs[i] == Change(cs[i].taskId, to, reason, None)
    ensures forall i | 0 <= i < |cs| :: cs[i].taskId in order && cs[i].taskId in chosen
  {
    if order == [] then []
    else
      var n := |order| - 1;
      Batched(order[..n], chosen, to, reason)
        + (if order[n] in chosen then [Change(order[n], to, reason, None)] else [])
  }

  lemma {:induction false} BatchedMentions(order: seq<string>, chosen: set<string>, to: TaskState,
                                           reason: Option<Reason>)
    ensures var cs := Batched(order, chosen, to, reason); forall t | t in order && t in chosen :: Mentions(cs, t)
  {
    if order != [] {
      var n := |order| - 1;
      BatchedMentions(order[..n], chosen, to, reason);
      var before, cs := Batched(order[..n], chosen, to, reason), Batched(order, chosen, to, reason);
      forall t | t in order && t in chosen ensures Mentions(cs, t) {
        if t == order[n] {
          assert cs[|before|].taskId == t;
        } else {
          assert t in order[..n];
          var i :| 0 <= i < |before| && before[i].taskId == t;
          assert cs[i].taskId == t;
        }
      }
    }
  }

  lemma OncePerTaskGrows(changes: seq<Change>, c: Change)
    requires OncePerTask(changes) && forall i | 0 <= i < |changes| :: changes[i].taskId != c.taskId
    ensures OncePerTask(changes + [c])
  {
  }

  lemma {:induction false} BatchedOnce(order: seq<string>, chosen: set<string>, to: TaskState, reason: Option<Reason>)
    requires Distinct(order)
    ensures OncePerTask(Batched(order, chosen, to, reason))
  {
    if order != [] {
      hide OncePerTask;
      var n := |order| - 1;
      BatchedOnce(order[..n], chosen, to, reason);
      assert order[n] !in order[..n];
      var before := Batched(order[..n], chosen, to, reason);
      assert before + [] == before;
      forall i | 0 <= i < |before| ensures before[i].taskId != order[n] { assert before[i].taskId in order[..n]; }
      OncePerTaskGrows(before, Change(order[n], to, reason, None));
    }
  }

  function ChangedWhere(tasks: Tasks, chosen: set<string>, to: TaskState, reason: Option<Reason>): Tasks {
    map t | t in tasks :: if t in chosen then Changed(tasks[t], Change(t, to, reason, None)) else tasks[t]
  }

  lemma BatchedIs(order: seq<string>, tasks: Tasks, chosen: set<string>, to: TaskState, reason: Option<Reason>)
    requires Declared(order, tasks) && chosen <= tasks.Keys
    requires forall t | t in chosen :: TaskStep(tasks[t].status, to)
    ensures Legal(tasks, Batched(order, chosen, to, reason))
    ensures AllChanged(tasks, Batched(order, chosen, to, reason)) == ChangedWhere(tasks, chosen, to, reason)
  {
    BatchedMentions(order, chosen, to, reason);
    BatchedOnce(order, chosen, to, reason);
    BatchIs(tasks, Batched(order, chosen, to, reason), ChangedWhere(tasks, chosen, to, reason));
  }

  function WithDependencies(tasks: Tasks): set<string> {
    set t | t in tasks && tasks[t].decl.dependsOn != []
  }

  function Releasable(tasks: Tasks): set<string> {
    set t | t in tasks && tasks[t].status.WAITING_DEPENDENCY? && DependenciesCompleted(tasks, t)
  }

  function StillSchedulable(tasks: Tasks): set<string> {
    set t | t in tasks && Schedulable(tasks[t].status)
  }

  lemma SameDeclarationsSameGraph(order: seq<string>, before: Tasks, after: Tasks)
    requires Declared(order, before) && SameDeclarations(before, after)
    ensures Declared(order, after) && Dependencies(after) == Dependencies(before)
  {
  }

  lemma EndChangeEnds(tasks: Tasks, t: string, e: Ended, interrupting: bool, stop: Option<StopReason>)
    requires t in tasks && tasks[t].status.RUNNING?
    ensures var c := EndChange(t, e, interrupting, stop);
            && Legal(tasks, [c])
            && AllChanged(tasks, [c]) == tasks[t := Changed(tasks[t], c)]
            && EndsAs(tasks, AllChanged(tasks, [c]), t)
            && Changed(tasks[t], c).status == EndState(e, interrupting, stop).0
            && c.taskId == t
  {
    SingleChange(tasks, EndChange(t, e, interrupting, stop));
  }

  lemma ReleasedIsBatch(order: seq<string>, tasks: Tasks)
    requires Declared(order, tasks)
    ensures var cs := Batched(order, Releasable(tasks), PENDING, None);
            Legal(tasks, cs) && AllChanged(tasks, cs) == Released(tasks)
  {
    hide Legal, AllChanged, Declared, Batched, DependenciesCompleted;
    BatchedIs(order, tasks, Releasable(tasks), PENDING, None);
    assert ChangedWhere(tasks, Releasable(tasks), PENDING, None) == Released(tasks);
  }

  lemma RemainingIsBatch(order: seq<string>, tasks: Tasks, to: TaskState, reason: Reason)
    requires Declared(order, tasks) && (to.SKIPPED? || to.INTERRUPTED?)
    ensures var cs := Batched(order, StillSchedulable(tasks), to, Some(reason));
            Legal(tasks, cs) && AllChanged(tasks, cs) == Remaining(tasks, to, reason)
  {
    hide Legal, AllChanged, Declared, Batched, DependenciesCompleted;
    BatchedIs(order, tasks, StillSchedulable(tasks), to, Some(reason));
    assert ChangedWhere(tasks, StillSchedulable(tasks), to, Some(reason)) == Remaining(tasks, to, reason);
  }

  lemma StartedIsBatch(order: seq<string>, tasks: Tasks, policy: ExecutionPolicy)
    requires Declared(order, tasks) && policy.Parallel? && forall t | t in tasks :: tasks[t].status.PENDING?
    ensures var cs := Batched(order, WithDependencies(tasks), WAITING_DEPENDENCY, None);
            Legal(tasks, cs) && AllChanged(tasks, cs) == Started(tasks, policy)
  {
    hide Legal, AllChanged, Declared, Batched, DependenciesCompleted;
    BatchedIs(order, tasks, WithDependencies(tasks), WAITING_DEPENDENCY, None);
    assert ChangedWhere(tasks, WithDependencies(tasks), WAITING_DEPENDENCY, None) == Started(tasks, policy);
  }
}

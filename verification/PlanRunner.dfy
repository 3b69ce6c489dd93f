/**
 Execution of one plan.  The environment decides which running tasks finish, with what outcome, which
 write the disk refuses, and when the deadline passes or the user interrupts; everything else is decided
 here.
 */
module PlanRunner {
  import opened Options
  import opened States
  import opened Records
  import opened Persistence
  import opened DependencyGraph
  import opened Schedule
  import opened Trail
  import opened Settling
  import opened Steps
  import opened Picking
  import opened Conclusion
  import opened Outcomes
  import opened SkipPropagation
  import C = ResultCollector

  /** How `Run` ends: normally, by a refusal before the first write, by a persistence error that
      propagates, or by one of the two internal errors the scheduler could raise. */
  datatype RunResult =
    | Finished(outcome: PlanOutcome)
    | InvalidStart
    | InvalidDependencies(verdict: Verdict)
    | PersistenceError
    | SchedulerStalled
    | TasksNotTerminal
    | CollectorRefused

  /** When the outside world intervenes: the round of the loop in which the user's signal arrives, and the
      one in which the deadline has passed. */
  datatype Signals = Signals(interruptAt: Option<nat>, deadlineAt: Option<nat>)

  /** The signals account for how the plan ended. */
  predicate Signalled(signals: Signals, already: bool, status: PlanState) {
    && (status.PlanInterrupted? ==> already || signals.interruptAt.Some?)
    && (status.PlanFailed? ==> signals.deadlineAt.Some? && !already)
    && (already ==> status.PlanInterrupted?)
    && (!already && signals.deadlineAt == Some(0) ==> status.PlanFailed?)
  }

  /** The stop condition that ended the plan, if one did. */
  function StopOf(plan: PlanRecord): Option<StopReason> {
    if plan.status.StoppedOnFailure? || plan.status.ShortCircuitedOnSuccess? then plan.stopReason else None
  }

  lemma StopOfPlan(plan: PlanRecord)
    ensures plan.status.PlanInterrupted? || plan.status.PlanFailed? || plan.status.PlanCompleted? ==>
              StopOf(plan).None?
    ensures plan.status.StoppedOnFailure? || plan.status.ShortCircuitedOnSuccess? ==> StopOf(plan) == plan.stopReason
  {
  }

  function Indexed(ordered: seq<TaskRecord>): (tasks: Tasks)
    ensures forall t | t in tasks :: tasks[t].decl.taskId == t && tasks[t] in ordered
    ensures forall i | 0 <= i < |ordered| :: ordered[i].decl.taskId in tasks
  {
    if ordered == [] then map[]
    else
      var t := ordered[|ordered| - 1];
      Indexed(ordered[..|ordered| - 1])[t.decl.taskId := t]
  }

  function Identifiers(ordered: seq<TaskRecord>): (ids: seq<string>)
    ensures |ids| == |ordered|
    ensures forall i | 0 <= i < |ids| :: ids[i] == ordered[i].decl.taskId
  {
    seq(|ordered|, i requires 0 <= i < |ordered| => ordered[i].decl.taskId)
  }

  lemma {:induction false} IndexedKeys(ordered: seq<TaskRecord>)
    ensures forall t :: t in Indexed(ordered) <==> t in Identifiers(ordered)
  {
    if ordered != [] {
      var n := |ordered| - 1;
      IndexedKeys(ordered[..n]);
      assert Identifiers(ordered) == Identifiers(ordered[..n]) + [ordered[n].decl.taskId];
    }
  }

  /** As many records as identifiers means no identifier is declared twice. */
  lemma {:induction false} SameCountDistinct(ordered: seq<TaskRecord>)
    ensures |Indexed(ordered)| <= |ordered|
    ensures |Indexed(ordered)| == |ordered| ==> Distinct(Identifiers(ordered))
  {
    if ordered != [] {
      var n := |ordered| - 1;
      var rest, id := ordered[..n], ordered[n].decl.taskId;
      assert Identifiers(ordered) == Identifiers(rest) + [id];
      SameCountDistinct(rest);
      IndexedKeys(rest);
      var before, after := Indexed(rest), Indexed(ordered);
      assert after == before[id := ordered[n]];
      if id in before {
        assert |after| == |before|;
      } else {
        assert after.Keys == before.Keys + {id};
        assert |after| == |before| + 1;
      }
    }
  }

  /** Memory, store and published trail agree: replaying the trail gives the states in memory, by
      table-listed steps only, and every record published about is in the store as it is in memory. */
  ghost predicate Agreed(plan0: PlanRecord, tasks0: Tasks, events: seq<Event>, touched: set<string>, planTouched: bool,
                         plan: PlanRecord, tasks: Tasks, t: Tables) {
    && Replays(plan0.status, Statuses(tasks0), events, plan.status, Statuses(tasks))
    && Stored(touched, tasks, t)
    && Announced(events, touched, planTouched)
    && (planTouched ==> PlanKey(plan) in t.plans && t.plans[PlanKey(plan)] == plan)
    && SameDeclarations(tasks0, tasks)
    && PlanKey(plan) == PlanKey(plan0) && plan.policy == plan0.policy
  }

  lemma SamePlan(plan0: PlanRecord, tasks0: Tasks, events: seq<Event>, touched: set<string>, planTouched: bool,
                 plan: PlanRecord, tasks: Tasks, t: Tables)
    requires Agreed(plan0, tasks0, events, touched, planTouched, plan, tasks, t)
    ensures plan.planId == plan0.planId && plan.policy == plan0.policy
  {
  }

  lemma BatchKeepsAgreement(plan0: PlanRecord, order: seq<string>, tasks0: Tasks, events: seq<Event>,
                            touched: set<string>,
                            planTouched: bool, plan: PlanRecord, tasks: Tasks, t: Tables,
                            changes: seq<Change>, blobs: seq<BlobRecord>)
    requires Declared(order, tasks) && Legal(tasks, changes)
    requires Agreed(plan0, tasks0, events, touched, planTouched, plan, tasks, t)
    ensures var after := AllChanged(tasks, changes);
            Agreed(plan0, tasks0, events + Events(tasks, changes), touched + ChangedIds(changes), planTouched, plan,
                   after,
                   ApplyAll(Batch(after, changes, blobs), t))
  {
    BatchIsStored(order, tasks, changes, blobs, touched, t);
    BatchExtendsTrail(plan0.status, Statuses(tasks0), events, plan.status, tasks, changes);
    BatchIsAnnounced(events, tasks, changes, touched, planTouched);
  }

  lemma PlanStepKeepsAgreement(plan0: PlanRecord, tasks0: Tasks, events: seq<Event>, touched: set<string>,
                               planTouched: bool, plan: PlanRecord, changed: PlanRecord, tasks: Tasks, t: Tables,
                               stop: Option<StopReason>)
    requires Agreed(plan0, tasks0, events, touched, planTouched, plan, tasks, t)
    requires PlanStep(plan.status, changed.status) && PlanKey(changed) == PlanKey(plan) && changed.policy == plan.policy
    ensures Agreed(plan0, tasks0, events + [PlanChanged(plan.status, changed.status, stop)], touched, true, changed,
                   tasks,
                   Apply(SavePlan(changed), t))
  {
    OneMorePlanEvent(plan0.status, Statuses(tasks0), events, plan.status, changed.status, Statuses(tasks), stop);
    var now := events + [PlanChanged(plan.status, changed.status, stop)];
    forall i | 0 <= i < |now| ensures AnnouncedBy(now[i], touched, true) {
      if i < |events| { assert AnnouncedBy(events[i], touched, planTouched); }
    }
  }

  lemma BlobsHaveTheirSize(t: TaskRecord, w: WorkerEnd)
    ensures forall b | b in BlobsOf(t, w) :: b.sizeBytes == |b.content|
  {
  }

  /** The two streams of a command are stored whole, each under its own name; other ends store nothing. */
  ghost predicate StreamsStored(before: map<string, BlobRecord>, after: map<string, BlobRecord>, t: TaskRecord,
                                w: WorkerEnd) {
    if w.ended.Raw? then
      var out := BlobRecord(w.stdoutId, t.decl.sessionId, t.decl.taskId, Stdout, w.ended.stdout, |w.ended.stdout|);
      var err := BlobRecord(w.stderrId, t.decl.sessionId, t.decl.taskId, Stderr, w.ended.stderr, |w.ended.stderr|);
      after == before[w.stdoutId := out][w.stderrId := err]
    else after == before
  }

  lemma BlobsAreStored(before: map<string, BlobRecord>, t: TaskRecord, w: WorkerEnd)
    ensures StreamsStored(before, Added(before, BlobsOf(t, w)), t, w)
  {
    if w.ended.Raw? {
      var blobs := BlobsOf(t, w);
      assert blobs[..1][..0] == [] && blobs[..1][0] == blobs[0];
      assert Added(before, blobs[..1]) == before[blobs[0].blobId := blobs[0]];
    }
  }

  lemma ForwardKeepsTheEnd(before: Tasks, after: Tasks, t: string)
    requires Forward(before, after) && t in before && TaskTerminal(before[t].status)
    ensures t in after && after[t] == before[t]
  {
  }

  lemma NothingAdded(stored: map<string, BlobRecord>)
    ensures Added(stored, []) == stored
  {
  }

  class PlanExecution {
    const store: Store
    const order: seq<string>
    const policy: ExecutionPolicy
    const workers: nat
    var plan: PlanRecord
    var tasks: Tasks
    var running: set<string>
    var heldLocks: set<string>
    var events: seq<Event>
    var stopReason: Option<StopReason>
    var interrupting: bool
    var budgetExceeded: bool
    // the interruption token, cancelled by the environment, once
    var interrupted: bool

    ghost const plan0: PlanRecord
    ghost const tasks0: Tasks
    ghost var launched: seq<nat>
    ghost var touched: set<string>
    ghost var planTouched: bool
    ghost var rank: map<string, nat>

    /** `ordered`: the task records sorted by declaration order. */
    constructor (store: Store, plan: PlanRecord, ordered: seq<TaskRecord>, interrupted: bool)
      ensures this.store == store && this.plan == plan && plan0 == plan && policy == plan.policy
      ensures order == Identifiers(ordered) && tasks == Indexed(ordered) && Fresh()
      ensures this.interrupted == interrupted
    {
      hide Indexed, Identifiers, Distinct;
      IndexedKeys(ordered);
      SameCountDistinct(ordered);
      this.store := store;
      this.plan := plan;
      plan0 := plan;
      policy := plan.policy;
      order := Identifiers(ordered);
      tasks := Indexed(ordered);
      tasks0 := Indexed(ordered);
      workers := if plan.policy.Sequential? || plan.maxParallelWorkers < 1 then 1 else plan.maxParallelWorkers;
      running, heldLocks, events := {}, {}, [];
      launched, touched, planTouched, rank := [], {}, false, map[];
      stopReason, interrupting, budgetExceeded := None, false, false;
      this.interrupted := interrupted;
    }

    // ---- what always holds -----------------------------------------------------------------------------

    /** Memory, store and published trail agree: replaying the trail gives the states in memory, by
        table-listed steps only, and every record published about is in the store as it is in memory. */
    ghost predicate Durable()
      reads this`events, this`touched, this`planTouched, this`plan, this`tasks, store`tables
    {
      Agreed(plan0, tasks0, events, touched, planTouched, plan, tasks, store.tables)
    }

    /** Nothing happened yet, and the records are indexed by their own identifiers. */
    ghost predicate Fresh()
      reads this
    {
      && plan == plan0 && policy == plan.policy && tasks == tasks0
      && workers == (if plan.policy.Sequential? || plan.maxParallelWorkers < 1 then 1 else plan.maxParallelWorkers)
      && running == {} && heldLocks == {} && events == [] && launched == [] && touched == {} && !planTouched
      && stopReason.None? && !interrupting && !budgetExceeded
      && (forall t :: t in order <==> t in tasks) && (forall t | t in tasks :: tasks[t].decl.taskId == t)
      && (|tasks| == |order| ==> Distinct(order))
    }

    /** The plan and every task can start, and every task belongs to the plan, once. */
    predicate CanStart()
      reads this
    {
      && PlanStep(plan.status, PlanRunning)
      && |tasks| == |order|
      && forall t | t in tasks :: tasks[t].decl.planId == plan.planId && TaskStep(tasks[t].status, RUNNING)
    }

    /** Nothing of the plan has started yet, and its tasks are its own, each declared once. */
    ghost predicate Startable()
      reads this
    {
      && plan.status == PlanPending && |tasks| == |order|
      && forall t | t in tasks :: tasks[t].status == PENDING && tasks[t].decl.planId == plan.planId
    }

    lemma CanStartExactly()
      ensures CanStart() <==> Startable()
    {
    }

    ghost function F(): Frame
      reads this`rank
    {
      Frame(order, policy, workers, plan0.planId, rank)
    }

    /** Workers, locks, graph and launch history fit the records. */
    ghost predicate Scheduled()
      reads this`rank, this`tasks, this`running, this`heldLocks, this`launched
    {
      Sound(F(), tasks, running, heldLocks, launched)
    }

    // ---- persistence, then publication ---------------------------------------------------------------------

    /** One transaction for the blobs and the records, then memory, then one event per change. */
    method ApplyChanges(changes: seq<Change>, blobs: seq<BlobRecord>) returns (ok: bool)
      requires Declared(order, tasks) && Legal(tasks, changes) && Durable()
      requires forall b | b in blobs :: b.sizeBytes == |b.content|
      modifies this`tasks, this`events, this`touched, store
      ensures Durable()
      ensures ok <==> store.Failures() == old(store.Failures())
      ensures ok ==> tasks == AllChanged(old(tasks), changes)
      ensures ok ==> events == old(events) + Events(old(tasks), changes)
      ensures ok ==> store.tables.blobs == Added(old(store.tables).blobs, blobs)
      ensures !ok ==> tasks == old(tasks) && events == old(events) && store.tables == old(store.tables)
    {
      hide Refusals, Agreed, Legal, Declared, ApplyAll;
      LegalMentionsTasks(tasks, changes);
      if changes == [] && blobs == [] {
        assert Events(tasks, changes) == [];
        return true;
      }
      var after := AllChanged(tasks, changes);
      ok := store.SaveAll(Batch(after, changes, blobs));
      if ok {
        BatchAdds(after, changes, blobs, old(store.tables));
        ghost var now := touched + ChangedIds(changes);
        assert Agreed(plan0, tasks0, events + Events(tasks, changes), now, planTouched, plan, after, store.tables) by {
          BatchKeepsAgreement(plan0, order, tasks0, events, touched, planTouched, plan, tasks, old(store.tables),
                              changes, blobs);
        }
        events := events + Events(tasks, changes);
        tasks := after;
        touched := now;
      }
    }

    method TransitionPlan(to: PlanState, stop: Option<StopReason>) returns (ok: bool)
      requires Declared(order, tasks) && Durable() && PlanStep(plan.status, to)
      modifies this`plan, this`events, this`planTouched, store
      ensures Durable()
      ensures ok <==> store.Failures() == old(store.Failures())
      ensures ok ==> plan == old(plan).(status := to, counters := C.Tally(InOrder(order, tasks)),
                                         stopReason := if PlanTerminal(to) then stop else old(plan).stopReason)
      ensures ok ==> C.Counted(plan.counters, InOrder(order, tasks))
      ensures ok ==> events == old(events) + [PlanChanged(old(plan).status, to, stop)]
      ensures !ok ==> plan == old(plan) && events == old(events) && store.tables == old(store.tables)
    {
      hide Refusals, C.Counted;
      C.TallyIsCounted(InOrder(order, tasks));
      var changed := plan.(status := to, counters := C.Tally(InOrder(order, tasks)),
                           stopReason := if PlanTerminal(to) then stop else plan.stopReason);
      var batch := [SavePlan(changed)];
      ok := store.SaveAll(batch);
      if ok {
        assert batch[..0] == [];
        assert store.tables == Apply(batch[0], ApplyAll([], old(store.tables)));
        PlanStepKeepsAgreement(plan0, tasks0, events, touched, planTouched, plan, changed, tasks, old(store.tables),
                               stop);
        events := events + [PlanChanged(plan.status, to, stop)];
        plan := changed;
        planTouched := true;
      }
    }

    // ---- dependencies -------------------------------------------------------------------------------------

    /** `WAITING_DEPENDENCY -> PENDING` for every task whose dependencies are all complete. */
    method ReleaseDependants() returns (ok: bool)
      requires Declared(order, tasks) && Durable()
      modifies this`tasks, this`events, this`touched, store
      ensures Durable()
      ensures ok <==> store.Failures() == old(store.Failures())
      ensures tasks == if ok then Released(old(tasks)) else old(tasks)
      ensures ok ==> store.tables.blobs == old(store.tables).blobs
    {
      hide *;
      NothingAdded(store.tables.blobs);
      ReleasedIsBatch(order, tasks);
      ok := ApplyChanges(Batched(order, Releasable(tasks), PENDING, None), []);
    }

    /** With nothing running any more, every task that still may be scheduled ends, for one common
        reason. */
    method MarkRemaining(to: TaskState, reason: Reason) returns (ok: bool)
      requires Scheduled() && Durable() && running == {} && (to.SKIPPED? || to.INTERRUPTED?)
      modifies this`tasks, this`events, this`touched, store
      ensures Durable()
      ensures ok <==> store.Failures() == old(store.Failures())
      ensures tasks == if ok then Remaining(old(tasks), to, reason) else old(tasks)
      ensures ok ==> Scheduled() && Forward(old(tasks), tasks) && !AnyOpen(tasks)
      ensures ok && to.SKIPPED? && NobodyInterrupted(old(tasks)) ==> NobodyInterrupted(tasks)
    {
      hide Refusals, Agreed, Sound, Declared, Graphed, Legal, AllChanged, Batched, OnlyWaitingChanged, Forward,
           Remaining, NobodyInterrupted, AnyOpen;
      SoundFacts(F(), tasks, running, heldLocks, launched);
      NothingRunningNothingHeld(F(), tasks, heldLocks, launched);
      MarkedIsTerminal(tasks, to, reason);
      RemainingIsBatch(order, tasks, to, reason);
      PropagationOnlyTouchesWaiting(tasks);
      ok := ApplyChanges(Batched(order, StillSchedulable(tasks), to, Some(reason)), []);
      if ok {
        WaitingChangesAreSound(F(), old(tasks), tasks, running, heldLocks, launched);
      }
    }

    /** Transitive `SKIPPED` of the tasks depending on a task that did not complete. */
    method SkipDependants(root: string) returns (ok: bool)
      requires Declared(order, tasks) && Durable()
      requires root in tasks && TaskTerminal(tasks[root].status) && !tasks[root].status.COMPLETED?
      requires forall t, d | t in tasks && Schedulable(tasks[t].status) && Blame(tasks, t, d) :: d == root
      modifies this`tasks, this`events, this`touched, store
      ensures Durable()
      ensures ok <==> store.Failures() == old(store.Failures())
      ensures ok ==> SkippedClosure(old(tasks), tasks)
      ensures ok ==> store.tables.blobs == old(store.tables).blobs
      ensures !ok ==> tasks == old(tasks)
    {
      hide *;
      NothingAdded(store.tables.blobs);
      var changes := SkipList(order, tasks, root);
      SkipListClosure(tasks, root, changes);
      ok := ApplyChanges(changes, []);
    }

    // ---- starting and ending one task ---------------------------------------------------------------------

    method StartPlan() returns (ok: bool)
      requires Scheduled() && Durable() && plan.status.PlanPending? && running == {}
      requires forall t | t in tasks :: tasks[t].status.PENDING?
      modifies this`plan, this`planTouched, this`tasks, this`events, this`touched, store
      ensures Durable()
      ensures ok <==> store.Failures() == old(store.Failures())
      ensures ok ==> Scheduled() && plan.status.PlanRunning? && tasks == Started(old(tasks), policy)
    {
      hide Refusals, Agreed, Sound, Declared, Legal, AllChanged, Batched, OnlyWaitingChanged, Graphed, InOrder, C.Tally,
           Started;
      SoundFacts(F(), tasks, running, heldLocks, launched);
      StartedOnlyTouchesWaiting(tasks, policy);
      ok := TransitionPlan(PlanRunning, None);
      if ok && policy.Parallel? {
        StartedIsBatch(order, tasks, policy);
        ok := ApplyChanges(Batched(order, WithDependencies(tasks), WAITING_DEPENDENCY, None), []);
      }
      if ok {
        WaitingChangesAreSound(F(), old(tasks), tasks, running, heldLocks, launched);
      }
    }

    /** Blobs, terminal transition (persisted, then published), lock release, then, while the plan runs
        normally, dependency propagation. */
    method Finish(t: string, w: WorkerEnd, propagate: bool) returns (ok: bool)
      requires Scheduled() && Durable() && t in running
      requires propagate ==> Normal(tasks, policy) && !interrupting
      modifies this`running, this`heldLocks, this`tasks, this`events, this`touched, store
      ensures Durable()
      ensures ok <==> store.Failures() == old(store.Failures())
      ensures ok ==> t in old(tasks) && t in tasks
                     && Recorded(w.ended, old(tasks)[t], tasks[t], interrupting, stopReason)
                     && StreamsStored(old(store.tables).blobs, store.tables.blobs, old(tasks)[t], w)
      ensures ok ==>
                Scheduled() && EndedWell(old(tasks), tasks, EndChange(t, w.ended, interrupting, stopReason), propagate)
      ensures ok ==> running == old(running) - {t}
      ensures ok && propagate ==> Normal(tasks, policy)
    {
      hide Refusals, Agreed, Sound, Declared, Legal, AllChanged, OnlyWaitingChanged, Graphed, Normal, EndsAs, Forward,
           SkippedClosure, Released, NobodyDoomed, Blame, EndedWell, EndChange, EndState, Changed, Dependencies,
           Recorded, StreamsStored, BlobsOf, Propagated;
      SoundFacts(F(), tasks, running, heldLocks, launched);
      var e := w.ended;
      var change := EndChange(t, e, interrupting, stopReason);
      EndChangeEnds(tasks, t, e, interrupting, stopReason);
      EndIsRecorded(tasks[t], t, e, interrupting, stopReason);
      BlobsHaveTheirSize(tasks[t], w);
      BlobsAreStored(store.tables.blobs, tasks[t], w);
      ghost var before := tasks;
      var lock := tasks[t].decl.resourceLock;
      running := running - {t};
      ok := ApplyChanges([change], BlobsOf(tasks[t], w));
      if !ok { return; }
      ghost var ended := tasks;
      EndIsSound(F(), before, ended, old(running), heldLocks, launched, t);
      EndedPlainly(before, ended, change);
      if lock.Some? {
        heldLocks := heldLocks - {lock.value};
      }
      if propagate {
        EndStateIsFinal(e, interrupting, stopReason);
        SoundFacts(F(), ended, running, heldLocks, launched);
        if tasks[t].status.COMPLETED? {
          ok := ReleaseDependants();
          if !ok { return; }
          PropagationOnlyTouchesWaiting(ended);
          CompletionThenRelease(before, ended, policy, t);
        } else {
          OnlyTheRootIsNew(before, ended, policy, t);
          ok := SkipDependants(t);
          if !ok { return; }
          ClosureOnlyTouchesWaiting(ended, tasks);
          FailureThenSkip(before, ended, tasks, policy, t);
        }
        WaitingChangesAreSound(F(), ended, tasks, running, heldLocks, launched);
        EndedThenPropagated(before, ended, tasks, change);
        ForwardKeepsTheEnd(ended, tasks, t);
      }
    }

    // ---- launching ---------------------------------------------------------------------------------------------

    /** The lock is held, `PENDING -> RUNNING` is persisted then published, and the task is handed to a
        worker. */
    method Launch(t: string, ghost k: nat) returns (ok: bool)
      requires Scheduled() && Durable() && Normal(tasks, policy) && |running| < workers
      requires (forall u | u in order :: u in tasks) && Pick(order, tasks, heldLocks, policy.Sequential?, k)
               && order[k] == t
      modifies this`running, this`heldLocks, this`launched, this`tasks, this`events, this`touched, store
      ensures Durable()
      ensures ok <==> store.Failures() == old(store.Failures())
      ensures ok ==> Scheduled() && Normal(tasks, policy)
      ensures ok ==> tasks == old(tasks)[t := old(tasks)[t].(status := RUNNING)]
      ensures ok ==> running == old(running) + {t} && launched == old(launched) + [k]
      ensures ok ==> heldLocks == (var lock := old(tasks)[t].decl.resourceLock;
                                   if lock.Some? then old(heldLocks) + {lock.value} else old(heldLocks))
    {
      hide Refusals, Agreed, Sound, Declared, Legal, AllChanged, Graphed, Normal, DependenciesCompleted;
      SoundFacts(F(), tasks, running, heldLocks, launched);
      LaunchIsSound(F(), tasks, running, heldLocks, launched, k);
      LaunchKeepsNormal(tasks, t, policy);
      var change := Change(t, RUNNING, None, None);
      LaunchIsLegal(tasks, t);
      var lock := tasks[t].decl.resourceLock;
      if lock.Some? {
        heldLocks := heldLocks + {lock.value};
      }
      ok := ApplyChanges([change], []);
      if ok {
        running := running + {t};
        launched := launched + [k];
      }
    }

    /** One round of launches; `stalled` is the internal error raised when nothing runs and
        something is left to do. */
    method LaunchReady() returns (ok: bool, stalled: bool)
      requires Scheduled() && Durable() && Normal(tasks, policy)
      modifies this`running, this`heldLocks, this`launched, this`tasks, this`events, this`touched, store
      ensures Durable() && !stalled
      ensures ok <==> store.Failures() == old(store.Failures())
      ensures ok ==> Scheduled() && Normal(tasks, policy) && OnlyLaunches(old(tasks), tasks)
      ensures ok ==> LaunchesNoted(order, old(tasks), old(launched), tasks, launched)
      ensures ok ==> running != {} || !AnyOpen(tasks)
    {
      hide Refusals, Agreed, Sound, Declared, Graphed, Normal, Picks, OnlyLaunches, LaunchablePosition, Pick,
           LaunchesNoted;
      stalled := false;
      SoundFacts(F(), tasks, running, heldLocks, launched);
      var at := Picking.Ready(order, tasks, heldLocks, policy.Sequential?, workers - |running|);
      AtMostOnePickInSequence(F(), tasks, |running|, at);
      NoLaunchYet(tasks);
      NoLaunchNoted(order, tasks, launched);
      ghost var free := workers - |running|;
      assert at[0..] == at;
      var i := 0;
      while i < |at|
        invariant i <= |at| && Durable() && Scheduled() && Normal(tasks, policy)
        invariant store.Failures() == old(store.Failures())
        invariant OnlyLaunches(old(tasks), tasks) && LaunchesNoted(order, old(tasks), old(launched), tasks, launched)
        invariant forall t | t in order :: t in tasks
        invariant Picks(order, tasks, heldLocks, policy.Sequential?, at[i..])
        invariant policy.Sequential? ==> |at| <= 1
        invariant i < |at| ==> |running| + |at| - i <= workers
        invariant i == 0 ==>
                    && tasks == old(tasks) && running == old(running) && heldLocks == old(heldLocks)
                    && launched == old(launched)
        invariant i > 0 ==> running != {}
      {
        assert at[i..][1..] == at[i + 1..];
        FirstPick(order, tasks, heldLocks, policy.Sequential?, at[i..]);
        var t := order[at[i]];
        SoundFacts(F(), tasks, running, heldLocks, launched);
        LaunchKeepsPicks(order, tasks, heldLocks, policy.Sequential?, at[i..]);
        OneMoreLaunch(old(tasks), tasks, t);
        OneMoreNoted(order, old(tasks), old(launched), tasks, launched, at[i]);
        ok := Launch(t, at[i]);
        if !ok { return; }
        i := i + 1;
      }
      ok := true;
      if running == {} {
        // nothing was picked: had anything been left to do, one task would have been
        NothingPickedNothingLeft(F(), tasks, heldLocks, launched);
        stalled := exists t :: t in tasks && !TaskTerminal(tasks[t].status);
      }
    }

    /** Every task that was handed to a worker is recorded as that worker came back. */
    ghost predicate Telling(outcomes: string -> WorkerEnd, during: bool, stop: Option<StopReason>)
      reads this`tasks, this`launched
    {
      Told(tasks0, tasks, order, launched, outcomes, during, stop)
    }

    lemma TellingIs(outcomes: string -> WorkerEnd)
      ensures Telling(outcomes, false, None) <==> Told(tasks0, tasks, order, launched, outcomes, false, None)
    {
    }

    // ---- drains and endings ----------------------------------------------------------------------------------

    /** Every running task is signalled and recorded, in declaration order: with its own outcome when it
        came back in time, as a forced termination otherwise. */
    method Drain(outcomes: string -> WorkerEnd) returns (ok: bool)
      requires Scheduled() && Durable()
      modifies this`running, this`heldLocks, this`tasks, this`events, this`touched, store
      ensures Durable()
      ensures ok <==> store.Failures() == old(store.Failures())
      ensures ok ==> Scheduled() && running == {} && Drained(old(tasks), tasks, outcomes, interrupting, stopReason)
    {
      hide Refusals, Agreed, Sound, Declared, Graphed, Drained, EndedWell, EndChange, Recorded, StreamsStored;
      SoundFacts(F(), tasks, running, heldLocks, launched);
      NothingDrained(tasks, outcomes, interrupting, stopReason);
      var futures := running;
      RunningAreDeclared(F(), tasks, running);
      for i := 0 to |order|
        invariant Scheduled() && Durable()
        invariant store.Failures() == old(store.Failures())
        invariant Drained(old(tasks), tasks, outcomes, interrupting, stopReason)
        invariant forall t :: t in running <==> t in futures && t !in order[..i]
      {
        var t := order[i];
        assert order[..i + 1] == order[..i] + [t];
        if t in futures {
          SoundFacts(F(), tasks, running, heldLocks, launched);
          NotSeenYet(F(), tasks, i);
          ghost var before := tasks;
          ok := Finish(t, outcomes(t), false);
          if !ok { return; }
          OneMoreDrained(old(tasks), before, tasks, outcomes, interrupting, stopReason, t);
        }
      }
      ok := true;
      assert order[..|order|] == order;
    }

    /** The plan reaches its final state and the outcome is built; only an interrupted plan has no
        result. */
    method Conclude(target: PlanState, stop: Option<StopReason>) returns (r: RunResult)
      requires Scheduled() && Durable() && PlanStep(plan.status, target) && PlanTerminal(target) && !AnyOpen(tasks)
      requires Explained(target, stop, tasks, policy)
      requires !target.PlanInterrupted? ==> NobodyInterrupted(tasks)
      modifies this`plan, this`planTouched, this`events, store
      ensures Durable() && Scheduled()
      ensures r.PersistenceError? <==> store.Failures() != old(store.Failures())
      ensures r.PersistenceError?
              || (r.Finished? && plan.status == target && plan.stopReason == stop
                 && Concluded(F(), plan, tasks, r.outcome))
    {
      hide Refusals, Agreed, Sound, Graphed, Declared, Explained, AnyOpen, NobodyInterrupted, InOrder, C.Tally,
           C.Select, C.ResultsOf, C.RefsOf, Concluded;
      SoundFacts(F(), tasks, running, heldLocks, launched);
      AllTerminalAndOwn(F(), tasks);
      SamePlan(plan0, tasks0, events, touched, planTouched, plan, tasks, store.tables);
      var ok := TransitionPlan(target, stop);
      if !ok { return PersistenceError; }
      var ordered := InOrder(order, tasks);
      var content: Option<C.Content> := None;
      if !target.PlanInterrupted? {
        var built := C.Build(plan, ordered);
        if !built.Success? { return CollectorRefused; }
        content := Some(built.content);
      }
      r := Finished(PlanOutcome(plan, ordered, content, target.PlanInterrupted?, target.PlanFailed?));
      IsConcluded(F(), plan, tasks, content);
    }

    method Completed() returns (r: RunResult)
      requires Scheduled() && Durable() && plan.status.PlanRunning?
      requires Normal(tasks, policy) && Unstopped(tasks) && !AnyOpen(tasks)
      modifies this`plan, this`events, this`planTouched, store
      ensures Durable() && Scheduled()
      ensures r.PersistenceError? <==> store.Failures() != old(store.Failures())
      ensures r.PersistenceError?
              || (r.Finished? && plan.status.PlanCompleted? && Concluded(F(), plan, tasks, r.outcome))
    {
      hide Refusals, Agreed, Sound, Graphed, Declared, Normal, Unstopped;
      SoundFacts(F(), tasks, running, heldLocks, launched);
      if exists t :: t in tasks && !TaskTerminal(tasks[t].status) { return TasksNotTerminal; }
      NormalInterruptsNobody(tasks, policy);
      r := Conclude(PlanCompleted, None);
    }

    /** A stop condition: the running tasks are cancelled and drained, the rest is skipped. */
    method Stop(ghost t: string, target: PlanState, reason: StopReason, outcomes: string -> WorkerEnd)
      returns (r: RunResult)
      requires Scheduled() && Durable() && plan.status.PlanRunning? && !interrupting
      requires Telling(outcomes, false, None)
      requires target.StoppedOnFailure? || target.ShortCircuitedOnSuccess?
      requires Stopper(tasks, t, target, reason) && NobodyInterrupted(tasks) && SkipsHaveReasons(tasks)
      modifies this`plan, this`planTouched, this`stopReason, this`running, this`heldLocks, this`tasks, this`events,
               this`touched, store
      ensures Durable()
      ensures r.PersistenceError? <==> store.Failures() != old(store.Failures())
      ensures r.Finished? ==> Forward(old(tasks), tasks) && plan.status == target && plan.stopReason == Some(reason)
      ensures r.Finished? ==> Telling(outcomes, false, Some(reason))
      ensures r.PersistenceError? || (r.Finished? && Concluded(F(), plan, tasks, r.outcome) && Scheduled())
    {
      hide Refusals, Agreed, Sound, Graphed, Declared, Drained, NobodyInterrupted, Stopper, Forward, Remaining, AnyOpen,
           Concluded, Explained, Durable, InOrder, SkipsHaveReasons, SkippedBecause, Told, OnlyWaitingTold;
      ToldBeforeTheDrain(tasks0, tasks, order, launched, outcomes, false, Some(reason));
      stopReason := Some(reason);
      var ok := Drain(outcomes);
      if !ok { return PersistenceError; }
      DrainInterruptsNobody(old(tasks), tasks, outcomes, stopReason);
      DrainIsForward(old(tasks), tasks, outcomes, interrupting, stopReason);
      DrainKeepsReasons(old(tasks), tasks, outcomes, interrupting, stopReason);
      DrainTold(tasks0, old(tasks), tasks, order, launched, outcomes, false, stopReason);
      StopperStays(old(tasks), tasks, t, target, reason);
      ghost var drained := tasks;
      ok := MarkRemaining(SKIPPED, PlanStopped(Some(reason)));
      if !ok { return PersistenceError; }
      WaitingStepsTold(drained, policy, SKIPPED, PlanStopped(Some(reason)));
      WaitingTold(tasks0, drained, tasks, order, launched, outcomes, false, stopReason);
      StopperStays(drained, tasks, t, target, reason);
      SkippedRemain(drained, PlanStopped(Some(reason)));
      ForwardTrans(old(tasks), drained, tasks);
      StopperExplains(target, tasks, policy, t, reason);
      r := Conclude(target, Some(reason));
    }

    /** An interruption: the running tasks are signalled and drained, the rest is interrupted, and no
        result is produced. */
    method Interrupt(outcomes: string -> WorkerEnd) returns (r: RunResult)
      requires Scheduled() && Durable() && (plan.status.PlanRunning? || plan.status.PlanPending?)
      requires NobodyInterrupted(tasks) && SkipsHaveReasons(tasks)
      requires Telling(outcomes, false, None) && stopReason.None?
      modifies this`plan, this`planTouched, this`interrupting, this`running, this`heldLocks, this`tasks, this`events,
               this`touched, store
      ensures Durable()
      ensures r.PersistenceError? <==> store.Failures() != old(store.Failures())
      ensures r.PersistenceError? || (r.Finished? && Concluded(F(), plan, tasks, r.outcome) && Scheduled())
      ensures r.Finished? ==> Forward(old(tasks), tasks) && plan.status.PlanInterrupted?
      ensures r.Finished? ==> Telling(outcomes, true, None)
    {
      hide Refusals, Agreed, Sound, Graphed, Declared, Drained, NobodyInterrupted, Forward, Remaining, AnyOpen,
           SkipsHaveReasons, InterruptedByUser, Concluded, Durable, Told, OnlyWaitingTold;
      ToldBeforeTheDrain(tasks0, tasks, order, launched, outcomes, true, None);
      interrupting := true;
      var ok := Drain(outcomes);
      if !ok { return PersistenceError; }
      DrainKeepsReasons(old(tasks), tasks, outcomes, interrupting, stopReason);
      DrainIsForward(old(tasks), tasks, outcomes, interrupting, stopReason);
      DrainTold(tasks0, old(tasks), tasks, order, launched, outcomes, true, None);
      ghost var drained := tasks;
      ok := MarkRemaining(INTERRUPTED, UserInterrupt);
      if !ok { return PersistenceError; }
      WaitingStepsTold(drained, policy, INTERRUPTED, UserInterrupt);
      WaitingTold(tasks0, drained, tasks, order, launched, outcomes, true, None);
      InterruptedRemain(drained);
      ForwardTrans(old(tasks), drained, tasks);
      r := Conclude(PlanInterrupted, Some(StoppedByUser));
    }

    /** The deadline passed and the running tasks finished normally: nothing else starts. */
    method BudgetFailed(ghost outcomes: string -> WorkerEnd) returns (r: RunResult)
      requires Scheduled() && Durable() && (plan.status.PlanRunning? || plan.status.PlanPending?)
      requires running == {} && NobodyInterrupted(tasks) && SkipsHaveReasons(tasks)
      requires Telling(outcomes, false, None)
      modifies this`plan, this`planTouched, this`tasks, this`events, this`touched, store
      ensures Durable()
      ensures r.PersistenceError? <==> store.Failures() != old(store.Failures())
      ensures r.Finished? ==> Forward(old(tasks), tasks) && plan.status.PlanFailed?
      ensures r.Finished? ==> Telling(outcomes, false, None)
      ensures r.PersistenceError? || (r.Finished? && Concluded(F(), plan, tasks, r.outcome) && Scheduled())
    {
      hide Refusals, Agreed, Sound, Graphed, Declared, NobodyInterrupted, Forward, Remaining, AnyOpen, SkipsHaveReasons,
           SkippedBecause, Concluded, Durable, Told, OnlyWaitingTold;
      WaitingStepsTold(tasks, policy, SKIPPED, BudgetExceeded);
      SkippedRemain(tasks, BudgetExceeded);
      var ok := MarkRemaining(SKIPPED, BudgetExceeded);
      if !ok { return PersistenceError; }
      WaitingTold(tasks0, old(tasks), tasks, order, launched, outcomes, false, None);
      r := Conclude(PlanFailed, Some(DurationBudget));
    }

    /** Nothing runs any more: the plan is out of time, or complete. */
    method WindUp(ghost outcomes: string -> WorkerEnd) returns (r: RunResult)
      requires Scheduled() && Durable() && running == {} && Telling(outcomes, false, None)
      requires plan.status.PlanRunning? || (plan.status.PlanPending? && budgetExceeded)
      requires NobodyInterrupted(tasks) && SkipsHaveReasons(tasks)
      requires !budgetExceeded ==> Normal(tasks, policy) && Unstopped(tasks) && !AnyOpen(tasks)
      modifies this`plan, this`planTouched, this`tasks, this`events, this`touched, store
      ensures Durable()
      ensures r.PersistenceError? <==> store.Failures() != old(store.Failures())
      ensures r.PersistenceError? || (r.Finished? && Concluded(F(), plan, tasks, r.outcome) && Scheduled())
      ensures r.Finished? ==> if budgetExceeded then plan.status.PlanFailed? else plan.status.PlanCompleted?
      ensures r.Finished? ==> Telling(outcomes, false, None)
    {
      hide *;
      if budgetExceeded {
        r := BudgetFailed(outcomes);
      } else {
        r := Completed();
      }
    }

    // ---- the loop ------------------------------------------------------------------------------------------------

    /** The workers that came back are recorded in declaration order; the first stop condition ends the
        plan, with the workers not recorded yet among those it drains. */
    method EndBatch(done: set<string>, outcomes: string -> WorkerEnd) returns (r: Option<RunResult>)
      requires Scheduled() && Durable() && plan.status.PlanRunning? && !interrupting && stopReason.None?
      requires done != {} && done <= running && NobodyInterrupted(tasks) && SkipsHaveReasons(tasks)
      requires !budgetExceeded ==> Normal(tasks, policy) && Unstopped(tasks)
      requires Telling(outcomes, false, None)
      modifies this`plan, this`planTouched, this`stopReason, this`running, this`heldLocks, this`tasks, this`events,
               this`touched, store
      ensures Durable()
      ensures r.None? ==> Telling(outcomes, false, None)
      ensures r.Some? && r.value.Finished? ==> Telling(outcomes, false, plan.stopReason)
      ensures r.Some? && r.value.PersistenceError? <==> store.Failures() != old(store.Failures())
      ensures r.None? ==>
                && Scheduled() && NobodyInterrupted(tasks) && SkipsHaveReasons(tasks) && plan == old(plan)
                && stopReason.None?
      ensures r.None? && !budgetExceeded ==> Normal(tasks, policy) && Unstopped(tasks)
      ensures r.None? ==> Open(tasks) < Open(old(tasks)) && running == old(running) - done
      ensures r.Some? ==> r.value.PersistenceError?
                          || (r.value.Finished? && Concluded(F(), plan, tasks, r.value.outcome) && Scheduled())
      ensures r.Some? && r.value.Finished? ==> plan.status.StoppedOnFailure? || plan.status.ShortCircuitedOnSuccess?
    {
      hide Refusals, Agreed, Sound, Declared, Graphed, Normal, Unstopped, NobodyInterrupted, EndedWell, EndChange,
           Concluded, Open, Durable, StopCondition, SkipsHaveReasons, Told, Recorded, StreamsStored, Stopper;
      SoundFacts(F(), tasks, running, heldLocks, launched);
      RunningAreDeclared(F(), tasks, running);
      ghost var ended: set<string> := {};
      for i := 0 to |order|
        invariant Scheduled() && Durable() && NobodyInterrupted(tasks) && SkipsHaveReasons(tasks)
        invariant plan == old(plan) && stopReason.None? && Telling(outcomes, false, None)
        invariant store.Failures() == old(store.Failures())
        invariant !budgetExceeded ==> Normal(tasks, policy) && Unstopped(tasks)
        invariant forall t :: t in running <==> t in old(running) && t !in ended
        invariant forall t :: t in ended <==> t in done && t in order[..i]
        invariant Open(tasks) <= Open(old(tasks)) - ended
      {
        var t := order[i];
        assert order[..i + 1] == order[..i] + [t];
        if t in done {
          SoundFacts(F(), tasks, running, heldLocks, launched);
          NotSeenYet(F(), tasks, i);
          ghost var e, before := outcomes(t).ended, tasks;
          var ok := Finish(t, outcomes(t), !budgetExceeded);
          if !ok { return Some(PersistenceError); }
          EndTold(tasks0, before, tasks, order, launched, outcomes, false, None, t, !budgetExceeded);
          AfterEnd(before, tasks, t, e, stopReason, !budgetExceeded);
          ended := ended + {t};
          if budgetExceeded {
            PlainEndKeepsReasons(before, tasks, t, e, stopReason);
          } else {
            NormalInterruptsNobody(tasks, policy);
            var stop := StopCondition(tasks[t]);
            if stop.Some? {
              StopTarget(tasks, t);
              var result := Stop(t, stop.value.0, stop.value.1, outcomes);
              return Some(result);
            }
            StillUnstopped(before, tasks, t, e, stopReason);
          }
        }
      }
      assert order[..|order|] == order;
      assert ended == done;
      r := None;
    }

    lemma Listed()
      requires Scheduled()
      ensures Declared(order, tasks)
    {
      SoundFacts(F(), tasks, running, heldLocks, launched);
    }

    /** At the end of a run no worker is busy and no lock is held. */
    lemma Idle(r: RunResult)
      requires r.Finished? ==> Concluded(F(), plan, tasks, r.outcome) && Scheduled()
      ensures r.Finished? ==> running == {} && heldLocks == {}
    {
      if r.Finished? {
        ConcludedIsIdle(F(), plan, tasks, r.outcome, running, heldLocks, launched);
      }
    }

    /** The plan is started if it was not, and whatever can be launched is. */
    method Proceed(ghost outcomes: string -> WorkerEnd) returns (ok: bool, stalled: bool)
      requires Scheduled() && Durable() && !budgetExceeded && (plan.status.PlanPending? || plan.status.PlanRunning?)
      requires plan.status.PlanPending? ==> running == {} && forall t | t in tasks :: tasks[t].status.PENDING?
      requires plan.status.PlanRunning? ==> Normal(tasks, policy) && Unstopped(tasks)
      requires NobodyInterrupted(tasks) && SkipsHaveReasons(tasks) && Telling(outcomes, false, None)
      modifies this`plan, this`planTouched, this`running, this`heldLocks, this`launched, this`tasks, this`events,
               this`touched, store
      ensures Durable() && !stalled
      ensures ok ==> Telling(outcomes, false, None)
      ensures ok <==> store.Failures() == old(store.Failures())
      ensures ok ==> Scheduled() && plan.status.PlanRunning? && Normal(tasks, policy) && Unstopped(tasks)
      ensures ok ==> NobodyInterrupted(tasks) && SkipsHaveReasons(tasks) && (running != {} || !AnyOpen(tasks))
      ensures ok ==> Open(tasks) == Open(old(tasks))
    {
      hide *;
      stalled := false;
      TellingIs(outcomes);
      if plan.status.PlanPending? {
        Listed();
        StartIsNormal(order, tasks, policy);
        StartUnstopped(tasks, policy);
        ghost var pending := tasks;
        WaitingStepsTold(tasks, policy, SKIPPED, Restart);
        ok := StartPlan();
        if !ok { return; }
        WaitingTold(tasks0, pending, tasks, order, launched, outcomes, false, None);
      }
      ghost var waiting, earlier := tasks, launched;
      ok, stalled := LaunchReady();
      if !ok { return; }
      LaunchesTold(tasks0, waiting, earlier, tasks, launched, order, outcomes);
      TellingIs(outcomes);
      LaunchesKeepOpen(waiting, tasks);
      NormalInterruptsNobody(tasks, policy);
    }

    lemma EndsSignalled(signals: Signals, already: bool, status: PlanState)
      requires status.PlanInterrupted? ==> already || signals.interruptAt.Some?
      requires status.PlanFailed? ==> signals.deadlineAt.Some?
      requires !status.PlanInterrupted? ==> !already
      requires already || signals.deadlineAt != Some(0) || status.PlanFailed?
      ensures Signalled(signals, already, status)
    {
    }

    /** The scheduling loop.  Whatever order the tasks finish in, with whatever outcomes, and whenever the
        deadline passes or the user interrupts, it ends, it never raises one of its internal errors, and
        it ends in a conclusion; a refused write ends it early, with memory, store and trail in step. */
    method Loop(signals: Signals, outcomes: string -> WorkerEnd) returns (r: RunResult)
      requires Scheduled() && Durable() && plan.status.PlanPending? && running == {}
      requires !interrupting && stopReason.None? && !budgetExceeded
      requires forall t | t in tasks :: tasks[t].status.PENDING?
      requires Telling(outcomes, false, None)
      modifies this, store
      ensures rank == old(rank) && Durable()
      ensures r.Finished? ==> Telling(outcomes, plan.status.PlanInterrupted?, StopOf(plan))
      ensures r.PersistenceError? <==> store.Failures() != old(store.Failures())
      ensures r.PersistenceError?
              || (r.Finished? && Concluded(F(), plan, tasks, r.outcome) && Scheduled() && running == {}
                 && heldLocks == {})
      ensures r.Finished? ==> Signalled(signals, old(interrupted), plan.status)
    {
      hide *;
      ghost var tasks1 := tasks;
      PendingInterruptsNobody(tasks);
      var round := 0;
      while true
        invariant old(interrupted) ==> interrupted && round == 0
        invariant interrupted ==> old(interrupted) || signals.interruptAt.Some?
        invariant budgetExceeded ==> signals.deadlineAt.Some?
        invariant round > 0 ==> signals.deadlineAt != Some(0)
        invariant round == 0 ==> interrupted == old(interrupted) && plan.status.PlanPending?
        invariant rank == old(rank) && Scheduled() && Durable() && !interrupting && stopReason.None?
        invariant NobodyInterrupted(tasks) && SkipsHaveReasons(tasks) && Telling(outcomes, false, None)
        invariant store.Failures() == old(store.Failures())
        invariant plan.status.PlanPending? ==> tasks == tasks1 && running == {}
        invariant plan.status.PlanPending? || plan.status.PlanRunning?
        invariant plan.status.PlanRunning? && !budgetExceeded ==> Normal(tasks, policy) && Unstopped(tasks)
        decreases Open(tasks), !interrupted
      {
        if interrupted {
          r := Interrupt(outcomes);
          break;
        }
        budgetExceeded := budgetExceeded || (signals.deadlineAt.Some? && signals.deadlineAt.value <= round);
        if !budgetExceeded {
          var ok, stalled := Proceed(outcomes);
          if stalled { return SchedulerStalled; }
          if !ok {
            r := PersistenceError;
            break;
          }
        }
        if running == {} {
          r := WindUp(outcomes);
          break;
        }
        // the environment: the interruption, or some of the running tasks
        interrupted := interrupted || (signals.interruptAt.Some? && signals.interruptAt.value <= round);
        round := round + 1;
        if !interrupted {
          var done: set<string> :| done != {} && done <= running;
          var ended := EndBatch(done, outcomes);
          if ended.Some? {
            r := ended.value;
            break;
          }
        }
      }
      Idle(r);
      StopOfPlan(plan);
      if r.Finished? { EndsSignalled(signals, old(interrupted), plan.status); }
    }

    /** One run of a fresh plan.  It is refused, before any write, exactly when the plan or a task cannot
        start or the dependencies cannot be scheduled; otherwise it terminates in a conclusion unless a
        write is refused.  The scheduler's internal errors are never raised. */
    method Run(signals: Signals, outcomes: string -> WorkerEnd) returns (r: RunResult)
      requires Fresh()
      modifies this, store
      ensures r.InvalidStart? <==> !old(Startable())
      ensures r.InvalidDependencies? <==>
              old(Startable() && !(Known(Dependencies(tasks)) && Acyclic(Dependencies(tasks))
                                   && (policy.Sequential? ==> Backward(order, Dependencies(tasks)))))
      ensures r.InvalidStart? || r.InvalidDependencies? ==>
                events == [] && tasks == old(tasks) && store.tables == old(store.tables)
      ensures Durable()
      ensures r.PersistenceError? <==> store.Failures() != old(store.Failures())
      ensures r.InvalidStart? || r.InvalidDependencies? || r.PersistenceError?
              || (r.Finished? && Concluded(F(), plan, tasks, r.outcome) && Scheduled() && running == {}
                 && heldLocks == {})
      ensures r.Finished? ==> Signalled(signals, old(interrupted), plan.status)
      ensures r.Finished? ==>
                Told(old(tasks), tasks, order, launched, outcomes, plan.status.PlanInterrupted?, StopOf(plan))
      ensures store.faults == {} ==> !r.PersistenceError?
    {
      if store.faults == {} { NothingRefused(store.faults); }
      FreshIsDurable();
      CanStartExactly();
      if !CanStart() { return InvalidStart; }
      AllPending();
      var verdict, topological := ValidateDependencies(order, Dependencies(tasks), policy.Sequential?);
      if !verdict.Accepted? { return InvalidDependencies(verdict); }
      rank := OrderGivesRank(Dependencies(tasks), topological);
      NothingToTell(tasks, order, outcomes);
      hide Refusals, Agreed, Durable, Concluded;
      FreshIsScheduled();
      r := Loop(signals, outcomes);
    }

    lemma FreshIsDurable()
      requires Fresh()
      ensures Durable()
    {
    }

    lemma AllPending()
      requires Fresh() && CanStart()
      ensures plan.status.PlanPending? && forall t | t in tasks :: tasks[t].status.PENDING?
    {
    }

    lemma FreshIsScheduled()
      requires Fresh() && CanStart() && Known(Dependencies(tasks)) && Ranked(Dependencies(tasks), rank)
      requires policy.Sequential? ==> Backward(order, Dependencies(tasks))
      ensures Scheduled()
    {
      AllPending();
      assert Running(tasks) == {};
      assert forall t, l :: !Holder(tasks, t, l);
      assert forall k | 0 <= k < |order| :: order[k] in order;
    }
  }
}

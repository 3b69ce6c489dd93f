/**
 The scheduler's state as a whole — graph, workers, locks, launch history — and what each step keeps.
 */
module Steps {
  import opened Options
  import opened States
  import opened Records
  import opened DependencyGraph
  import opened Schedule
  import opened Trail
  import opened Settling

  /** What does not change during a run: the declaration order, the policy, the number of workers, the
      plan, and a rank that decreases along every dependency. */
  datatype Frame = Frame(order: seq<string>, policy: ExecutionPolicy, workers: nat, planId: string,
                         ghost rank: map<string, nat>)

  ghost predicate Graphed(f: Frame, tasks: Tasks) {
    && Declared(f.order, tasks)
    && Ranked(Dependencies(tasks), f.rank)
    && (f.policy.Sequential? ==> Backward(f.order, Dependencies(tasks)) && f.workers == 1)
    && f.workers >= 1
    && forall t | t in tasks :: tasks[t].decl.planId == f.planId
  }

  /** Every reachable scheduler state. */
  ghost predicate Sound(f: Frame, tasks: Tasks, running: set<string>, held: set<string>, launched: seq<nat>) {
    && Graphed(f, tasks)
    && Occupancy(tasks, running, held, f.workers)
    && History(f.order, tasks, f.policy, launched)
    && LaunchedOnlyWhenReady(tasks)
  }

  lemma SoundFacts(f: Frame, tasks: Tasks, running: set<string>, held: set<string>, launched: seq<nat>)
    requires Sound(f, tasks, running, held, launched)
    ensures Declared(f.order, tasks) && Graphed(f, tasks)
    ensures running == Running(tasks) && running <= Open(tasks)
    ensures forall t | t in running :: t in tasks && tasks[t].status.RUNNING?
    ensures forall t | t in f.order :: t in tasks
  {
  }

  lemma SameGraph(f: Frame, before: Tasks, after: Tasks)
    requires Graphed(f, before) && SameDeclarations(before, after)
    ensures Graphed(f, after)
  {
    SameDeclarationsSameGraph(f.order, before, after);
  }

  lemma LaunchIsSound(f: Frame, tasks: Tasks, running: set<string>, held: set<string>, launched: seq<nat>, k: nat)
    requires Sound(f, tasks, running, held, launched) && |running| < f.workers
    requires LaunchablePosition(f.order, tasks, f.policy.Sequential?, k)
    requires var lock := tasks[f.order[k]].decl.resourceLock; lock.Some? ==> lock.value !in held
    ensures var t := f.order[k];
            var lock := tasks[t].decl.resourceLock;
            Sound(f, tasks[t := tasks[t].(status := RUNNING)], running + {t},
                  if lock.Some? then held + {lock.value} else held, launched + [k])
  {
    var t := f.order[k];
    var after := tasks[t := tasks[t].(status := RUNNING)];
    LaunchKeepsOccupancy(tasks, running, held, f.workers, t);
    LaunchKeepsHistory(f.order, tasks, f.policy, launched, k);
    SameGraph(f, tasks, after);
    SameCompleted(tasks, after);
  }

  lemma EndIsForward(before: Tasks, after: Tasks, t: string)
    requires EndsAs(before, after, t)
    ensures Forward(before, after)
    ensures forall u | u in before && Ran(after[u].status) :: Ran(before[u].status)
  {
  }

  lemma EndIsSound(f: Frame, before: Tasks, after: Tasks, running: set<string>, held: set<string>, launched: seq<nat>,
                   t: string)
    requires Sound(f, before, running, held, launched) && EndsAs(before, after, t)
    ensures var lock := before[t].decl.resourceLock;
            Sound(f, after, running - {t}, if lock.Some? then held - {lock.value} else held, launched)
    ensures Forward(before, after)
  {
    hide Occupancy, History, LaunchedOnlyWhenReady, Declared, Ranked, Backward, Dependencies;
    EndIsForward(before, after, t);
    EndKeepsOccupancy(before, after, running, held, f.workers, t);
    ForwardKeepsHistory(f.order, before, after, f.policy, launched);
    ForwardKeepsReadiness(before, after);
    SameGraph(f, before, after);
  }

  /** Only tasks that were still schedulable changed, and none of them was launched. */
  ghost predicate OnlyWaitingChanged(before: Tasks, after: Tasks) {
    && SameDeclarations(before, after)
    && forall t | t in before && after[t] != before[t] ::
         Schedulable(before[t].status) && !Ran(after[t].status)
  }

  lemma WaitingChangesAreSound(f: Frame, before: Tasks, after: Tasks, running: set<string>, held: set<string>,
                               launched: seq<nat>)
    requires Sound(f, before, running, held, launched) && OnlyWaitingChanged(before, after)
    ensures Sound(f, after, running, held, launched)
    ensures Forward(before, after)
  {
    assert forall t, l :: Holder(after, t, l) <==> Holder(before, t, l);
    assert Running(after) == Running(before);
    SameGraph(f, before, after);
    ForwardKeepsHistory(f.order, before, after, f.policy, launched);
    ForwardKeepsReadiness(before, after);
    assert Occupancy(after, running, held, f.workers) by {
      forall l | l in held ensures exists t :: Holder(after, t, l) {
        var t :| Holder(before, t, l);
        assert Holder(after, t, l);
      }
    }
  }

  lemma PropagationOnlyTouchesWaiting(tasks: Tasks)
    ensures OnlyWaitingChanged(tasks, Released(tasks))
    ensures forall u | u in tasks && Released(tasks)[u] != tasks[u] :: Propagated(tasks[u], Released(tasks)[u])
    ensures forall to: TaskState, reason | to.SKIPPED? || to.INTERRUPTED? ::
              OnlyWaitingChanged(tasks, Remaining(tasks, to, reason))
  {
  }

  lemma StartedOnlyTouchesWaiting(tasks: Tasks, policy: ExecutionPolicy)
    requires forall t | t in tasks :: tasks[t].status.PENDING?
    ensures OnlyWaitingChanged(tasks, Started(tasks, policy))
    ensures policy.Sequential? ==> Started(tasks, policy) == tasks
  {
  }

  lemma ClosureOnlyTouchesWaiting(before: Tasks, after: Tasks)
    requires SkippedClosure(before, after)
    ensures OnlyWaitingChanged(before, after)
    ensures forall u | u in before && after[u] != before[u] :: Propagated(before[u], after[u])
  {
  }

  /** After a failure, the only task anybody could be doomed by is the one that just failed. */
  lemma OnlyTheRootIsNew(before: Tasks, ended: Tasks, policy: ExecutionPolicy, root: string)
    requires Normal(before, policy) && EndsAs(before, ended, root)
    ensures forall t, d | t in ended && Schedulable(ended[t].status) && Blame(ended, t, d) :: d == root
  {
    forall t, d | t in ended && Schedulable(ended[t].status) && Blame(ended, t, d) ensures d == root {
      assert d != root ==> Blame(before, t, d);
    }
  }

  lemma EndStateIsFinal(e: Ended, interrupting: bool, stop: Option<StopReason>)
    ensures TaskTerminal(EndState(e, interrupting, stop).0)
    ensures !interrupting ==> !EndState(e, interrupting, stop).0.INTERRUPTED?
  {
  }

  /** What the runner knows after a task ended, whatever became of its dependants. */
  ghost predicate EndedWell(before: Tasks, after: Tasks, c: Change, propagate: bool) {
    var t := c.taskId;
    && t in before && t in after && after[t] == Changed(before[t], c) && TaskTerminal(c.to)
    && before[t].status.RUNNING?
    && Forward(before, after)
    && (!propagate ==> after == before[t := after[t]])
    && forall u | u in after && u != t && after[u] != before[u] :: Propagated(before[u], after[u])
  }

  /** A waiting task was released, or skipped for some reason. */
  ghost predicate Propagated(before: TaskRecord, after: TaskRecord) {
    && Schedulable(before.status)
    && (after == before.(status := PENDING) || after == before.(status := SKIPPED, reason := after.reason))
  }

  lemma EndedPlainly(before: Tasks, after: Tasks, c: Change)
    requires EndsAs(before, after, c.taskId) && after[c.taskId] == Changed(before[c.taskId], c)
    ensures EndedWell(before, after, c, false)
  {
  }

  lemma EndedThenPropagated(before: Tasks, ended: Tasks, after: Tasks, c: Change)
    requires EndedWell(before, ended, c, false) && Forward(before, after) && OnlyWaitingChanged(ended, after)
    requires forall u | u in ended && after[u] != ended[u] :: Propagated(ended[u], after[u])
    ensures EndedWell(before, after, c, true)
  {
  }

  lemma ForwardTrans(a: Tasks, b: Tasks, c: Tasks)
    requires Forward(a, b) && Forward(b, c)
    ensures Forward(a, c)
  {
  }

  lemma LaunchIsLegal(tasks: Tasks, t: string)
    requires t in tasks && tasks[t].status.PENDING?
    ensures var c := Change(t, RUNNING, None, None);
            Legal(tasks, [c]) && AllChanged(tasks, [c]) == tasks[t := tasks[t].(status := RUNNING)]
  {
    SingleChange(tasks, Change(t, RUNNING, None, None));
  }

  /** Between the two, some pending tasks were launched and nothing else happened. */
  ghost predicate OnlyLaunches(before: Tasks, after: Tasks) {
    && SameDeclarations(before, after)
    && forall t | t in before && after[t] != before[t] ::
         before[t].status.PENDING? && after[t] == before[t].(status := RUNNING)
  }

  lemma NoLaunchYet(tasks: Tasks)
    ensures OnlyLaunches(tasks, tasks)
  {
  }

  lemma OneMoreLaunch(start: Tasks, before: Tasks, t: string)
    requires OnlyLaunches(start, before) && t in before && before[t].status.PENDING?
    ensures OnlyLaunches(start, before[t := before[t].(status := RUNNING)])
  {
  }

  lemma LaunchesKeepOpen(before: Tasks, after: Tasks)
    requires OnlyLaunches(before, after)
    ensures Open(after) == Open(before)
    ensures Unstopped(before) ==> Unstopped(after)
  {
  }

  lemma NothingRunningNothingHeld(f: Frame, tasks: Tasks, held: set<string>, launched: seq<nat>)
    requires Sound(f, tasks, {}, held, launched)
    ensures held == {} && forall t | t in tasks :: !tasks[t].status.RUNNING?
  {
    forall t | t in tasks ensures !tasks[t].status.RUNNING? {
      assert t in Running(tasks) ==> t in {};
    }
    assert forall l | l in held :: exists t :: Holder(tasks, t, l);
    assert held == {};
  }

  /** A plan that runs normally, with nothing running and something left to do, has a launchable task
      whose lock is free: the scheduler never stalls. */
  lemma NeverStalled(f: Frame, tasks: Tasks, held: set<string>, launched: seq<nat>) returns (k: nat)
    requires Sound(f, tasks, {}, held, launched) && Normal(tasks, f.policy) && AnyOpen(tasks)
    ensures held == {} && LaunchablePosition(f.order, tasks, f.policy.Sequential?, k)
  {
    NothingRunningNothingHeld(f, tasks, held, launched);
    k := SomethingLaunchable(f.order, tasks, f.policy, f.rank);
  }

  lemma RunningAreDeclared(f: Frame, tasks: Tasks, running: set<string>)
    requires Graphed(f, tasks) && forall t | t in running :: t in tasks
    ensures forall t | t in running :: t in f.order
  {
  }

  lemma NotSeenYet(f: Frame, tasks: Tasks, i: nat)
    requires Graphed(f, tasks) && i < |f.order|
    ensures f.order[i] !in f.order[..i]
    ensures f.order[i] in tasks && tasks[f.order[i]].decl.taskId == f.order[i]
  {
    assert f.order[i] in f.order;
  }
}

/**
 What a plan looks like between two steps of its runner: predicates over the current task records,
 and the facts about them that no single step of the runner shows.
 */
module Schedule {
  import opened Options
  import opened States
  import opened Records
  import opened DependencyGraph

  type Tasks = map<string, TaskRecord>

  function Dependencies(tasks: Tasks): Graph {
    map t | t in tasks :: tasks[t].decl.dependsOn
  }

  function Statuses(tasks: Tasks): map<string, TaskState> {
    map t | t in tasks :: tasks[t].status
  }

  /** The records of one plan: listed once each, known by their own identifier, no dangling dependency. */
  ghost predicate Declared(order: seq<string>, tasks: Tasks) {
    && Distinct(order)
    && (forall t :: t in order <==> t in tasks)
    && (forall t | t in tasks :: tasks[t].decl.taskId == t)
    && Known(Dependencies(tasks))
  }

  ghost predicate SameDeclarations(before: Tasks, after: Tasks) {
    before.Keys == after.Keys && forall t | t in before :: before[t].decl == after[t].decl
  }

  predicate DependenciesCompleted(tasks: Tasks, t: string)
    requires t in tasks
  {
    forall d | d in tasks[t].decl.dependsOn :: d in tasks && tasks[d].status.COMPLETED?
  }

  /** `d` is a direct dependency of `t` that ended otherwise than `COMPLETED`. */
  predicate Blame(tasks: Tasks, t: string, d: string) {
    && t in tasks && d in tasks[t].decl.dependsOn && d in tasks
    && TaskTerminal(tasks[d].status) && !tasks[d].status.COMPLETED?
  }

  /** The states only a launch leads to (an interrupted task may never have been launched). */
  predicate Ran(s: TaskState) {
    s.RUNNING? || s.COMPLETED? || s.FAILED? || s.TIMED_OUT? || s.CANCELLED?
  }

  // ---- the invariant of a plan that runs normally ---------------------------------------------

  ghost predicate LaunchedOnlyWhenReady(tasks: Tasks) {
    forall t | t in tasks && Ran(tasks[t].status) :: DependenciesCompleted(tasks, t)
  }

  ghost predicate NobodyDoomed(tasks: Tasks) {
    forall t, d | t in tasks && Schedulable(tasks[t].status) :: !Blame(tasks, t, d)
  }

  ghost predicate WaitsForAReason(tasks: Tasks, policy: ExecutionPolicy) {
    && (forall t | t in tasks && tasks[t].status.WAITING_DEPENDENCY? ::
          policy.Parallel? && !DependenciesCompleted(tasks, t))
    && (forall t | t in tasks && tasks[t].status.PENDING? && policy.Parallel? :: DependenciesCompleted(tasks, t))
  }

  function SkipReason(state: TaskState, d: string): Reason {
    if TaskFailure(state) then DependencyFailed(d) else DependencySkipped(d)
  }

  ghost predicate SkippedFor(tasks: Tasks, t: string, d: string) {
    && Blame(tasks, t, d)
    && tasks[t].reason == Some(if tasks[d].status in {FAILED, TIMED_OUT} then DependencyFailed(d)
                               else DependencySkipped(d))
  }

  ghost predicate SkipsHaveReasons(tasks: Tasks) {
    forall t | t in tasks && tasks[t].status.SKIPPED? :: RightlySkipped(tasks, t)
  }

  /** The reason names a direct dependency, and its label matches the state that dependency ended in. */
  ghost predicate RightlySkipped(tasks: Tasks, t: string) {
    exists d :: SkippedFor(tasks, t, d)
  }

  ghost predicate NobodyInterrupted(tasks: Tasks) {
    forall t | t in tasks :: !tasks[t].status.INTERRUPTED?
  }

  ghost predicate Normal(tasks: Tasks, policy: ExecutionPolicy) {
    && LaunchedOnlyWhenReady(tasks)
    && NobodyDoomed(tasks)
    && WaitsForAReason(tasks, policy)
    && SkipsHaveReasons(tasks)
    && NobodyInterrupted(tasks)
  }

  // ---- skip propagation is exactly transitive ------------------------------------------------------

  /** A chain of dependencies from `w[0]` down to a task that ran and did not complete. */
  ghost predicate FailureChain(tasks: Tasks, w: seq<string>) {
    && |w| >= 2 && Walk(Dependencies(tasks), w)
    && w[|w| - 1] in tasks
    && Ran(tasks[w[|w| - 1]].status) && TaskTerminal(tasks[w[|w| - 1]].status)
    && !tasks[w[|w| - 1]].status.COMPLETED?
  }

  lemma {:induction false} SkippedHasChain(order: seq<string>, tasks: Tasks, policy: ExecutionPolicy,
                                           rank: map<string, nat>, t: string) returns (w: seq<string>)
    requires Declared(order, tasks) && Normal(tasks, policy) && Ranked(Dependencies(tasks), rank)
    requires t in tasks && tasks[t].status.SKIPPED?
    ensures FailureChain(tasks, w) && w[0] == t
    decreases rank[t]
  {
    var d :| SkippedFor(tasks, t, d);
    assert Edge(Dependencies(tasks), t, d);
    if tasks[d].status.SKIPPED? {
      var rest := SkippedHasChain(order, tasks, policy, rank, d);
      w := [t] + rest;
    } else {
      w := [t, d];
    }
  }

  lemma {:induction false} ChainMeansSkipped(order: seq<string>, tasks: Tasks, policy: ExecutionPolicy, w: seq<string>)
    requires Declared(order, tasks) && Normal(tasks, policy) && FailureChain(tasks, w)
    ensures w[0] in tasks && tasks[w[0]].status.SKIPPED?
    decreases |w|
  {
    var t, d := w[0], w[1];
    assert Edge(Dependencies(tasks), t, d);
    if |w| > 2 {
      var rest := w[1..];
      assert forall i | 0 <= i < |rest| :: rest[i] == w[i + 1];
      ChainMeansSkipped(order, tasks, policy, rest);
    }
    assert Blame(tasks, t, d);
  }

  /** While the plan runs normally, the skipped tasks are exactly those with a direct or transitive
      dependency that ran and ended otherwise than `COMPLETED`. */
  lemma SkippedExactly(order: seq<string>, tasks: Tasks, policy: ExecutionPolicy, rank: map<string, nat>, t: string)
    requires Declared(order, tasks) && Normal(tasks, policy) && Ranked(Dependencies(tasks), rank)
    requires t in tasks
    ensures tasks[t].status.SKIPPED? <==> exists w :: FailureChain(tasks, w) && w[0] == t
  {
    if tasks[t].status.SKIPPED? {
      var w := SkippedHasChain(order, tasks, policy, rank, t);
    }
    if w :| FailureChain(tasks, w) && w[0] == t {
      ChainMeansSkipped(order, tasks, policy, w);
    }
  }

  // ---- no stall -------------------------------------------------------------------------------------

  predicate LaunchablePosition(order: seq<string>, tasks: Tasks, sequential: bool, k: nat)
    requires forall t | t in order :: t in tasks
  {
    && k < |order| && tasks[order[k]].status.PENDING? && DependenciesCompleted(tasks, order[k])
    && (sequential ==> forall j | 0 <= j < k :: TaskTerminal(tasks[order[j]].status))
  }

  ghost predicate AnyOpen(tasks: Tasks) {
    exists t :: t in tasks && !TaskTerminal(tasks[t].status)
  }

  lemma {:induction false} LowestOpen(tasks: Tasks, rank: map<string, nat>, open: set<string>) returns (t: string)
    requires open != {} && forall u | u in open :: u in rank
    ensures t in open && forall u | u in open :: rank[t] <= rank[u]
    decreases |open|
  {
    var u :| u in open;
    if open == {u} {
      t := u;
    } else {
      assert open - {u} != {};
      t := LowestOpen(tasks, rank, open - {u});
      if rank[u] < rank[t] { t := u; }
    }
  }

  /** A plan that runs normally with nothing running and something left to do has a launchable task —
      in a sequential plan, the first one left. */
  lemma SomethingLaunchable(order: seq<string>, tasks: Tasks, policy: ExecutionPolicy, rank: map<string, nat>)
    returns (k: nat)
    requires Declared(order, tasks) && Normal(tasks, policy) && Ranked(Dependencies(tasks), rank)
    requires policy.Sequential? ==> Backward(order, Dependencies(tasks))
    requires forall t | t in tasks :: !tasks[t].status.RUNNING?
    requires AnyOpen(tasks)
    ensures LaunchablePosition(order, tasks, policy.Sequential?, k)
  {
    if policy.Sequential? {
      k := FirstOpen(order, tasks);
      var t := order[k];
      forall d | d in tasks[t].decl.dependsOn ensures d in tasks && tasks[d].status.COMPLETED? {
        assert d in Dependencies(tasks)[t];
        assert d in order[..k];
        assert !Blame(tasks, t, d);
      }
    } else {
      var open := set t | t in tasks && !TaskTerminal(tasks[t].status);
      var some :| some in tasks && !TaskTerminal(tasks[some].status);
      assert some in open;
      var t := LowestOpen(tasks, rank, open);
      forall d | d in tasks[t].decl.dependsOn ensures d in tasks && tasks[d].status.COMPLETED? {
        assert Edge(Dependencies(tasks), t, d);
        assert d !in open;
        assert !Blame(tasks, t, d);
      }
      k :| 0 <= k < |order| && order[k] == t;
    }
  }

  lemma FirstOpen(order: seq<string>, tasks: Tasks) returns (k: nat)
    requires (forall t :: t in order <==> t in tasks) && AnyOpen(tasks)
    ensures k < |order| && !TaskTerminal(tasks[order[k]].status)
    ensures forall j | 0 <= j < k :: TaskTerminal(tasks[order[j]].status)
  {
    k := 0;
    var t :| t in tasks && !TaskTerminal(tasks[t].status);
    var m :| 0 <= m < |order| && order[m] == t;
    while TaskTerminal(tasks[order[k]].status)
      invariant k <= m
      invariant forall j | 0 <= j < k :: TaskTerminal(tasks[order[j]].status)
      decreases m - k
    {
      k := k + 1;
    }
  }
}

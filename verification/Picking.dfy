/** The choice of the tasks to launch in one round of the scheduler. */
module Picking {
  import opened Options
  import opened States
  import opened Records
  import opened DependencyGraph
  import opened Schedule
  import opened Settling
  import opened Steps

  predicate LockFree(tasks: Tasks, held: set<string>, t: string)
    requires t in tasks
  {
    var lock := tasks[t].decl.resourceLock;
    lock.Some? ==> lock.value !in held
  }

  predicate SameLock(tasks: Tasks, t: string, u: string)
    requires t in tasks && u in tasks
  {
    tasks[t].decl.resourceLock.Some? && tasks[t].decl.resourceLock == tasks[u].decl.resourceLock
  }

  /** `at` lists increasing declaration positions of launchable tasks whose locks are free and different.
      Only the first pick of a sequential plan can be its first non-terminal task. */
  ghost predicate Picks(order: seq<string>, tasks: Tasks, held: set<string>, sequential: bool, at: seq<nat>)
    requires forall t | t in order :: t in tasks
  {
    && (forall i | 0 <= i < |at| :: Pick(order, tasks, held, sequential && i == 0, at[i]))
    && (forall i, j | 0 <= i < j < |at| :: at[i] < at[j] < |order| && !SameLock(tasks, order[at[i]], order[at[j]]))
  }

  predicate Pick(order: seq<string>, tasks: Tasks, held: set<string>, sequential: bool, k: nat)
    requires forall t | t in order :: t in tasks
  {
    LaunchablePosition(order, tasks, sequential, k) && LockFree(tasks, held, order[k])
  }

  lemma OneMorePick(order: seq<string>, tasks: Tasks, held: set<string>, sequential: bool, at: seq<nat>,
                    pickedLocks: set<string>, k: nat)
    requires forall t | t in order :: t in tasks
    requires Picks(order, tasks, held, sequential, at) && k < |order|
    requires forall i | 0 <= i < |at| :: at[i] < k && LocksSeen(order, tasks, pickedLocks, at[i])
    requires Pick(order, tasks, held, sequential && at == [], k) && LockFree(tasks, pickedLocks, order[k])
    ensures Picks(order, tasks, held, sequential, at + [k])
  {
    var now := at + [k];
    forall i | 0 <= i < |now| ensures Pick(order, tasks, held, sequential && i == 0, now[i]) {
      if i < |at| { assert Pick(order, tasks, held, sequential && i == 0, at[i]); }
    }
  }

  predicate LocksSeen(order: seq<string>, tasks: Tasks, pickedLocks: set<string>, k: nat)
    requires forall t | t in order :: t in tasks
  {
    k < |order| && (tasks[order[k]].decl.resourceLock.Some? ==> tasks[order[k]].decl.resourceLock.value in pickedLocks)
  }

  /** Some picked task took the lock this one needs. */
  ghost predicate LockPicked(order: seq<string>, tasks: Tasks, at: seq<nat>, k: nat)
    requires forall t | t in order :: t in tasks
  {
    k < |order| && exists j :: j in at && j < |order| && SameLock(tasks, order[j], order[k])
  }

  /** Launchable tasks in declaration order, up to the free workers; a sequential plan never looks past
      its first non-terminal task. */
  method Ready(order: seq<string>, tasks: Tasks, held: set<string>, sequential: bool, free: int)
    returns (at: seq<nat>)
    requires forall t | t in order :: t in tasks
    ensures Picks(order, tasks, held, sequential, at)
    ensures |at| <= if free > 0 then free else 0
    ensures free > 0 && (exists k :: Pick(order, tasks, held, sequential, k)) ==> at != []
    ensures !sequential && |at| < free ==>
              forall k: nat | Pick(order, tasks, held, false, k) :: k in at || LockPicked(order, tasks, at, k)
  {
    at := [];
    var pickedLocks: set<string> := {};
    var slots, i, blocked := free, 0, false;
    while i < |order| && slots > 0 && !blocked
      invariant i <= |order| && slots == free - |at| && (at != [] ==> slots >= 0)
      invariant Picks(order, tasks, held, sequential, at)
      invariant forall m | 0 <= m < |at| :: at[m] < i && LocksSeen(order, tasks, pickedLocks, at[m])
      invariant forall l | l in pickedLocks :: exists j ::
                  j in at && j < |order| && tasks[order[j]].decl.resourceLock == Some(l)
      invariant at == [] ==> forall k: nat | k < i :: !Pick(order, tasks, held, sequential, k)
      invariant !sequential ==> forall k: nat | k < i && Pick(order, tasks, held, false, k) && k !in at ::
                  !LockFree(tasks, pickedLocks, order[k])
      invariant sequential && !blocked && at == [] ==> forall k | 0 <= k < i :: TaskTerminal(tasks[order[k]].status)
      invariant blocked ==> sequential && i > 0 && !TaskTerminal(tasks[order[i - 1]].status)
      decreases |order| - i
    {
      var t := order[i];
      var lock := tasks[t].decl.resourceLock;
      if !TaskTerminal(tasks[t].status) {
        if tasks[t].status.PENDING? && DependenciesCompleted(tasks, t) && LockFree(tasks, held, t)
          && LockFree(tasks, pickedLocks, t) {
          OneMorePick(order, tasks, held, sequential, at, pickedLocks, i);
          at := at + [i];
          slots := slots - 1;
          if lock.Some? {
            assert i in at;
            pickedLocks := pickedLocks + {lock.value};
          }
        } else if sequential {
          blocked := true;
        }
      }
      i := i + 1;
    }
    if !sequential && |at| < free {
      forall k: nat | Pick(order, tasks, held, false, k) ensures k in at || LockPicked(order, tasks, at, k) { }
    }
  }

  lemma FirstPick(order: seq<string>, tasks: Tasks, held: set<string>, sequential: bool, at: seq<nat>)
    requires forall t | t in order :: t in tasks
    requires at != [] && Picks(order, tasks, held, sequential, at)
    ensures at[0] < |order| && Pick(order, tasks, held, sequential, at[0])
    ensures tasks[order[at[0]]].status.PENDING?
  {
    assert Pick(order, tasks, held, sequential && 0 == 0, at[0]);
  }

  /** Launching the first pick leaves the other ones launchable. */
  lemma LaunchKeepsPicks(order: seq<string>, tasks: Tasks, held: set<string>, sequential: bool, at: seq<nat>)
    requires Distinct(order) && forall t | t in order :: t in tasks
    requires at != [] && Picks(order, tasks, held, sequential, at) && (sequential ==> |at| == 1)
    ensures at[0] < |order|
    ensures var t := order[at[0]];
            var lock := tasks[t].decl.resourceLock;
            Picks(order, tasks[t := tasks[t].(status := RUNNING)], if lock.Some? then held + {lock.value} else held,
                  sequential, at[1..])
  {
    assert Pick(order, tasks, held, sequential, at[0]);
    var t := order[at[0]];
    var lock := tasks[t].decl.resourceLock;
    var after, now, rest := tasks[t := tasks[t].(status := RUNNING)], if lock.Some? then held + {lock.value}
      else held, at[1..];
    forall i | 0 <= i < |rest| ensures Pick(order, after, now, sequential && i == 0, rest[i]) {
      assert rest[i] == at[i + 1];
      assert Pick(order, tasks, held, sequential && i + 1 == 0, at[i + 1]);
      assert at[0] < at[i + 1];
      assert order[at[0]] != order[at[i + 1]];
      assert !SameLock(tasks, order[at[0]], order[at[i + 1]]);
    }
  }

  lemma AtMostOnePickInSequence(f: Frame, tasks: Tasks, busy: nat, at: seq<nat>)
    requires Graphed(f, tasks) && |at| <= (if f.workers > busy then f.workers - busy else 0)
    ensures f.policy.Sequential? ==> |at| <= 1
  {
  }

  /** A plan that runs normally with nothing running: when no task can be picked, none is left. */
  lemma NothingPickedNothingLeft(f: Frame, tasks: Tasks, held: set<string>, launched: seq<nat>)
    requires Sound(f, tasks, {}, held, launched) && Normal(tasks, f.policy)
    requires !exists k :: Pick(f.order, tasks, held, f.policy.Sequential?, k)
    ensures !AnyOpen(tasks)
  {
    if AnyOpen(tasks) {
      var k := NeverStalled(f, tasks, held, launched);
      assert Pick(f.order, tasks, held, f.policy.Sequential?, k);
    }
  }
}

/**
 What the records tell about the workers: a task that was handed to one carries what its worker came back
 with, and a task that was not carries nothing of the kind.
 */
module Outcomes {
  import opened Options
  import opened States
  import opened Records
  import opened Schedule
  import opened Trail
  import opened Settling
  import opened Steps
  import opened Conclusion

  /** The task was handed to a worker. */
  ghost predicate Begun(order: seq<string>, launched: seq<nat>, t: string) {
    exists i :: 0 <= i < |launched| && launched[i] < |order| && order[launched[i]] == t
  }

  /** A task that was handed to a worker is still running, or is recorded as the worker came back: while the
      plan ran, or in the drain that ended it.  Any other task still waits, or was skipped or interrupted
      where it stood. */
  ghost predicate TaskTold(start: TaskRecord, now: TaskRecord, e: Ended, begun: bool, interrupting: bool,
                           stop: Option<StopReason>) {
    if begun then
      || now == start.(status := RUNNING)
      || Recorded(e, start, now, false, None)
      || Recorded(e, start, now, interrupting, stop)
    else
      || (now.status in {PENDING, WAITING_DEPENDENCY} && now == start.(status := now.status))
      || (now.status in {SKIPPED, INTERRUPTED} && now == start.(status := now.status, reason := now.reason))
  }

  ghost predicate Told(start: Tasks, tasks: Tasks, order: seq<string>, launched: seq<nat>,
                       outcomes: string -> WorkerEnd, interrupting: bool, stop: Option<StopReason>) {
    && tasks.Keys == start.Keys
    && forall t | t in start ::
         TaskTold(start[t], tasks[t], outcomes(t).ended, Begun(order, launched, t), interrupting, stop)
  }

  lemma NothingToTell(tasks: Tasks, order: seq<string>, outcomes: string -> WorkerEnd)
    requires forall t | t in tasks :: tasks[t].status.PENDING?
    ensures Told(tasks, tasks, order, [], outcomes, false, None)
  {
  }

  /** Whatever the drain that comes will be. */
  lemma ToldBeforeTheDrain(start: Tasks, tasks: Tasks, order: seq<string>, launched: seq<nat>,
                           outcomes: string -> WorkerEnd, interrupting: bool, stop: Option<StopReason>)
    requires Told(start, tasks, order, launched, outcomes, false, None)
    ensures Told(start, tasks, order, launched, outcomes, interrupting, stop)
  {
    hide Recorded, Begun;
  }

  /** A task that may be scheduled was not handed to a worker; the running ones were. */
  lemma ToldApart(start: TaskRecord, now: TaskRecord, e: Ended, begun: bool, interrupting: bool,
                  stop: Option<StopReason>)
    requires TaskTold(start, now, e, begun, interrupting, stop)
    ensures Schedulable(now.status) ==> !begun && now == start.(status := now.status)
    ensures now.status.RUNNING? ==> begun && now == start.(status := RUNNING)
  {
  }

  /** Waiting tasks that are moved on, skipped or interrupted. */
  ghost predicate OnlyWaitingTold(before: Tasks, after: Tasks) {
    && after.Keys == before.Keys
    && forall t | t in before && after[t] != before[t] ::
         && Schedulable(before[t].status)
         && (|| (after[t].status in {PENDING, WAITING_DEPENDENCY} && after[t] == before[t].(status := after[t].status))
             || (&& after[t].status in {SKIPPED, INTERRUPTED}
                 && after[t] == before[t].(status := after[t].status, reason := after[t].reason)))
  }

  lemma WaitingTold(start: Tasks, before: Tasks, after: Tasks, order: seq<string>, launched: seq<nat>,
                    outcomes: string -> WorkerEnd, interrupting: bool, stop: Option<StopReason>)
    requires Told(start, before, order, launched, outcomes, interrupting, stop) && OnlyWaitingTold(before, after)
    ensures Told(start, after, order, launched, outcomes, interrupting, stop)
  {
    hide Recorded, Begun;
    forall t | t in start
      ensures TaskTold(start[t], after[t], outcomes(t).ended, Begun(order, launched, t), interrupting, stop)
    {
      ToldApart(start[t], before[t], outcomes(t).ended, Begun(order, launched, t), interrupting, stop);
    }
  }

  lemma WaitingStepsTold(tasks: Tasks, policy: ExecutionPolicy, to: TaskState, reason: Reason)
    ensures (forall t | t in tasks :: tasks[t].status.PENDING?) ==> OnlyWaitingTold(tasks, Started(tasks, policy))
    ensures to.SKIPPED? || to.INTERRUPTED? ==> OnlyWaitingTold(tasks, Remaining(tasks, to, reason))
  {
  }

  /** The tasks that began are the ones before, and the ones that are running now. */
  ghost predicate LaunchesNoted(order: seq<string>, before: Tasks, launched: seq<nat>, after: Tasks, now: seq<nat>) {
    && OnlyLaunches(before, after)
    && forall t | t in before :: Begun(order, now, t) <==> Begun(order, launched, t) || after[t] != before[t]
  }

  lemma NoLaunchNoted(order: seq<string>, tasks: Tasks, launched: seq<nat>)
    ensures LaunchesNoted(order, tasks, launched, tasks, launched)
  {
  }

  lemma OneMoreNoted(order: seq<string>, start: Tasks, launched: seq<nat>, before: Tasks, so: seq<nat>, k: nat)
    requires LaunchesNoted(order, start, launched, before, so)
    requires k < |order| && order[k] in before && before[order[k]].status.PENDING?
    ensures var t := order[k];
            LaunchesNoted(order, start, launched, before[t := before[t].(status := RUNNING)], so + [k])
  {
    var t := order[k];
    var after, now := before[t := before[t].(status := RUNNING)], so + [k];
    OneMoreLaunch(start, before, t);
    forall u | u in start ensures Begun(order, now, u) <==> Begun(order, so, u) || u == t {
      assert now[|so|] == k;
      if Begun(order, so, u) {
        var i :| 0 <= i < |so| && so[i] < |order| && order[so[i]] == u;
        assert now[i] == so[i];
      }
    }
    assert start[t] == before[t];
  }

  lemma LaunchesTold(start: Tasks, before: Tasks, launched: seq<nat>, after: Tasks, now: seq<nat>, order: seq<string>,
                     outcomes: string -> WorkerEnd)
    requires Told(start, before, order, launched, outcomes, false, None)
    requires LaunchesNoted(order, before, launched, after, now)
    ensures Told(start, after, order, now, outcomes, false, None)
  {
    hide Recorded, Begun;
    forall t | t in start ensures TaskTold(start[t], after[t], outcomes(t).ended, Begun(order, now, t), false, None) {
      ToldApart(start[t], before[t], outcomes(t).ended, Begun(order, launched, t), false, None);
    }
  }

  lemma EndTold(start: Tasks, before: Tasks, after: Tasks, order: seq<string>, launched: seq<nat>,
                outcomes: string -> WorkerEnd, interrupting: bool, stop: Option<StopReason>, t: string, propagate: bool)
    requires Told(start, before, order, launched, outcomes, interrupting, stop)
    requires EndedWell(before, after, EndChange(t, outcomes(t).ended, interrupting, stop), propagate)
    ensures Told(start, after, order, launched, outcomes, interrupting, stop)
  {
    hide Begun, EndState;
    var e := outcomes(t).ended;
    assert EndChange(t, e, interrupting, stop).taskId == t;
    EndIsRecorded(before[t], t, e, interrupting, stop);
    forall u | u in start
      ensures TaskTold(start[u], after[u], outcomes(u).ended, Begun(order, launched, u), interrupting, stop)
    {
      ToldApart(start[u], before[u], outcomes(u).ended, Begun(order, launched, u), interrupting, stop);
      if u == t {
        RecordedFromStart(e, start[t], before[t], after[t], interrupting, stop);
      }
    }
  }

  lemma RecordedFromStart(e: Ended, start: TaskRecord, before: TaskRecord, now: TaskRecord, interrupting: bool,
                          stop: Option<StopReason>)
    requires Recorded(e, before, now, interrupting, stop) && before == start.(status := RUNNING)
    ensures Recorded(e, start, now, interrupting, stop)
  {
  }

  lemma DrainTold(start: Tasks, before: Tasks, after: Tasks, order: seq<string>, launched: seq<nat>,
                  outcomes: string -> WorkerEnd, interrupting: bool, stop: Option<StopReason>)
    requires Told(start, before, order, launched, outcomes, interrupting, stop)
    requires Drained(before, after, outcomes, interrupting, stop)
    ensures Told(start, after, order, launched, outcomes, interrupting, stop)
  {
    hide Begun, Recorded;
    forall u | u in start
      ensures TaskTold(start[u], after[u], outcomes(u).ended, Begun(order, launched, u), interrupting, stop)
    {
      ToldApart(start[u], before[u], outcomes(u).ended, Begun(order, launched, u), interrupting, stop);
      if after[u] != before[u] {
        RecordedFromStart(outcomes(u).ended, start[u], before[u], after[u], interrupting, stop);
      }
    }
  }
}

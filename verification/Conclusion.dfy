/** How a run ends, and what the end says about its tasks. */
module Conclusion {
  import opened Options
  import opened States
  import opened Records
  import opened DependencyGraph
  import opened Schedule
  import opened Trail
  import opened Settling
  import opened Steps
  import C = ResultCollector

  datatype PlanOutcome = PlanOutcome(
    plan: PlanRecord, tasks: seq<TaskRecord>, result: Option<C.Content>, interrupted: bool, budgetExceeded: bool)

  function InOrder(order: seq<string>, tasks: Tasks): (rs: seq<TaskRecord>)
    requires forall t | t in order :: t in tasks
    ensures |rs| == |order|
    ensures forall i | 0 <= i < |rs| :: rs[i] == tasks[order[i]]
  {
    seq(|order|, i requires 0 <= i < |order| => tasks[order[i]])
  }

  /** Some of the running tasks ended, each as its worker came back; nothing else changed. */
  ghost predicate Drained(before: Tasks, after: Tasks, outcomes: string -> WorkerEnd, interrupting: bool,
                          stop: Option<StopReason>) {
    && Forward(before, after)
    && forall t | t in before && after[t] != before[t] ::
         before[t].status.RUNNING? && Recorded(outcomes(t).ended, before[t], after[t], interrupting, stop)
  }

  lemma NothingDrained(tasks: Tasks, outcomes: string -> WorkerEnd, interrupting: bool, stop: Option<StopReason>)
    ensures Drained(tasks, tasks, outcomes, interrupting, stop)
  {
  }

  lemma OneMoreDrained(start: Tasks, before: Tasks, after: Tasks, outcomes: string -> WorkerEnd, interrupting: bool,
                       stop: Option<StopReason>, t: string)
    requires Drained(start, before, outcomes, interrupting, stop)
    requires t in before && before[t].status.RUNNING?
    requires EndedWell(before, after, EndChange(t, outcomes(t).ended, interrupting, stop), false)
    ensures Drained(start, after, outcomes, interrupting, stop)
  {
    var c := EndChange(t, outcomes(t).ended, interrupting, stop);
    assert c.taskId == t;
    EndIsRecorded(before[t], t, outcomes(t).ended, interrupting, stop);
    hide Recorded, EndChange, Changed;
    ForwardTrans(start, before, after);
    assert start[t] == before[t];
  }

  lemma DrainInterruptsNobody(before: Tasks, after: Tasks, outcomes: string -> WorkerEnd, stop: Option<StopReason>)
    requires NobodyInterrupted(before) && Drained(before, after, outcomes, false, stop)
    ensures NobodyInterrupted(after)
  {
    forall t | t in after ensures !after[t].status.INTERRUPTED? {
      if after[t] != before[t] { assert after[t].status != INTERRUPTED; }
    }
  }

  /** With nothing running, marking what remains ends every task. */
  lemma MarkedIsTerminal(before: Tasks, to: TaskState, reason: Reason)
    requires (forall t | t in before :: !before[t].status.RUNNING?) && TaskTerminal(to)
    ensures !AnyOpen(Remaining(before, to, reason))
    ensures NobodyInterrupted(before) && !to.INTERRUPTED? ==> NobodyInterrupted(Remaining(before, to, reason))
  {
  }

  /** Every skipped task was skipped for a dependency, or for the one reason that ended the plan. */
  ghost predicate SkippedBecause(tasks: Tasks, reason: Reason) {
    forall t | t in tasks && tasks[t].status.SKIPPED? :: RightlySkipped(tasks, t) || tasks[t].reason == Some(reason)
  }

  ghost predicate InterruptedByUser(tasks: Tasks) {
    forall t | t in tasks && tasks[t].status.INTERRUPTED? :: tasks[t].reason == Some(UserInterrupt)
  }

  /** Why the plan is in this final state, and its tasks in theirs. */
  ghost predicate Explained(status: PlanState, stop: Option<StopReason>, tasks: Tasks, policy: ExecutionPolicy) {
    match status
    case PlanCompleted => Normal(tasks, policy) && Unstopped(tasks) && stop.None?
    case StoppedOnFailure | ShortCircuitedOnSuccess =>
      && stop.Some? && (exists t :: Stopper(tasks, t, status, stop.value))
      && SkippedBecause(tasks, PlanStopped(stop))
    case PlanInterrupted => stop == Some(StoppedByUser) && SkipsHaveReasons(tasks) && InterruptedByUser(tasks)
    case PlanFailed => stop == Some(DurationBudget) && SkippedBecause(tasks, BudgetExceeded)
    case _ => false
  }

  lemma RecordedNotSkipped(e: Ended, before: TaskRecord, now: TaskRecord, interrupting: bool, stop: Option<StopReason>)
    requires Recorded(e, before, now, interrupting, stop)
    ensures now.status in {COMPLETED, FAILED, TIMED_OUT, CANCELLED, INTERRUPTED}
    ensures now.status.INTERRUPTED? ==> now.reason == Some(UserInterrupt)
  {
  }

  /** Draining neither skips anybody nor takes a reason away. */
  lemma DrainKeepsReasons(before: Tasks, after: Tasks, outcomes: string -> WorkerEnd, interrupting: bool,
                          stop: Option<StopReason>)
    requires SkipsHaveReasons(before) && Drained(before, after, outcomes, interrupting, stop)
    ensures SkipsHaveReasons(after)
    ensures NobodyInterrupted(before) ==> InterruptedByUser(after)
  {
    hide Recorded, RightlySkipped;
    forall t | t in after && after[t] != before[t]
      ensures !after[t].status.SKIPPED? && (after[t].status.INTERRUPTED? ==> after[t].reason == Some(UserInterrupt))
    {
      RecordedNotSkipped(outcomes(t).ended, before[t], after[t], interrupting, stop);
    }
    ReasonsStay(before, after);
  }

  lemma SkippedRemain(before: Tasks, reason: Reason)
    requires SkipsHaveReasons(before)
    ensures SkippedBecause(Remaining(before, SKIPPED, reason), reason)
  {
    var after := Remaining(before, SKIPPED, reason);
    forall t | t in after && after[t].status.SKIPPED? && after[t] == before[t] ensures RightlySkipped(after, t) {
      BlameRemains(before, after, t);
    }
  }

  lemma InterruptedRemain(before: Tasks)
    requires SkipsHaveReasons(before) && InterruptedByUser(before)
    ensures SkipsHaveReasons(Remaining(before, INTERRUPTED, UserInterrupt))
    ensures InterruptedByUser(Remaining(before, INTERRUPTED, UserInterrupt))
  {
    var after := Remaining(before, INTERRUPTED, UserInterrupt);
    forall t | t in after && after[t].status.SKIPPED? ensures RightlySkipped(after, t) {
      assert after[t] == before[t];
      BlameRemains(before, after, t);
    }
  }

  lemma BlameRemains(before: Tasks, after: Tasks, t: string)
    requires t in before && t in after && after[t] == before[t] && RightlySkipped(before, t)
    requires forall u | u in before && TaskTerminal(before[u].status) :: u in after && after[u] == before[u]
    ensures RightlySkipped(after, t)
  {
    var d :| SkippedFor(before, t, d);
    assert SkippedFor(after, t, d);
  }

  /** A task that ended without propagation was not skipped. */
  lemma PlainEndKeepsReasons(before: Tasks, after: Tasks, t: string, e: Ended, stop: Option<StopReason>)
    requires SkipsHaveReasons(before) && EndedWell(before, after, EndChange(t, e, false, stop), false)
    ensures SkipsHaveReasons(after)
  {
    assert EndChange(t, e, false, stop).taskId == t;
    ReasonsStay(before, after);
  }

  ghost predicate Stopper(tasks: Tasks, t: string, status: PlanState, reason: StopReason) {
    t in tasks && Stops(tasks[t], status, reason)
  }

  lemma StopperStays(before: Tasks, after: Tasks, t: string, status: PlanState, reason: StopReason)
    requires Stopper(before, t, status, reason) && Forward(before, after)
    ensures Stopper(after, t, status, reason)
  {
  }

  /** The single result of a plan: one list per fate, in declaration order. */
  function ContentOf(plan: PlanRecord, tasks: seq<TaskRecord>): C.Content {
    C.Content(plan.planId, plan.status, C.ResultsOf(C.Select(tasks, C.Results)), C.RefsOf(C.Select(tasks, C.Skipped)),
              C.RefsOf(C.Select(tasks, C.Cancelled)), C.RefsOf(C.Select(tasks, C.Interrupted)), plan.stopReason)
  }

  /** Everything the caller of a finished run may rely on. */
  ghost predicate Concluded(f: Frame, plan: PlanRecord, tasks: Tasks, o: PlanOutcome) {
    && (forall t | t in f.order :: t in tasks)
    && PlanTerminal(plan.status) && !AnyOpen(tasks)
    && Explained(plan.status, plan.stopReason, tasks, f.policy)
    && o.plan == plan && o.tasks == InOrder(f.order, tasks)
    && plan.counters == C.Tally(o.tasks) && C.Counted(plan.counters, o.tasks)
    && (o.interrupted <==> plan.status.PlanInterrupted?)
    && (o.budgetExceeded <==> plan.status.PlanFailed?)
    && (o.result.None? <==> o.interrupted)
    && (o.result.Some? ==> NobodyInterrupted(tasks) && o.result.value == ContentOf(plan, o.tasks))
  }

  lemma {:induction false} NoneInterruptedNoneListed(tasks: seq<TaskRecord>)
    requires forall i | 0 <= i < |tasks| :: !tasks[i].status.INTERRUPTED?
    ensures C.Select(tasks, C.Interrupted) == []
  {
    if tasks != [] {
      NoneInterruptedNoneListed(tasks[..|tasks| - 1]);
    }
  }

  /** On every run that was not interrupted the result lists partition the plan, the interrupted list is
      empty, and the persisted counters are the lengths of the lists and add up to the task count. */
  lemma ResultCoversThePlan(f: Frame, plan: PlanRecord, tasks: Tasks, o: PlanOutcome)
    requires Concluded(f, plan, tasks, o) && !o.interrupted
    ensures var r := o.result.value;
            && r.interrupted == []
            && |r.results| == plan.counters.completed + plan.counters.failed
            && |r.skipped| == plan.counters.skipped && |r.cancelled| == plan.counters.cancelled
            && |r.results| + |r.skipped| + |r.cancelled| == plan.counters.tasks == |f.order|
    ensures multiset(C.Select(o.tasks, C.Results)) + multiset(C.Select(o.tasks, C.Skipped))
            + multiset(C.Select(o.tasks, C.Cancelled)) == multiset(o.tasks)
  {
    forall i | 0 <= i < |o.tasks| ensures TaskTerminal(o.tasks[i].status) && !o.tasks[i].status.INTERRUPTED? {
      assert f.order[i] in f.order;
    }
    C.ListsPartition(o.tasks);
    C.CountersMatchLists(o.tasks);
    NoneInterruptedNoneListed(o.tasks);
  }

  /** The states that the end of a run leaves are consistent with a stop condition only if the plan was
      stopped, interrupted or out of time: a `COMPLETED` plan skipped exactly what a failure doomed. */
  lemma CompletedPlanSkips(f: Frame, plan: PlanRecord, tasks: Tasks, o: PlanOutcome, t: string)
    requires Concluded(f, plan, tasks, o) && plan.status.PlanCompleted? && Graphed(f, tasks) && t in tasks
    ensures tasks[t].status.SKIPPED? <==> exists w :: FailureChain(tasks, w) && w[0] == t
    ensures forall target, reason :: !Stops(tasks[t], target, reason)
  {
    hide Stops;
    SkippedExactly(f.order, tasks, f.policy, f.rank, t);
  }

  lemma AllTerminalAndOwn(f: Frame, tasks: Tasks)
    requires Graphed(f, tasks) && !AnyOpen(tasks)
    ensures forall i | 0 <= i < |f.order| ::
              tasks[f.order[i]].decl.planId == f.planId && TaskTerminal(tasks[f.order[i]].status)
  {
    forall i | 0 <= i < |f.order|
      ensures tasks[f.order[i]].decl.planId == f.planId && TaskTerminal(tasks[f.order[i]].status)
    {
      assert f.order[i] in f.order;
    }
  }

  lemma NormalInterruptsNobody(tasks: Tasks, policy: ExecutionPolicy)
    requires Normal(tasks, policy)
    ensures NobodyInterrupted(tasks) && SkipsHaveReasons(tasks)
  {
  }

  lemma DrainIsForward(before: Tasks, after: Tasks, outcomes: string -> WorkerEnd, interrupting: bool,
                       stop: Option<StopReason>)
    requires Drained(before, after, outcomes, interrupting, stop)
    ensures Forward(before, after)
  {
  }

  lemma StopperExplains(status: PlanState, tasks: Tasks, policy: ExecutionPolicy, t: string, reason: StopReason)
    requires status.StoppedOnFailure? || status.ShortCircuitedOnSuccess?
    requires Stopper(tasks, t, status, reason) && SkippedBecause(tasks, PlanStopped(Some(reason)))
    ensures Explained(status, Some(reason), tasks, policy)
  {
  }

  lemma IsConcluded(f: Frame, plan: PlanRecord, tasks: Tasks, content: Option<C.Content>)
    requires (forall t | t in f.order :: t in tasks) && PlanTerminal(plan.status) && !AnyOpen(tasks)
    requires Explained(plan.status, plan.stopReason, tasks, f.policy)
    requires plan.counters == C.Tally(InOrder(f.order, tasks))
    requires content == if plan.status.PlanInterrupted? then None else Some(ContentOf(plan, InOrder(f.order, tasks)))
    requires !plan.status.PlanInterrupted? ==> NobodyInterrupted(tasks)
    ensures Concluded(f, plan, tasks,
              PlanOutcome(plan, InOrder(f.order, tasks), content, plan.status.PlanInterrupted?,
                          plan.status.PlanFailed?))
  {
    hide C.Tally, C.Counted, Explained;
    C.TallyIsCounted(InOrder(f.order, tasks));
  }

  /** A task that ended in a run without interruption: one open task less, and nobody interrupted. */
  lemma AfterEnd(before: Tasks, after: Tasks, t: string, e: Ended, stop: Option<StopReason>, propagate: bool)
    requires EndedWell(before, after, EndChange(t, e, false, stop), propagate)
    ensures t in after && Open(after) <= Open(before) - {t}
    ensures NobodyInterrupted(before) ==> NobodyInterrupted(after)
  {
    EndStateIsFinal(e, false, stop);
    assert EndChange(t, e, false, stop).taskId == t;
  }

  lemma StopTarget(tasks: Tasks, t: string)
    requires t in tasks && StopCondition(tasks[t]).Some?
    ensures var (target, reason) := StopCondition(tasks[t]).value;
            (target.StoppedOnFailure? || target.ShortCircuitedOnSuccess?) && Stopper(tasks, t, target, reason)
  {
    StopsExactly(tasks[t], StopCondition(tasks[t]).value.0, StopCondition(tasks[t]).value.1);
  }

  lemma StillUnstopped(before: Tasks, after: Tasks, t: string, e: Ended, stop: Option<StopReason>)
    requires Unstopped(before) && EndedWell(before, after, EndChange(t, e, false, stop), true)
    requires t in after && StopCondition(after[t]).None?
    ensures Unstopped(after)
  {
    hide Stops, StopCondition, EndState, Changed;
    assert EndChange(t, e, false, stop).taskId == t;
    forall target, reason ensures !Stops(after[t], target, reason) { StopsExactly(after[t], target, reason); }
    forall u, target, reason | u in after && u != t ensures !Stops(after[u], target, reason) {
      if after[u] != before[u] { WaitingStopsNothing(after[u], target, reason); }
    }
  }

  lemma WaitingStopsNothing(t: TaskRecord, target: PlanState, reason: StopReason)
    requires t.status in {PENDING, WAITING_DEPENDENCY, RUNNING, SKIPPED}
    ensures !Stops(t, target, reason)
  {
  }

  lemma PendingInterruptsNobody(tasks: Tasks)
    requires forall t | t in tasks :: tasks[t].status.PENDING?
    ensures NobodyInterrupted(tasks) && SkipsHaveReasons(tasks)
  {
  }

  lemma StartUnstopped(tasks: Tasks, policy: ExecutionPolicy)
    requires forall t | t in tasks :: tasks[t].status.PENDING?
    ensures Unstopped(Started(tasks, policy)) && Open(Started(tasks, policy)) == Open(tasks)
  {
  }

  /** At the end of a run every task is terminal, so no worker is busy and no lock is held. */
  lemma ConcludedIsIdle(f: Frame, plan: PlanRecord, tasks: Tasks, o: PlanOutcome, running: set<string>,
                        held: set<string>,
                        launched: seq<nat>)
    requires Concluded(f, plan, tasks, o) && Sound(f, tasks, running, held, launched)
    ensures running == {} && held == {}
  {
    assert forall t | t in running :: t in tasks && !TaskTerminal(tasks[t].status);
    assert running == {};
    NothingRunningNothingHeld(f, tasks, held, launched);
  }
}

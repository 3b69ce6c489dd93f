/**
 One execution result per terminal plan: the tasks that ran, and the ones that were skipped, cancelled
 or interrupted, each list in declaration order.
 */
module ResultCollector {
  import opened Options
  import opened States
  import opened Records
  import opened Settling

  datatype Execution = RanToEnd | NotStarted | TimedOutExecution | Stopped

  datatype TaskResult = TaskResult(
    taskId: string, status: TaskState, execution: Execution, exitCode: Option<int>,
    failureIsVerdict: bool, timedOut: bool, reason: Option<Reason>)

  /** A task without a stored reason is explained by its state. */
  datatype RefReason = Given(reason: Reason) | StateName(state: TaskState)

  datatype TaskRef = TaskRef(taskId: string, reason: RefReason, execution: Execution)

  datatype Content = Content(
    planId: string, status: PlanState, results: seq<TaskResult>,
    skipped: seq<TaskRef>, cancelled: seq<TaskRef>, interrupted: seq<TaskRef>, stopReason: Option<StopReason>)

  datatype Built =
    | Success(content: Content)
    | PlanWasInterrupted
    | PlanNotTerminal
    | ForeignTask(taskId: string)
    | TaskNotTerminal(taskId: string)

  /** The list a task state belongs to. */
  datatype Bucket = Results | Skipped | Cancelled | Interrupted | Unfinished

  function BucketOf(s: TaskState): Bucket {
    match s
    case COMPLETED | FAILED | TIMED_OUT => Results
    case SKIPPED => Skipped
    case CANCELLED => Cancelled
    case INTERRUPTED => Interrupted
    case PENDING | WAITING_DEPENDENCY | RUNNING => Unfinished
  }

  function Select(tasks: seq<TaskRecord>, b: Bucket): (out: seq<TaskRecord>)
    ensures |out| <= |tasks|
  {
    if tasks == [] then []
    else
      var t := tasks[|tasks| - 1];
      Select(tasks[..|tasks| - 1], b) + (if BucketOf(t.status) == b then [t] else [])
  }

  function ExecutionOf(t: TaskRecord): Execution {
    if t.timedOut || t.status.TIMED_OUT? then TimedOutExecution
    else if t.exitCode.None? then NotStarted
    else RanToEnd
  }

  /** A chunk request runs no command: the read is local and always happened. */
  function ResultOf(t: TaskRecord): TaskResult {
    if !t.decl.isCommand then
      TaskResult(t.decl.taskId, t.status, RanToEnd, None, false, false, t.reason)
    else
      TaskResult(t.decl.taskId, t.status, ExecutionOf(t), t.exitCode, FailureIsVerdict(t), t.timedOut, t.reason)
  }

  function RefOf(t: TaskRecord): TaskRef {
    TaskRef(t.decl.taskId, if t.reason.Some? then Given(t.reason.value) else StateName(t.status),
            if t.status.CANCELLED? || t.status.INTERRUPTED? then Stopped else NotStarted)
  }

  /** What the entry of a task that ran says.  A command timed out, never started or ran to its end, and its
      failure counts as an answer if a recognised program gave a non-zero exit code; a chunk always ran. */
  ghost predicate Entry(t: TaskRecord, r: TaskResult) {
    && r.taskId == t.decl.taskId && r.status == t.status && r.reason == t.reason
    && (t.decl.isCommand ==>
          && r.exitCode == t.exitCode && r.timedOut == t.timedOut
          && (r.execution == TimedOutExecution <==> t.timedOut || t.status == TIMED_OUT)
          && (r.execution == NotStarted <==> !t.timedOut && t.status != TIMED_OUT && t.exitCode == None)
          && r.execution != Stopped
          && (r.failureIsVerdict <==>
                t.status == FAILED && !t.timedOut && t.recognised && t.exitCode.Some? && t.exitCode != Some(0)))
    && (!t.decl.isCommand ==>
          r.exitCode == None && !r.timedOut && r.execution == RanToEnd && !r.failureIsVerdict)
  }

  /** And that of a task that did not run to an end: its reason, or its state for want of one. */
  ghost predicate Mention(t: TaskRecord, r: TaskRef) {
    && r.taskId == t.decl.taskId
    && (t.reason.Some? ==> r.reason == Given(t.reason.value))
    && (t.reason.None? ==> r.reason == StateName(t.status))
    && (r.execution == Stopped <==> t.status == CANCELLED || t.status == INTERRUPTED)
    && (r.execution == NotStarted <==> t.status != CANCELLED && t.status != INTERRUPTED)
  }

  /** Entry by entry, in this order. */
  ghost predicate Entries(tasks: seq<TaskRecord>, rs: seq<TaskResult>) {
    |rs| == |tasks| && forall i | 0 <= i < |tasks| :: Entry(tasks[i], rs[i])
  }

  ghost predicate Mentioned(tasks: seq<TaskRecord>, rs: seq<TaskRef>) {
    |rs| == |tasks| && forall i | 0 <= i < |tasks| :: Mention(tasks[i], rs[i])
  }

  lemma EntriesOf(tasks: seq<TaskRecord>)
    ensures Entries(tasks, ResultsOf(tasks)) && Mentioned(tasks, RefsOf(tasks))
  {
    forall i | 0 <= i < |tasks| ensures Entry(tasks[i], ResultOf(tasks[i])) && Mention(tasks[i], RefOf(tasks[i])) {
      EntryOf(tasks[i]);
    }
  }

  lemma EntryOf(t: TaskRecord)
    ensures Entry(t, ResultOf(t)) && Mention(t, RefOf(t))
  {
  }

  function ResultsOf(tasks: seq<TaskRecord>): (out: seq<TaskResult>)
    ensures |out| == |tasks|
  {
    seq(|tasks|, i requires 0 <= i < |tasks| => ResultOf(tasks[i]))
  }

  function RefsOf(tasks: seq<TaskRecord>): (out: seq<TaskRef>)
    ensures |out| == |tasks|
  {
    seq(|tasks|, i requires 0 <= i < |tasks| => RefOf(tasks[i]))
  }

  lemma NoTaskYet(tasks: seq<TaskRecord>)
    ensures forall b :: ResultsOf(Select(tasks[..0], b)) == [] && RefsOf(Select(tasks[..0], b)) == []
  {
  }

  /** What one more task adds to the lists. */
  lemma OneMoreTask(tasks: seq<TaskRecord>, i: nat)
    requires i < |tasks|
    ensures forall b :: ResultsOf(Select(tasks[..i + 1], b))
                        == ResultsOf(Select(tasks[..i], b))
                          + (if BucketOf(tasks[i].status) == b then [ResultOf(tasks[i])] else [])
    ensures forall b :: RefsOf(Select(tasks[..i + 1], b))
                        == RefsOf(Select(tasks[..i], b))
                          + (if BucketOf(tasks[i].status) == b then [RefOf(tasks[i])] else [])
  {
    hide ResultOf, RefOf, BucketOf;
    assert tasks[..i + 1][..i] == tasks[..i];
  }

  /** `tasks` are given in declaration order. */
  method Build(plan: PlanRecord, tasks: seq<TaskRecord>) returns (r: Built)
    ensures r.Success? <==>
            && PlanTerminal(plan.status) && !plan.status.PlanInterrupted?
            && forall i | 0 <= i < |tasks| :: tasks[i].decl.planId == plan.planId && TaskTerminal(tasks[i].status)
    ensures r.PlanWasInterrupted? <==> plan.status.PlanInterrupted?
    ensures r.Success? ==>
              && Entries(Select(tasks, Results), r.content.results)
              && Mentioned(Select(tasks, Skipped), r.content.skipped)
              && Mentioned(Select(tasks, Cancelled), r.content.cancelled)
              && Mentioned(Select(tasks, Interrupted), r.content.interrupted)
    ensures r.Success? ==> r.content == Content(
              plan.planId, plan.status, ResultsOf(Select(tasks, Results)), RefsOf(Select(tasks, Skipped)),
              RefsOf(Select(tasks, Cancelled)), RefsOf(Select(tasks, Interrupted)), plan.stopReason)
  {
    hide ResultOf, RefOf, ResultsOf, RefsOf, Select, Entries, Mentioned;
    NoTaskYet(tasks);
    EntriesOf(Select(tasks, Results));
    EntriesOf(Select(tasks, Skipped));
    EntriesOf(Select(tasks, Cancelled));
    EntriesOf(Select(tasks, Interrupted));
    if plan.status.PlanInterrupted? { return PlanWasInterrupted; }
    if plan.status.PlanPending? || plan.status.PlanRunning? { return PlanNotTerminal; }
    var results: seq<TaskResult> := [];
    var skipped: seq<TaskRef>, cancelled: seq<TaskRef>, interrupted: seq<TaskRef> := [], [], [];
    for i := 0 to |tasks|
      invariant forall k | 0 <= k < i :: tasks[k].decl.planId == plan.planId && TaskTerminal(tasks[k].status)
      invariant results == ResultsOf(Select(tasks[..i], Results))
      invariant skipped == RefsOf(Select(tasks[..i], Skipped))
      invariant cancelled == RefsOf(Select(tasks[..i], Cancelled))
      invariant interrupted == RefsOf(Select(tasks[..i], Interrupted))
    {
      var t := tasks[i];
      OneMoreTask(tasks, i);
      if t.decl.planId != plan.planId { return ForeignTask(t.decl.taskId); }
      if t.status.COMPLETED? || t.status.FAILED? || t.status.TIMED_OUT? {
        results := results + [ResultOf(t)];
      } else if t.status.SKIPPED? {
        skipped := skipped + [RefOf(t)];
      } else if t.status.CANCELLED? {
        cancelled := cancelled + [RefOf(t)];
      } else if t.status.INTERRUPTED? {
        interrupted := interrupted + [RefOf(t)];
      } else {
        return TaskNotTerminal(t.decl.taskId);
      }
    }
    assert tasks[..|tasks|] == tasks;
    r := Success(Content(plan.planId, plan.status, results, skipped, cancelled, interrupted, plan.stopReason));
  }

  // ---- the lists partition the plan ------------------------------------------------------------------

  /** The declaration positions of the tasks of one list. */
  function PositionsOf(tasks: seq<TaskRecord>, b: Bucket): (at: seq<nat>)
    ensures |at| == |Select(tasks, b)|
    ensures forall i | 0 <= i < |at| :: at[i] < |tasks|
  {
    if tasks == [] then []
    else
      var n := |tasks| - 1;
      PositionsOf(tasks[..n], b) + (if BucketOf(tasks[n].status) == b then [n] else [])
  }

  /** Each list is a subsequence of the plan: exactly the tasks of its bucket, in declaration order. */
  lemma {:induction false} SelectIsSubsequence(tasks: seq<TaskRecord>, b: Bucket)
    ensures forall i | 0 <= i < |Select(tasks, b)| :: Select(tasks, b)[i] == tasks[PositionsOf(tasks, b)[i]]
    ensures forall i, j | 0 <= i < j < |Select(tasks, b)| :: PositionsOf(tasks, b)[i] < PositionsOf(tasks, b)[j]
  {
    if tasks != [] {
      SelectIsSubsequence(tasks[..|tasks| - 1], b);
    }
  }

  lemma {:induction false} SelectIsComplete(tasks: seq<TaskRecord>, b: Bucket, k: nat)
    requires k < |tasks|
    ensures BucketOf(tasks[k].status) == b <==> k in PositionsOf(tasks, b)
  {
    var n := |tasks| - 1;
    var before := PositionsOf(tasks[..n], b);
    if k < n {
      SelectIsComplete(tasks[..n], b, k);
    } else {
      assert k !in before;
    }
  }

  lemma {:induction false} ListLengthsAdd(tasks: seq<TaskRecord>)
    requires forall i | 0 <= i < |tasks| :: TaskTerminal(tasks[i].status)
    ensures |Select(tasks, Results)| + |Select(tasks, Skipped)|
            + |Select(tasks, Cancelled)| + |Select(tasks, Interrupted)| == |tasks|
  {
    if tasks != [] {
      ListLengthsAdd(tasks[..|tasks| - 1]);
    }
  }

  lemma {:induction false} ListsHoldEverything(tasks: seq<TaskRecord>)
    requires forall i | 0 <= i < |tasks| :: TaskTerminal(tasks[i].status)
    ensures multiset(Select(tasks, Results)) + multiset(Select(tasks, Skipped))
            + multiset(Select(tasks, Cancelled)) + multiset(Select(tasks, Interrupted)) == multiset(tasks)
  {
    hide Select, BucketOf, TaskTerminal;
    if tasks == [] {
      NothingSelected(tasks);
    } else {
      ListsHoldEverything(tasks[..|tasks| - 1]);
      LastIsListed(tasks);
    }
  }

  lemma NothingSelected(tasks: seq<TaskRecord>)
    requires tasks == []
    ensures forall b :: Select(tasks, b) == []
  {
  }

  /** The last task goes to exactly one list. */
  lemma LastIsListed(tasks: seq<TaskRecord>)
    requires tasks != [] && TaskTerminal(tasks[|tasks| - 1].status)
    requires var front := tasks[..|tasks| - 1];
             multiset(Select(front, Results)) + multiset(Select(front, Skipped))
             + multiset(Select(front, Cancelled)) + multiset(Select(front, Interrupted)) == multiset(front)
    ensures multiset(Select(tasks, Results)) + multiset(Select(tasks, Skipped))
            + multiset(Select(tasks, Cancelled)) + multiset(Select(tasks, Interrupted)) == multiset(tasks)
  {
    hide Select, BucketOf, TaskTerminal;
    var n := |tasks| - 1;
    assert multiset(tasks) == multiset(tasks[..n]) + multiset{tasks[n]} by { assert tasks == tasks[..n] + [tasks[n]]; }
    SelectSnoc(tasks, Results);
    SelectSnoc(tasks, Skipped);
    SelectSnoc(tasks, Cancelled);
    SelectSnoc(tasks, Interrupted);
    OneBucket(tasks[n].status);
    AddedOnce(multiset(Select(tasks[..n], Results)), multiset(Select(tasks[..n], Skipped)),
              multiset(Select(tasks[..n], Cancelled)), multiset(Select(tasks[..n], Interrupted)), multiset{tasks[n]});
  }

  /** One more element in any one of four lists is one more element of their sum. */
  lemma AddedOnce<T>(a: multiset<T>, b: multiset<T>, c: multiset<T>, d: multiset<T>, t: multiset<T>)
    ensures (a + t) + b + c + d == (a + b + c + d) + t
    ensures a + (b + t) + c + d == (a + b + c + d) + t
    ensures a + b + (c + t) + d == (a + b + c + d) + t
    ensures a + b + c + (d + t) == (a + b + c + d) + t
  {
  }

  /** Every task of a finished plan is in exactly one list. */
  lemma ListsPartition(tasks: seq<TaskRecord>)
    requires forall i | 0 <= i < |tasks| :: TaskTerminal(tasks[i].status)
    ensures multiset(Select(tasks, Results)) + multiset(Select(tasks, Skipped))
            + multiset(Select(tasks, Cancelled)) + multiset(Select(tasks, Interrupted)) == multiset(tasks)
    ensures |Select(tasks, Results)| + |Select(tasks, Skipped)|
            + |Select(tasks, Cancelled)| + |Select(tasks, Interrupted)| == |tasks|
  {
    ListLengthsAdd(tasks);
    ListsHoldEverything(tasks);
  }

  lemma SelectSnoc(tasks: seq<TaskRecord>, b: Bucket)
    requires tasks != []
    ensures var n := |tasks| - 1;
            multiset(Select(tasks, b)) == if BucketOf(tasks[n].status) == b
              then multiset(Select(tasks[..n], b)) + multiset{tasks[n]}
                                          else multiset(Select(tasks[..n], b))
  {
    assert Select(tasks[..|tasks| - 1], b) + [] == Select(tasks[..|tasks| - 1], b);
  }

  lemma OneBucket(s: TaskState)
    requires TaskTerminal(s)
    ensures BucketOf(s) in {Results, Skipped, Cancelled, Interrupted}
  {
  }

  // ---- the persisted counters ----------------------------------------------------------------------------

  function CountOf(tasks: seq<TaskRecord>, s: TaskState): nat {
    if tasks == [] then 0
    else CountOf(tasks[..|tasks| - 1], s) + (if tasks[|tasks| - 1].status == s then 1 else 0)
  }

  function Tally(tasks: seq<TaskRecord>): Counters {
    Counters(|tasks|, CountOf(tasks, COMPLETED), CountOf(tasks, FAILED) + CountOf(tasks, TIMED_OUT),
             CountOf(tasks, SKIPPED), CountOf(tasks, CANCELLED), CountOf(tasks, INTERRUPTED))
  }

  /** The positions of the tasks in one of these states. */
  ghost function At(tasks: seq<TaskRecord>, states: set<TaskState>): set<int> {
    set i | 0 <= i < |tasks| && tasks[i].status in states
  }

  /** Each counter is the number of tasks in its states. */
  ghost predicate Counted(c: Counters, tasks: seq<TaskRecord>) {
    && c.tasks == |tasks|
    && c.completed == |At(tasks, {COMPLETED})|
    && c.failed == |At(tasks, {FAILED, TIMED_OUT})|
    && c.skipped == |At(tasks, {SKIPPED})|
    && c.cancelled == |At(tasks, {CANCELLED})|
    && c.interrupted == |At(tasks, {INTERRUPTED})|
  }

  lemma {:induction false} CountIs(tasks: seq<TaskRecord>, s: TaskState)
    ensures CountOf(tasks, s) == |At(tasks, {s})|
  {
    if tasks == [] {
      assert At(tasks, {s}) == {};
    } else {
      var n := |tasks| - 1;
      CountIs(tasks[..n], s);
      assert At(tasks, {s}) == At(tasks[..n], {s}) + if tasks[n].status == s then {n} else {};
    }
  }

  lemma TallyIsCounted(tasks: seq<TaskRecord>)
    ensures Counted(Tally(tasks), tasks)
  {
    CountIs(tasks, COMPLETED);
    CountIs(tasks, FAILED);
    CountIs(tasks, TIMED_OUT);
    CountIs(tasks, SKIPPED);
    CountIs(tasks, CANCELLED);
    CountIs(tasks, INTERRUPTED);
    var failed, late := At(tasks, {FAILED}), At(tasks, {TIMED_OUT});
    assert At(tasks, {FAILED, TIMED_OUT}) == failed + late && failed !! late;
  }

  /** The counters persisted with the plan are the lengths of the lists of its result. */
  lemma {:induction false} CountersMatchLists(tasks: seq<TaskRecord>)
    ensures var c := Tally(tasks);
            && c.completed + c.failed == |Select(tasks, Results)|
            && c.skipped == |Select(tasks, Skipped)|
            && c.cancelled == |Select(tasks, Cancelled)|
            && c.interrupted == |Select(tasks, Interrupted)|
  {
    if tasks != [] {
      CountersMatchLists(tasks[..|tasks| - 1]);
    }
  }
}

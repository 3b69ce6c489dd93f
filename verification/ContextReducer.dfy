/**
 The summary handed to a fresh conversation: assembled in full, then reduced one step at a time until its
 canonical serialisation fits the budget.
 */
module ContextReducer {
  import opened Options
  import opened States
  import opened CanonicalJson

  lemma FewerFields(a: seq<Field>, dropped: seq<Field>, b: seq<Field>)
    ensures Size(Obj(a + b)) <= Size(Obj(a + dropped + b))
  {
    FieldsSizeAdds(a, b);
    FieldsSizeAdds(a + dropped, b);
    FieldsSizeAdds(a, dropped);
  }

  lemma SmallerField(a: seq<Field>, key: string, v: Json, w: Json, b: seq<Field>)
    requires Size(v) <= Size(w)
    ensures Size(Obj(a + [Field(key, v)] + b)) <= Size(Obj(a + [Field(key, w)] + b))
  {
    FieldsSizeAdds(a + [Field(key, v)], b);
    FieldsSizeAdds(a, [Field(key, v)]);
    FieldsSizeAdds(a + [Field(key, w)], b);
    FieldsSizeAdds(a, [Field(key, w)]);
  }

  // ---- the payload ---------------------------------------------------------------------------------------

  /** `cmd` is absent once the first step removed it. */
  datatype TaskEntry = TaskEntry(taskId: string, cmd: Option<Json>, status: string, exitCode: Json, truncated: bool,
                                 originalSize: Json)

  datatype PlanEntry = PlanEntry(planId: string, planType: string, objective: string, status: PlanState,
                                 stopReason: Json, tasks: seq<TaskEntry>)

  /** `sections`: what the model itself last wrote about the state. */
  datatype Payload = Payload(
    goal: string, userMessage: string, sections: seq<Field>, ledger: seq<PlanEntry>, pendingOutputs: Option<seq<Json>>,
    budget: Json, pendingType: string, original: string)

  function StatusName(s: PlanState): string {
    match s
    case PlanPending => "pending" case PlanRunning => "running" case PlanCompleted => "completed"
    case StoppedOnFailure => "stopped_on_failure" case ShortCircuitedOnSuccess => "short_circuited_on_success"
    case PlanInterrupted => "interrupted" case PlanFailed => "failed"
  }

  function TaskJson(t: TaskEntry): Json {
    Obj([Field("task_id", Text(t.taskId))]
        + (if t.cmd.Some? then [Field("cmd", t.cmd.value)] else [])
        + [Field("status", Text(t.status)), Field("exit_code", t.exitCode), Field("truncated", Bool(t.truncated)),
           Field("original_size_bytes", t.originalSize)])
  }

  function TaskItems(tasks: seq<TaskEntry>): (items: seq<Json>)
    ensures |items| == |tasks|
  {
    if tasks == [] then [] else [TaskJson(tasks[0])] + TaskItems(tasks[1..])
  }

  function PlanJson(p: PlanEntry): Json {
    Obj([Field("plan_id", Text(p.planId)), Field("plan_type", Text(p.planType)), Field("objective", Text(p.objective)),
         Field("status", Text(StatusName(p.status))), Field("stop_reason", p.stopReason)]
        + [Field("tasks", Arr(TaskItems(p.tasks)))] + [])
  }

  function LedgerItems(ledger: seq<PlanEntry>): (items: seq<Json>)
    ensures |items| == |ledger|
  {
    if ledger == [] then [] else [PlanJson(ledger[0])] + LedgerItems(ledger[1..])
  }

  function Before(p: Payload): seq<Field> {
    [Field("goal", Text(p.goal)), Field("user_message", Text(p.userMessage))] + p.sections
  }

  function After(p: Payload): seq<Field> {
    [Field("budget", p.budget), Field("pending_message_type", Text(p.pendingType)),
     Field("original_conversation_id", Text(p.original))]
  }

  function PendingField(p: Payload): seq<Field> {
    if p.pendingOutputs.Some? then [Field("pending_outputs", Arr(p.pendingOutputs.value))] else []
  }

  function ToJson(p: Payload): Json {
    Obj(Before(p) + [Field("plan_ledger", Arr(LedgerItems(p.ledger)))] + (PendingField(p) + After(p)))
  }

  function PayloadSize(p: Payload): nat {
    Size(ToJson(p))
  }

  // ---- the three steps --------------------------------------------------------------------------------------

  function TasksWithoutCommands(tasks: seq<TaskEntry>): (out: seq<TaskEntry>)
    ensures |out| == |tasks| && forall i | 0 <= i < |tasks| :: out[i] == tasks[i].(cmd := None)
  {
    if tasks == [] then [] else [tasks[0].(cmd := None)] + TasksWithoutCommands(tasks[1..])
  }

  function LedgerWithoutCommands(ledger: seq<PlanEntry>): (out: seq<PlanEntry>)
    ensures |out| == |ledger| && forall i | 0 <= i < |ledger| ::
              out[i] == ledger[i].(tasks := TasksWithoutCommands(ledger[i].tasks))
  {
    if ledger == [] then []
    else [ledger[0].(tasks := TasksWithoutCommands(ledger[0].tasks))] + LedgerWithoutCommands(ledger[1..])
  }

  function LastTerminal(ledger: seq<PlanEntry>): (last: Option<nat>)
    ensures last.Some? ==> last.value < |ledger|
  {
    if ledger == [] then None
    else if PlanTerminal(ledger[|ledger| - 1].status) then Some(|ledger| - 1)
    else LastTerminal(ledger[..|ledger| - 1])
  }

  /** The plans that are open, or stand at the place `last`; `from` numbers the first one of `ledger`. */
  function KeptPlans(ledger: seq<PlanEntry>, from: nat, last: Option<nat>): seq<PlanEntry> {
    if ledger == [] then []
    else
      (if !PlanTerminal(ledger[0].status) || last == Some(from) then [ledger[0]] else [])
      + KeptPlans(ledger[1..], from + 1, last)
  }

  function Step(k: nat, p: Payload): Payload
    requires 1 <= k <= 3
  {
    if k == 1 then p.(ledger := LedgerWithoutCommands(p.ledger))
    else if k == 2 then p.(ledger := KeptPlans(p.ledger, 0, LastTerminal(p.ledger)))
    else p.(pendingOutputs := None)
  }

  /** The payload after the first `k` steps. */
  function Reduced(k: nat, p: Payload): Payload
    requires k <= 3
  {
    if k == 0 then p else Step(k, Reduced(k - 1, p))
  }

  // ---- what the steps do -----------------------------------------------------------------------------------

  function OpenPlans(ledger: seq<PlanEntry>): seq<PlanEntry> {
    if ledger == [] then []
    else (if PlanTerminal(ledger[0].status) then [] else [ledger[0]]) + OpenPlans(ledger[1..])
  }

  lemma {:induction false} LastTerminalIsLast(ledger: seq<PlanEntry>)
    ensures var last := LastTerminal(ledger);
            && (last.None? ==> forall i | 0 <= i < |ledger| :: !PlanTerminal(ledger[i].status))
            && (last.Some? ==>
                  && PlanTerminal(ledger[last.value].status)
                  && forall i | last.value < i < |ledger| :: !PlanTerminal(ledger[i].status))
  {
    if ledger != [] && !PlanTerminal(ledger[|ledger| - 1].status) {
      LastTerminalIsLast(ledger[..|ledger| - 1]);
    }
  }

  lemma {:induction false} KeptWithoutPlace(ledger: seq<PlanEntry>, from: nat, last: Option<nat>)
    requires last.Some? ==> last.value < from || last.value >= from + |ledger|
    ensures KeptPlans(ledger, from, last) == OpenPlans(ledger)
  {
    if ledger != [] { KeptWithoutPlace(ledger[1..], from + 1, last); }
  }

  lemma {:induction false} AllOpen(ledger: seq<PlanEntry>)
    requires forall i | 0 <= i < |ledger| :: !PlanTerminal(ledger[i].status)
    ensures OpenPlans(ledger) == ledger
  {
    if ledger != [] { AllOpen(ledger[1..]); }
  }

  lemma KeptFromHere(ledger: seq<PlanEntry>, from: nat)
    requires ledger != [] && forall i | 0 < i < |ledger| :: !PlanTerminal(ledger[i].status)
    ensures KeptPlans(ledger, from, Some(from)) == ledger && OpenPlans(ledger[..0]) + ledger[0..] == ledger
  {
    KeptWithoutPlace(ledger[1..], from + 1, Some(from));
    AllOpen(ledger[1..]);
    assert ledger == [ledger[0]] + ledger[1..];
  }

  lemma OneMoreKept(ledger: seq<PlanEntry>, from: nat, last: Option<nat>)
    requires ledger != [] && last != Some(from)
    ensures KeptPlans(ledger, from, last)
         == (if PlanTerminal(ledger[0].status) then [] else [ledger[0]]) + KeptPlans(ledger[1..], from + 1, last)
  {
  }

  lemma {:induction false} KeptAround(ledger: seq<PlanEntry>, from: nat, place: nat)
    requires place < |ledger| && forall i | place < i < |ledger| :: !PlanTerminal(ledger[i].status)
    ensures KeptPlans(ledger, from, Some(from + place)) == OpenPlans(ledger[..place]) + ledger[place..]
  {
    if place == 0 {
      KeptFromHere(ledger, from);
    } else {
      hide KeptPlans;
      var rest := ledger[1..];
      assert rest[..place - 1] == ledger[..place][1..] && rest[place - 1..] == ledger[place..];
      KeptAround(rest, from + 1, place - 1);
      OneMoreKept(ledger, from, Some(from + place));
    }
  }

  /** The second step: everything from the last terminal plan on, and the open plans before it, in their
      order; all of them when none is terminal. */
  lemma OpenPlansAndLastTerminal(p: Payload)
    ensures var last := LastTerminal(p.ledger);
            && (last.None? ==> Step(2, p).ledger == p.ledger)
            && (last.Some? ==>
                  && PlanTerminal(p.ledger[last.value].status)
                  && Step(2, p).ledger == OpenPlans(p.ledger[..last.value]) + p.ledger[last.value..]
                  && OpenPlans(p.ledger[last.value + 1..]) == p.ledger[last.value + 1..])
  {
    LastTerminalIsLast(p.ledger);
    var last := LastTerminal(p.ledger);
    if last.None? {
      KeptWithoutPlace(p.ledger, 0, last);
      AllOpen(p.ledger);
    } else {
      KeptAround(p.ledger, 0, last.value);
      AllOpen(p.ledger[last.value + 1..]);
    }
  }

  /** No step touches the goal, the user's message, the state sections, the budget or the request. */
  lemma NothingElseChanges(k: nat, p: Payload)
    requires k <= 3
    ensures var r := Reduced(k, p);
            r == p.(ledger := r.ledger, pendingOutputs := r.pendingOutputs)
            && (k < 3 ==> r.pendingOutputs == p.pendingOutputs) && (k == 3 ==> r.pendingOutputs.None?)
  {
    assert Reduced(0, p) == p;
    if k >= 1 { assert Reduced(1, p) == Step(1, p); }
    if k >= 2 { assert Reduced(2, p) == Step(2, Reduced(1, p)); }
    if k >= 3 { assert Reduced(3, p) == Step(3, Reduced(2, p)); }
  }

  // ---- no step makes the summary larger -----------------------------------------------------------------------

  lemma CommandCosts(t: TaskEntry)
    ensures Size(TaskJson(t.(cmd := None))) <= Size(TaskJson(t))
  {
    var a := [Field("task_id", Text(t.taskId))];
    var b := [Field("status", Text(t.status)), Field("exit_code", t.exitCode), Field("truncated", Bool(t.truncated)),
              Field("original_size_bytes", t.originalSize)];
    hide Size;
    if t.cmd.Some? {
      FewerFields(a, [Field("cmd", t.cmd.value)], b);
      assert a + [] + b == a + b;
    }
  }

  lemma {:induction false} CommandsCost(tasks: seq<TaskEntry>)
    ensures ItemsSize(TaskItems(TasksWithoutCommands(tasks))) <= ItemsSize(TaskItems(tasks))
  {
    hide TaskJson, Size;
    if tasks != [] {
      CommandCosts(tasks[0]);
      CommandsCost(tasks[1..]);
      var out := TasksWithoutCommands(tasks);
      assert out[1..] == TasksWithoutCommands(tasks[1..]);
      assert TaskItems(out)[1..] == TaskItems(out[1..]) && TaskItems(tasks)[1..] == TaskItems(tasks[1..]);
    }
  }

  lemma {:induction false} LedgerCommandsCost(ledger: seq<PlanEntry>)
    ensures ItemsSize(LedgerItems(LedgerWithoutCommands(ledger))) <= ItemsSize(LedgerItems(ledger))
  {
    hide PlanJson, Size;
    if ledger != [] {
      PlanCommandsCost(ledger[0]);
      LedgerCommandsCost(ledger[1..]);
      var out := LedgerWithoutCommands(ledger);
      assert out[1..] == LedgerWithoutCommands(ledger[1..]);
      assert LedgerItems(out)[1..] == LedgerItems(out[1..]) && LedgerItems(ledger)[1..] == LedgerItems(ledger[1..]);
    }
  }

  lemma ArrSize(a: seq<Json>, b: seq<Json>)
    requires ItemsSize(a) <= ItemsSize(b)
    ensures Size(Arr(a)) <= Size(Arr(b))
  {
  }

  lemma PlanCommandsCost(p: PlanEntry)
    ensures Size(PlanJson(p.(tasks := TasksWithoutCommands(p.tasks)))) <= Size(PlanJson(p))
  {
    hide Size;
    var a := [Field("plan_id", Text(p.planId)), Field("plan_type", Text(p.planType)),
              Field("objective", Text(p.objective)),
              Field("status", Text(StatusName(p.status))), Field("stop_reason", p.stopReason)];
    CommandsCost(p.tasks);
    ArrSize(TaskItems(TasksWithoutCommands(p.tasks)), TaskItems(p.tasks));
    SmallerField(a, "tasks", Arr(TaskItems(TasksWithoutCommands(p.tasks))), Arr(TaskItems(p.tasks)), []);
  }

  lemma {:induction false} KeptCost(ledger: seq<PlanEntry>, from: nat, last: Option<nat>)
    ensures ItemsSize(LedgerItems(KeptPlans(ledger, from, last))) <= ItemsSize(LedgerItems(ledger))
  {
    hide PlanJson, Size;
    if ledger != [] {
      KeptCost(ledger[1..], from + 1, last);
      var out := KeptPlans(ledger, from, last);
      assert LedgerItems(ledger)[1..] == LedgerItems(ledger[1..]);
      if !PlanTerminal(ledger[0].status) || last == Some(from) {
        assert out[1..] == KeptPlans(ledger[1..], from + 1, last);
        assert LedgerItems(out)[1..] == LedgerItems(out[1..]);
      } else {
        assert out == KeptPlans(ledger[1..], from + 1, last);
      }
    }
  }

  lemma SmallerLedger(p: Payload, ledger: seq<PlanEntry>)
    requires ItemsSize(LedgerItems(ledger)) <= ItemsSize(LedgerItems(p.ledger))
    ensures PayloadSize(p.(ledger := ledger)) <= PayloadSize(p)
  {
    hide Size;
    ArrSize(LedgerItems(ledger), LedgerItems(p.ledger));
    SmallerField(Before(p), "plan_ledger", Arr(LedgerItems(ledger)), Arr(LedgerItems(p.ledger)),
                 PendingField(p) + After(p));
  }

  lemma NoPendingOutputs(p: Payload)
    ensures PayloadSize(p.(pendingOutputs := None)) <= PayloadSize(p)
  {
    hide Size;
    var a := Before(p) + [Field("plan_ledger", Arr(LedgerItems(p.ledger)))];
    FewerFields(a, PendingField(p), After(p));
    assert a + PendingField(p) + After(p) == a + (PendingField(p) + After(p));
    assert a + After(p) == a + ([] + After(p));
  }

  lemma StepsNeverGrow(k: nat, p: Payload)
    requires 1 <= k <= 3
    ensures PayloadSize(Step(k, p)) <= PayloadSize(p)
  {
    hide PayloadSize, LedgerItems, ItemsSize;
    if k == 1 {
      LedgerCommandsCost(p.ledger);
      SmallerLedger(p, LedgerWithoutCommands(p.ledger));
    } else if k == 2 {
      KeptCost(p.ledger, 0, LastTerminal(p.ledger));
      SmallerLedger(p, KeptPlans(p.ledger, 0, LastTerminal(p.ledger)));
    } else {
      NoPendingOutputs(p);
    }
  }

  lemma {:induction false} ReductionsNeverGrow(j: nat, k: nat, p: Payload)
    requires j <= k <= 3
    ensures PayloadSize(Reduced(k, p)) <= PayloadSize(Reduced(j, p))
    decreases k
  {
    hide PayloadSize, Step;
    if j < k {
      ReductionsNeverGrow(j, k - 1, p);
      StepsNeverGrow(k, Reduced(k - 1, p));
    }
  }

  // ---- the composition ---------------------------------------------------------------------------------------

  datatype Draft =
    | Draft(payload: Payload, size: nat, step: nat)
    | ExceedsBudget(size: nat, step: nat)

  lemma SizeIsPayloadSize(p: Payload)
    ensures PayloadSize(p) == |Encoded(Written(ToJson(p)))|
    ensures forall j | Rearranged(ToJson(p), j) :: |Encoded(Written(j))| == PayloadSize(p)
  {
    SizeIsLength(ToJson(p));
    forall j | Rearranged(ToJson(p), j) ensures |Encoded(Written(j))| == PayloadSize(p) {
      RearrangedLength(ToJson(p), j);
    }
  }

  /** As few steps as possible: the first reduction that fits; none fits exactly when the smallest does not. */
  method Compose(full: Payload, budget: int) returns (d: Draft)
    ensures d.Draft? <==> exists k: nat | k <= 3 :: PayloadSize(Reduced(k, full)) <= budget
    ensures d.Draft? ==> forall j | Rearranged(ToJson(d.payload), j) :: |Encoded(Written(j))| == d.size
    ensures d.Draft? ==> |Encoded(Written(ToJson(d.payload)))| == d.size
    ensures d.Draft? ==>
              && d.step <= 3 && d.payload == Reduced(d.step, full) && d.size == PayloadSize(d.payload) <= budget
              && forall j: nat | j < d.step :: PayloadSize(Reduced(j, full)) > budget
    ensures d.ExceedsBudget? ==> d.step == 3 && d.size == PayloadSize(Reduced(3, full)) > budget
  {
    hide PayloadSize, Step, Rearranged, ToJson, Written, Encoded;
    var payload := full;
    var size := PayloadSize(payload);
    var step := 0;
    for index := 1 to 4
      invariant step == index - 1 && payload == Reduced(step, full) && size == PayloadSize(payload)
      invariant forall j: nat | j < step :: PayloadSize(Reduced(j, full)) > budget
    {
      if size <= budget {
        break;
      }
      payload := Step(index, payload);
      size := PayloadSize(payload);
      step := index;
    }
    if size > budget {
      d := ExceedsBudget(size, step);
      forall k: nat | k <= 3 ensures PayloadSize(Reduced(k, full)) > budget { }
    } else {
      d := Draft.Draft(payload, size, step);
      SizeIsPayloadSize(payload);
    }
  }

  /** It is refused exactly when the payload after all three steps is still too big. */
  lemma RefusedWhenNothingFits(full: Payload, budget: int)
    ensures (exists k: nat | k <= 3 :: PayloadSize(Reduced(k, full)) <= budget)
            <==> PayloadSize(Reduced(3, full)) <= budget
  {
    hide PayloadSize, Reduced;
    forall k: nat | k <= 3 ensures PayloadSize(Reduced(3, full)) <= PayloadSize(Reduced(k, full)) {
      ReductionsNeverGrow(k, 3, full);
    }
  }
}

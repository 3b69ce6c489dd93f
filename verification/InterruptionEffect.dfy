/**
 What an interruption does, told in the fields of the records alone: which plans, tasks, cycles and
 conversations it ends, and how they stay, whatever the other components write afterwards.
 */
module InterruptionEffect {
  import opened Options
  import opened States
  import opened Records
  import opened Journal
  import opened Lifecycle
  import opened Interruption

  /** The current conversation of the session, and the parent it comes from if that is being rotated. */
  ghost predicate InHand(t: Tables, sid: string, id: string)
    requires sid in t.sessions
  {
    var current := t.sessions[sid].currentConversationId;
    && current.Some? && current.value in t.conversations && id in t.conversations
    && (|| id == current.value
        || (t.conversations[current.value].parentId == Some(id) && t.conversations[id].status == Rotating))
  }

  /** The current plan of one of these conversations, when it is not over. */
  ghost predicate PlanOpen(t: Tables, ids: set<string>, plan: (string, string)) {
    && plan in t.plans && t.plans[plan].status in {PlanPending, PlanRunning}
    && exists id :: id in ids && id in t.conversations
                    && t.conversations[id].sessionId == plan.0 && t.conversations[id].currentPlanId == Some(plan.1)
  }

  ghost predicate CycleOpen(t: Tables, ids: set<string>, cycle: string) {
    && cycle in t.cycles && t.cycles[cycle].status == CycleRunning
    && exists id :: id in ids && id in t.conversations && t.conversations[id].currentCycleId == Some(cycle)
  }

  ghost predicate Over(s: TaskState) {
    s in {COMPLETED, FAILED, TIMED_OUT, SKIPPED, CANCELLED, INTERRUPTED}
  }

  /** The tasks of those plans that are not over are interrupted by the user. */
  ghost predicate TasksEnded(t: Tables, ids: set<string>, r: Tables) {
    && r.tasks.Keys == t.tasks.Keys
    && forall k | k in t.tasks ::
         var task := t.tasks[k];
         if PlanOpen(t, ids, (task.decl.sessionId, task.decl.planId)) && !Over(task.status)
         then r.tasks[k] == task.(status := INTERRUPTED, reason := Some(UserInterrupt))
         else r.tasks[k] == task
  }

  /** So are the plans, which count their tasks as these are then. */
  ghost predicate PlansEnded(t: Tables, ids: set<string>, r: Tables) {
    && r.plans.Keys == t.plans.Keys
    && forall k | k in t.plans ::
         if PlanOpen(t, ids, k)
         then && r.plans[k] == t.plans[k].(status := PlanInterrupted, stopReason := Some(StoppedByUser),
                                           counters := r.plans[k].counters)
              && Counts(r.plans[k].counters, r.tasks, k)
         else r.plans[k] == t.plans[k]
  }

  ghost predicate CyclesEnded(t: Tables, ids: set<string>, r: Tables) {
    && r.cycles.Keys == t.cycles.Keys
    && forall k | k in t.cycles ::
         r.cycles[k] == if CycleOpen(t, ids, k) then t.cycles[k].(status := CycleInterrupted) else t.cycles[k]
  }

  ghost predicate ConversationsEnded(t: Tables, ids: set<string>, r: Tables) {
    && r.conversations.Keys == t.conversations.Keys
    && forall id | id in t.conversations ::
         var c := t.conversations[id];
         r.conversations[id] == if id in ids && c.status in {Active, WaitingModelResponse, RunningPlan, Rotating}
                                then c.(status := ConversationInterrupted) else c
  }

  /** These conversations and what they were doing are ended, and nothing else is touched. */
  ghost predicate Ended(t: Tables, ids: set<string>, r: Tables) {
    && TasksEnded(t, ids, r) && PlansEnded(t, ids, r) && CyclesEnded(t, ids, r) && ConversationsEnded(t, ids, r)
    && r.sessions == t.sessions && r.messages == t.messages && r.blobs == t.blobs
  }

  ghost function AllInHand(t: Tables, sid: string): set<string>
    requires sid in t.sessions
  {
    set id | id in t.conversations && InHand(t, sid, id)
  }

  // ---- one conversation ------------------------------------------------------------------------------------

  lemma OnlyPlanOpen(t: Tables, id: string, k: (string, string))
    requires id in t.conversations
    ensures PlanOpen(t, {id}, k) <==>
              CurrentPlan(t.plans, t.conversations[id]) == Some(k) && k in t.plans && OpenPlan(t.plans[k].status)
  {
  }

  lemma OnlyCycleOpen(t: Tables, id: string, k: string)
    requires id in t.conversations
    ensures CycleOpen(t, {id}, k) <==>
              CurrentCycle(t.cycles, t.conversations[id]) == Some(k) && t.cycles[k].status.CycleRunning?
  {
  }

  lemma OnePlanEnded(t: Tables, id: string)
    requires id in t.conversations
    ensures var r := PlanSwept(t, t.conversations[id]);
            TasksEnded(t, {id}, r) && PlansEnded(t, {id}, r) && r == t.(tasks := r.tasks, plans := r.plans)
  {
    hide Tally, Counts, PlanOpen, CurrentPlan;
    var c := t.conversations[id];
    forall k
      ensures PlanOpen(t, {id}, k) <==>
                CurrentPlan(t.plans, c) == Some(k) && k in t.plans && OpenPlan(t.plans[k].status)
    {
      OnlyPlanOpen(t, id, k);
    }
    PlanSweep(t, c);
    if CurrentPlan(t.plans, c).Some? {
      var k := CurrentPlan(t.plans, c).value;
      TallyCounts(PlanSwept(t, c).tasks, k);
    }
  }

  lemma OneCycleEnded(t: Tables, id: string)
    requires id in t.conversations
    ensures var r := CycleSwept(t, t.conversations[id]); CyclesEnded(t, {id}, r) && r == t.(cycles := r.cycles)
  {
    forall k
      ensures CycleOpen(t, {id}, k) <==>
                CurrentCycle(t.cycles, t.conversations[id]) == Some(k) && t.cycles[k].status.CycleRunning?
    {
      OnlyCycleOpen(t, id, k);
    }
  }

  lemma OneConversationEnded(t: Tables, id: string)
    requires id in t.conversations
    ensures var r := ConversationSwept(t, id);
            ConversationsEnded(t, {id}, r) && r == t.(conversations := r.conversations)
  {
  }

  lemma OneEnded(t: Tables, id: string)
    requires id in t.conversations && t.conversations[id].conversationId == id
    ensures Ended(t, {id}, AllSwept(t, t.conversations[id]))
  {
    hide PlanSwept, CycleSwept, ConversationSwept, TasksEnded, PlansEnded, CyclesEnded, ConversationsEnded;
    var c := t.conversations[id];
    var t1 := PlanSwept(t, c);
    var t2 := CycleSwept(t1, c);
    OnePlanEnded(t, id);
    OneCycleEnded(t1, id);
    OneConversationEnded(t2, id);
    InTurn(t, id, t1, t2, ConversationSwept(t2, id));
  }

  /** The three parts one after the other. */
  lemma InTurn(t: Tables, id: string, t1: Tables, t2: Tables, r: Tables)
    requires TasksEnded(t, {id}, t1) && PlansEnded(t, {id}, t1) && t1 == t.(tasks := t1.tasks, plans := t1.plans)
    requires CyclesEnded(t1, {id}, t2) && t2 == t1.(cycles := t2.cycles)
    requires ConversationsEnded(t2, {id}, r) && r == t2.(conversations := r.conversations)
    ensures Ended(t, {id}, r)
  {
    hide PlanOpen, Counts, Over;
    assert forall k :: CycleOpen(t1, {id}, k) <==> CycleOpen(t, {id}, k);
  }

  // ---- two conversations, one after the other --------------------------------------------------------------

  /** What counts are of a plan depends on its own tasks alone. */
  lemma SameCounts(c: Counters, t: map<(string, string), TaskRecord>, r: map<(string, string), TaskRecord>,
                   plan: (string, string))
    requires Counts(c, t, plan) && r.Keys == t.Keys
    requires forall k | k in t :: r[k].decl == t[k].decl
    requires forall k | k in t && (t[k].decl.sessionId, t[k].decl.planId) == plan :: r[k].status == t[k].status
    ensures Counts(c, r, plan)
  {
    hide Among;
    SameAmong(t, r, plan, {COMPLETED});
    SameAmong(t, r, plan, {FAILED, TIMED_OUT});
    SameAmong(t, r, plan, {SKIPPED});
    SameAmong(t, r, plan, {CANCELLED});
    SameAmong(t, r, plan, {INTERRUPTED});
    assert (set k | k in t && t[k].decl.sessionId == plan.0 && t[k].decl.planId == plan.1)
           == (set k | k in r && r[k].decl.sessionId == plan.0 && r[k].decl.planId == plan.1);
  }

  lemma SameAmong(t: map<(string, string), TaskRecord>, r: map<(string, string), TaskRecord>, plan: (string, string),
                  states: set<TaskState>)
    requires r.Keys == t.Keys && forall k | k in t :: r[k].decl == t[k].decl
    requires forall k | k in t && (t[k].decl.sessionId, t[k].decl.planId) == plan :: r[k].status == t[k].status
    ensures Among(r, plan, states) == Among(t, plan, states)
  {
  }

  lemma OpenInTwo(t: Tables, a: string, t1: Tables, b: string, k: (string, string))
    requires PlansEnded(t, {a}, t1) && ConversationsEnded(t, {a}, t1)
    ensures PlanOpen(t, {a, b}, k) <==> PlanOpen(t, {a}, k) || PlanOpen(t1, {b}, k)
    ensures !(PlanOpen(t, {a}, k) && PlanOpen(t1, {b}, k))
    ensures PlanOpen(t1, {b}, k) ==> t1.plans[k] == t.plans[k]
  {
    hide Counts;
    if id :| id in {a, b} && id in t.conversations && t.conversations[id].sessionId == k.0
             && t.conversations[id].currentPlanId == Some(k.1)
    {
      assert id in t1.conversations && t1.conversations[id].sessionId == k.0
             && t1.conversations[id].currentPlanId == Some(k.1);
    }
  }

  lemma CycleOpenInTwo(t: Tables, a: string, t1: Tables, b: string, k: string)
    requires CyclesEnded(t, {a}, t1) && ConversationsEnded(t, {a}, t1)
    ensures CycleOpen(t, {a, b}, k) <==> CycleOpen(t, {a}, k) || CycleOpen(t1, {b}, k)
    ensures !(CycleOpen(t, {a}, k) && CycleOpen(t1, {b}, k))
  {
    if id :| id in {a, b} && id in t.conversations && t.conversations[id].currentCycleId == Some(k) {
      assert id in t1.conversations && t1.conversations[id].currentCycleId == Some(k);
    }
  }

  lemma TasksEndedInTwo(t: Tables, a: string, t1: Tables, b: string, r: Tables)
    requires TasksEnded(t, {a}, t1) && PlansEnded(t, {a}, t1) && ConversationsEnded(t, {a}, t1)
    requires TasksEnded(t1, {b}, r)
    ensures TasksEnded(t, {a, b}, r)
  {
    hide Counts, PlanOpen, PlansEnded, ConversationsEnded;
    forall k | k in t.tasks ensures (
        var task := t.tasks[k];
        if PlanOpen(t, {a, b}, (task.decl.sessionId, task.decl.planId)) && !Over(task.status)
        then r.tasks[k] == task.(status := INTERRUPTED, reason := Some(UserInterrupt))
        else r.tasks[k] == task)
    {
      OpenInTwo(t, a, t1, b, (t.tasks[k].decl.sessionId, t.tasks[k].decl.planId));
    }
  }

  lemma PlansEndedInTwo(t: Tables, a: string, t1: Tables, b: string, r: Tables)
    requires TasksEnded(t, {a}, t1) && PlansEnded(t, {a}, t1) && ConversationsEnded(t, {a}, t1)
    requires TasksEnded(t1, {b}, r) && PlansEnded(t1, {b}, r)
    ensures PlansEnded(t, {a, b}, r)
  {
    hide Counts, PlanOpen, ConversationsEnded;
    forall k | k in t.plans ensures (
        if PlanOpen(t, {a, b}, k)
        then && r.plans[k] == t.plans[k].(status := PlanInterrupted, stopReason := Some(StoppedByUser),
                                          counters := r.plans[k].counters)
             && Counts(r.plans[k].counters, r.tasks, k)
        else r.plans[k] == t.plans[k])
    {
      OpenInTwo(t, a, t1, b, k);
      if PlanOpen(t, {a}, k) {
        SameCounts(t1.plans[k].counters, t1.tasks, r.tasks, k);
      }
    }
  }

  lemma BothEnded(t: Tables, a: string, t1: Tables, b: string, r: Tables)
    requires a != b && Ended(t, {a}, t1) && Ended(t1, {b}, r)
    ensures Ended(t, {a, b}, r)
  {
    TasksEndedInTwo(t, a, t1, b, r);
    PlansEndedInTwo(t, a, t1, b, r);
    hide TasksEnded, PlansEnded, PlanOpen, CycleOpen;
    forall k ensures (CycleOpen(t, {a, b}, k) <==> CycleOpen(t, {a}, k) || CycleOpen(t1, {b}, k))
                     && !(CycleOpen(t, {a}, k) && CycleOpen(t1, {b}, k))
    {
      CycleOpenInTwo(t, a, t1, b, k);
    }
  }

  // ---- the whole sweep ---------------------------------------------------------------------------------------

  /** The sweep ends the conversation of the session and a parent that was being rotated, with their plans,
      tasks and cycles, and touches nothing else. */
  lemma SweepEndsWhatIsInHand(t: Tables, sid: string)
    requires WellKeyed(t) && sid in t.sessions
    ensures Ended(t, AllInHand(t, sid), Swept(t, sid))
  {
    hide AllSwept, Ended, WellKeyed;
    var found := CurrentConversation(t, sid);
    if found.None? {
      assert AllInHand(t, sid) == {};
      NothingEnded(t);
    } else {
      CurrentKeyed(t, sid);
      var id := t.sessions[sid].currentConversationId.value;
      var t1 := AllSwept(t, found.value);
      OneEnded(t, id);
      StillKeyed(t, id, t1);
      var parent := RotatingParent(t1.conversations, found.value);
      if parent.Some? {
        var p := found.value.parentId.value;
        assert AllInHand(t, sid) == {id, p};
        OneEnded(t1, p);
        BothEnded(t, id, t1, p, AllSwept(t1, parent.value));
      } else {
        assert AllInHand(t, sid) == {id};
      }
    }
  }

  lemma NothingEnded(t: Tables)
    ensures Ended(t, {}, t)
  {
  }

  lemma StillKeyed(t: Tables, id: string, t1: Tables)
    requires Ended(t, {id}, t1) && id in t.conversations
    ensures t1.conversations.Keys == t.conversations.Keys
    ensures forall d | d in t.conversations :: t1.conversations[d].conversationId == t.conversations[d].conversationId
    ensures forall d | d in t.conversations && d != id :: t1.conversations[d] == t.conversations[d]
    ensures !t1.conversations[id].status.Rotating?
  {
  }

  // ---- and it stays so ----------------------------------------------------------------------------------------

  /** By `now` the conversations that were active are interrupted, and the plan and cycle each of the
      conversations was on are over, with all tasks of a plan that was still open. */
  ghost predicate StaysEnded(t: Tables, ids: set<string>, now: Status) {
    && (forall id | id in ids && id in t.conversations :: ConversationOver(t, id, now))
    && (forall k | k in t.tasks && PlanOpen(t, ids, (t.tasks[k].decl.sessionId, t.tasks[k].decl.planId)) ::
          k in now.tasks && Over(now.tasks[k]))
  }

  ghost predicate ConversationOver(t: Tables, id: string, now: Status)
    requires id in t.conversations
  {
    var c := t.conversations[id];
    && (c.status in {Active, WaitingModelResponse, RunningPlan, Rotating} ==>
          id in now.conversations && now.conversations[id] == ConversationInterrupted)
    && (c.currentPlanId.Some? && (c.sessionId, c.currentPlanId.value) in t.plans ==>
          var plan := (c.sessionId, c.currentPlanId.value);
          && plan in now.plans
          && now.plans[plan] in {PlanCompleted, StoppedOnFailure, ShortCircuitedOnSuccess, PlanInterrupted, PlanFailed})
    && (c.currentCycleId.Some? && c.currentCycleId.value in t.cycles ==>
          c.currentCycleId.value in now.cycles && now.cycles[c.currentCycleId.value] != CycleRunning)
  }

  /** Whatever legal journal follows, nothing of it is ever open again. */
  lemma SweptForGood(t: Tables, sid: string, later: Status)
    requires WellKeyed(t) && sid in t.sessions
    requires Reaches(StatusOf(Swept(t, sid)), later)
    ensures StaysEnded(t, AllInHand(t, sid), later)
  {
    hide WellKeyed, Swept, Reaches, StatusOf, AllInHand, Counts;
    var ids, after := AllInHand(t, sid), Swept(t, sid);
    SweepEndsWhatIsInHand(t, sid);
    FinalRecordsStay(after, later);
    FinalTasksStay(after, later);
    forall id | id in ids && id in t.conversations ensures ConversationOver(t, id, later) {
      OverAfter(t, ids, after, id, later);
    }
  }

  lemma FinalTasksStay(t: Tables, later: Status)
    requires Reaches(StatusOf(t), later)
    ensures forall k | k in t.tasks && Over(t.tasks[k].status) :: k in later.tasks && Over(later.tasks[k])
  {
    hide Reaches;
    assert StatusOf(t).tasks.Keys == t.tasks.Keys;
    FinalStatesStay(StatusOf(t), later);
  }

  lemma OverAfter(t: Tables, ids: set<string>, after: Tables, id: string, later: Status)
    requires id in ids && id in t.conversations && Ended(t, ids, after)
    requires forall k | k in after.plans && PlanTerminal(after.plans[k].status) ::
               k in later.plans && later.plans[k] == after.plans[k].status
    requires forall k | k in after.cycles && !after.cycles[k].status.CycleRunning? ::
               k in later.cycles && later.cycles[k] == after.cycles[k].status
    requires forall k | k in after.conversations && FinalConversation(after.conversations[k].status) ::
               k in later.conversations && later.conversations[k] == after.conversations[k].status
    ensures ConversationOver(t, id, later)
  {
    hide Counts, TasksEnded;
    var c := t.conversations[id];
    if c.currentPlanId.Some? && (c.sessionId, c.currentPlanId.value) in t.plans {
      var plan := (c.sessionId, c.currentPlanId.value);
      assert t.plans[plan].status in {PlanPending, PlanRunning} ==> PlanOpen(t, ids, plan);
      assert PlanTerminal(after.plans[plan].status);
    }
    if c.currentCycleId.Some? && c.currentCycleId.value in t.cycles {
      assert t.cycles[c.currentCycleId.value].status == CycleRunning ==> CycleOpen(t, ids, c.currentCycleId.value);
    }
  }

  /** The tasks of the current plan are all over after the sweep if and only if the plan was open, or they
      were over already: the sweep does not look into a plan that has ended. */
  lemma TasksOverExactly(t: Tables, sid: string, id: string, plan: (string, string))
    requires WellKeyed(t) && sid in t.sessions && InHand(t, sid, id) && plan in t.plans
    requires t.conversations[id].sessionId == plan.0 && t.conversations[id].currentPlanId == Some(plan.1)
    ensures var after := Swept(t, sid);
            (forall k | k in after.tasks && OfPlan(after.tasks[k], plan) :: Over(after.tasks[k].status)) <==>
              || t.plans[plan].status in {PlanPending, PlanRunning}
              || (forall k | k in t.tasks && OfPlan(t.tasks[k], plan) :: Over(t.tasks[k].status))
  {
    hide WellKeyed, Swept, Counts, PlansEnded, CyclesEnded, ConversationsEnded;
    SweepEndsWhatIsInHand(t, sid);
    assert id in AllInHand(t, sid);
    var after := Swept(t, sid);
    assert PlanOpen(t, AllInHand(t, sid), plan) <==> t.plans[plan].status in {PlanPending, PlanRunning};
    assert forall k | k in t.tasks :: OfPlan(after.tasks[k], plan) <==> OfPlan(t.tasks[k], plan);
  }

  ghost predicate OfPlan(task: TaskRecord, plan: (string, string)) {
    task.decl.sessionId == plan.0 && task.decl.planId == plan.1
  }
}

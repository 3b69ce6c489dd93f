/**
 The persisted transitions shared by recovery, interruption and rotation: each reads a record, checks the
 step against its table, saves the new record and enters the move in the journal.
 */
module Lifecycle {
  import opened Options
  import opened States
  import opened Records
  import opened Persistence
  import opened Journal

  predicate OpenPlan(s: PlanState) {
    s.PlanPending? || s.PlanRunning?
  }

  function PlanOf(task: TaskRecord): (string, string) {
    (task.decl.sessionId, task.decl.planId)
  }

  function InterruptedTask(r: TaskRecord, reason: Reason): TaskRecord {
    r.(status := INTERRUPTED, reason := Some(reason))
  }

  function Members(tasks: map<(string, string), TaskRecord>, plan: (string, string)): set<(string, string)> {
    set k | k in tasks && PlanOf(tasks[k]) == plan
  }

  function MembersIn(tasks: map<(string, string), TaskRecord>, plan: (string, string), s: TaskState): set<(string,
                     string)> {
    set k | k in tasks && PlanOf(tasks[k]) == plan && tasks[k].status == s
  }

  function Tally(tasks: map<(string, string), TaskRecord>, plan: (string, string)): Counters {
    Counters(|Members(tasks, plan)|, |MembersIn(tasks, plan, COMPLETED)|,
             |MembersIn(tasks, plan, FAILED)| + |MembersIn(tasks, plan, TIMED_OUT)|,
             |MembersIn(tasks, plan, SKIPPED)|, |MembersIn(tasks, plan, CANCELLED)|,
             |MembersIn(tasks, plan, INTERRUPTED)|)
  }

  /** The tasks of the plan that are in one of these states. */
  ghost function Among(tasks: map<(string, string), TaskRecord>, plan: (string, string),
                       states: set<TaskState>): set<(string, string)> {
    set k | k in tasks && tasks[k].decl.sessionId == plan.0 && tasks[k].decl.planId == plan.1
            && tasks[k].status in states
  }

  /** Each counter is the number of tasks of the plan in its states. */
  ghost predicate Counts(c: Counters, tasks: map<(string, string), TaskRecord>, plan: (string, string)) {
    && c.tasks == |set k | k in tasks && tasks[k].decl.sessionId == plan.0 && tasks[k].decl.planId == plan.1|
    && c.completed == |Among(tasks, plan, {COMPLETED})|
    && c.failed == |Among(tasks, plan, {FAILED, TIMED_OUT})|
    && c.skipped == |Among(tasks, plan, {SKIPPED})|
    && c.cancelled == |Among(tasks, plan, {CANCELLED})|
    && c.interrupted == |Among(tasks, plan, {INTERRUPTED})|
  }

  lemma MembersAmong(tasks: map<(string, string), TaskRecord>, plan: (string, string), s: TaskState)
    ensures MembersIn(tasks, plan, s) == Among(tasks, plan, {s})
  {
  }

  lemma FailedAmong(tasks: map<(string, string), TaskRecord>, plan: (string, string))
    ensures |MembersIn(tasks, plan, FAILED)| + |MembersIn(tasks, plan, TIMED_OUT)|
            == |Among(tasks, plan, {FAILED, TIMED_OUT})|
  {
    var failed, timedOut := MembersIn(tasks, plan, FAILED), MembersIn(tasks, plan, TIMED_OUT);
    assert Among(tasks, plan, {FAILED, TIMED_OUT}) == failed + timedOut && failed !! timedOut;
  }

  lemma TallyCounts(tasks: map<(string, string), TaskRecord>, plan: (string, string))
    ensures Counts(Tally(tasks, plan), tasks, plan)
  {
    hide MembersIn, Among;
    FailedAmong(tasks, plan);
    MembersAmong(tasks, plan, COMPLETED);
    MembersAmong(tasks, plan, SKIPPED);
    MembersAmong(tasks, plan, CANCELLED);
    MembersAmong(tasks, plan, INTERRUPTED);
    assert Members(tasks, plan)
           == set k | k in tasks && tasks[k].decl.sessionId == plan.0 && tasks[k].decl.planId == plan.1;
  }

  function InterruptedPlan(p: PlanRecord, reason: StopReason, counters: Counters): PlanRecord {
    p.(status := PlanInterrupted, stopReason := Some(reason), counters := counters)
  }

  class LifecycleManager {
    const store: Store
    var moves: seq<Move>
    ghost const before: Tables

    constructor (store: Store)
      ensures this.store == store && before == store.tables && moves == []
    {
      this.store := store;
      moves := [];
      before := store.tables;
    }

    /** Everything done so far went through the tables. */
    ghost predicate Journaled()
      reads this`moves, store`tables
    {
      Leads(StatusOf(before), moves, StatusOf(store.tables))
    }

    /** One permitted write, entered in the journal when it changes a state. */
    method Save(w: Write)
      requires WellKeyed(store.tables) && Journaled() && Permitted(store.tables, w)
      modifies this`moves, store`tables
      ensures WellKeyed(store.tables) && Journaled()
      ensures store.tables == Apply(w, old(store.tables))
      ensures moves == old(moves) + MovesOf(old(store.tables), w)
    {
      assert !Refused(w);
      hide WellKeyed, Leads, StatusOf, Permitted, MovesOf, Apply;
      OneMoreWrite(StatusOf(before), moves, store.tables, w);
      moves := moves + MovesOf(store.tables, w);
      var _ := store.Write(w, false);
    }

    /** The same write, numbered, which the disk may refuse; then nothing changes. */
    method Attempt(w: Write) returns (ok: bool)
      requires WellKeyed(store.tables) && Journaled() && Permitted(store.tables, w)
      modifies this`moves, store`tables, store`attempts
      ensures WellKeyed(store.tables) && Journaled()
      ensures ok <==> store.Failures() == old(store.Failures())
      ensures old(store.attempts) <= store.attempts
      ensures store.tables == if ok then Apply(w, old(store.tables)) else old(store.tables)
      ensures moves == if ok then old(moves) + MovesOf(old(store.tables), w) else old(moves)
    {
      assert !Refused(w);
      hide WellKeyed, Leads, StatusOf, Permitted, MovesOf, Apply, Refusals;
      OneMoreWrite(StatusOf(before), moves, store.tables, w);
      var recorded := moves + MovesOf(store.tables, w);
      ok := store.Attempt(w);
      if ok {
        moves := recorded;
      }
    }

    method InterruptTask(k: (string, string), reason: Reason) returns (ok: bool)
      requires WellKeyed(store.tables) && Journaled()
      requires k in store.tables.tasks && TaskStep(store.tables.tasks[k].status, INTERRUPTED)
      modifies this`moves, store`tables, store`attempts
      ensures WellKeyed(store.tables) && Journaled() && old(moves) <= moves
      ensures ok <==> store.Failures() == old(store.Failures())
      ensures old(store.attempts) <= store.attempts
      ensures !ok ==> moves == old(moves)
      ensures store.tables == if !ok then old(store.tables) else
                old(store.tables).(tasks := old(store.tables.tasks)[k := InterruptedTask(old(store.tables.tasks[k]),
                  reason)])
    {
      var r := InterruptedTask(store.tables.tasks[k], reason);
      assert TaskKey(r) == k;
      hide WellKeyed, Leads, StatusOf, Refusals;
      ok := Attempt(SaveTask(r));
    }

    method InterruptPlan(k: (string, string), reason: StopReason) returns (ok: bool)
      requires WellKeyed(store.tables) && Journaled()
      requires k in store.tables.plans && OpenPlan(store.tables.plans[k].status)
      modifies this`moves, store`tables, store`attempts
      ensures WellKeyed(store.tables) && Journaled() && old(moves) <= moves
      ensures ok <==> store.Failures() == old(store.Failures())
      ensures old(store.attempts) <= store.attempts
      ensures !ok ==> moves == old(moves)
      ensures store.tables == if !ok then old(store.tables) else
                old(store.tables).(plans := old(store.tables.plans)[k := InterruptedPlan(old(store.tables.plans[k]),
                  reason, Tally(old(store.tables.tasks), k))])
    {
      var r := InterruptedPlan(store.tables.plans[k], reason, Tally(store.tables.tasks, k));
      assert PlanKey(r) == k;
      hide WellKeyed, Leads, StatusOf, Refusals;
      ok := Attempt(SavePlan(r));
    }

    method InterruptCycle(k: string) returns (ok: bool)
      requires WellKeyed(store.tables) && Journaled()
      requires k in store.tables.cycles && store.tables.cycles[k].status.CycleRunning?
      modifies this`moves, store`tables, store`attempts
      ensures WellKeyed(store.tables) && Journaled() && old(moves) <= moves
      ensures ok <==> store.Failures() == old(store.Failures())
      ensures old(store.attempts) <= store.attempts
      ensures !ok ==> moves == old(moves)
      ensures store.tables == if !ok then old(store.tables) else
                old(store.tables).(cycles :=
                  old(store.tables.cycles)[k := old(store.tables.cycles[k]).(status := CycleInterrupted)])
    {
      var r := store.tables.cycles[k].(status := CycleInterrupted);
      assert r.cycleId == k;
      hide WellKeyed, Leads, StatusOf, Refusals;
      ok := Attempt(SaveCycle(r));
    }

    method TransitionConversation(id: string, r: ConversationRecord) returns (ok: bool)
      requires WellKeyed(store.tables) && Journaled()
      requires id in store.tables.conversations && ConversationStep(store.tables.conversations[id].status, r.status)
      requires r.conversationId == id && r.window == store.tables.conversations[id].window
      modifies this`moves, store`tables, store`attempts
      ensures WellKeyed(store.tables) && Journaled() && old(moves) <= moves
      ensures ok <==> store.Failures() == old(store.Failures())
      ensures old(store.attempts) <= store.attempts
      ensures !ok ==> moves == old(moves)
      ensures store.tables == if !ok then old(store.tables) else
                old(store.tables).(conversations := old(store.tables.conversations)[id := r])
    {
      hide WellKeyed, Leads, StatusOf, Refusals;
      ok := Attempt(SaveConversation(r));
    }

    method TransitionSession(k: string, to: SessionState) returns (ok: bool)
      requires WellKeyed(store.tables) && Journaled()
      requires k in store.tables.sessions && SessionStep(store.tables.sessions[k].status, to)
      modifies this`moves, store`tables, store`attempts
      ensures WellKeyed(store.tables) && Journaled() && old(moves) <= moves
      ensures ok <==> store.Failures() == old(store.Failures())
      ensures old(store.attempts) <= store.attempts
      ensures !ok ==> moves == old(moves)
      ensures store.tables == if !ok then old(store.tables) else
                old(store.tables).(sessions :=
                  old(store.tables.sessions)[k := old(store.tables.sessions[k]).(status := to)])
    {
      var r := store.tables.sessions[k].(status := to);
      assert r.sessionId == k;
      hide WellKeyed, Leads, StatusOf, Refusals;
      ok := Attempt(SaveSession(r));
    }
  }

  lemma KeyedConversation(t: Tables, id: string)
    requires WellKeyed(t) && id in t.conversations
    ensures t.conversations[id].conversationId == id
  {
  }
}

/**
 What an interruption leaves of the current conversation of a session: its open tasks, plan and cycle and
 the conversation itself end `INTERRUPTED`, and so does a parent whose rotation was in flight.
 */
module Interruption {
  import opened Options
  import opened States
  import opened Records
  import opened Journal
  import opened Lifecycle

  predicate Idle(s: SessionState) {
    s.Ready? || s.SessionCompleted? || s.SessionFailed?
  }

  // ---- the sweep of one conversation -------------------------------------------------------------------

  function CurrentPlan(plans: map<(string, string), PlanRecord>, c: ConversationRecord): Option<(string, string)> {
    if c.currentPlanId.Some? && (c.sessionId, c.currentPlanId.value) in plans
    then Some((c.sessionId, c.currentPlanId.value)) else None
  }

  function CurrentCycle(cycles: map<string, CycleRecord>, c: ConversationRecord): Option<string> {
    if c.currentCycleId.Some? && c.currentCycleId.value in cycles then Some(c.currentCycleId.value) else None
  }

  /** The tasks of a plan that the sweep interrupts. */
  function OpenTasks(tasks: map<(string, string), TaskRecord>, plan: (string, string)): set<(string, string)> {
    set k | k in tasks && PlanOf(tasks[k]) == plan && !TaskTerminal(tasks[k].status)
  }

  function TasksSwept(tasks: map<(string, string), TaskRecord>,
                      ks: set<(string, string)>): (swept: map<(string, string), TaskRecord>)
    ensures swept.Keys == tasks.Keys
  {
    map k | k in tasks :: if k in ks then InterruptedTask(tasks[k], UserInterrupt) else tasks[k]
  }

  function PlanSwept(t: Tables, c: ConversationRecord): Tables {
    var plan := CurrentPlan(t.plans, c);
    if plan.Some? && OpenPlan(t.plans[plan.value].status) then
      var tasks := TasksSwept(t.tasks, OpenTasks(t.tasks, plan.value));
      t.(tasks := tasks,
         plans := t.plans[plan.value := InterruptedPlan(t.plans[plan.value], StoppedByUser, Tally(tasks, plan.value))])
    else t
  }

  function CycleSwept(t: Tables, c: ConversationRecord): Tables {
    var cycle := CurrentCycle(t.cycles, c);
    if cycle.Some? && t.cycles[cycle.value].status.CycleRunning? then
      t.(cycles := t.cycles[cycle.value := t.cycles[cycle.value].(status := CycleInterrupted)])
    else t
  }

  function ConversationSwept(t: Tables, id: string): Tables {
    if id in t.conversations && ConversationActive(t.conversations[id].status) then
      t.(conversations := t.conversations[id := t.conversations[id].(status := ConversationInterrupted)])
    else t
  }

  function AllSwept(t: Tables, c: ConversationRecord): Tables {
    ConversationSwept(CycleSwept(PlanSwept(t, c), c), c.conversationId)
  }

  function RotatingParent(conversations: map<string, ConversationRecord>,
                          c: ConversationRecord): Option<ConversationRecord> {
    if c.parentId.Some? && c.parentId.value in conversations && conversations[c.parentId.value].status.Rotating?
    then Some(conversations[c.parentId.value]) else None
  }

  function CurrentConversation(t: Tables, sid: string): Option<ConversationRecord>
    requires sid in t.sessions
  {
    var id := t.sessions[sid].currentConversationId;
    if id.Some? && id.value in t.conversations then Some(t.conversations[id.value]) else None
  }

  /** The whole sweep, from the fresh state of the store. */
  function Swept(t: Tables, sid: string): Tables
    requires sid in t.sessions
  {
    var c := CurrentConversation(t, sid);
    if c.None? then t
    else
      var t1 := AllSwept(t, c.value);
      var parent := RotatingParent(t1.conversations, c.value);
      if parent.Some? then AllSwept(t1, parent.value) else t1
  }

  // ---- what the sweep guarantees ------------------------------------------------------------------------

  predicate PlanQuiet(plans: map<(string, string), PlanRecord>, c: ConversationRecord) {
    CurrentPlan(plans, c).Some? ==> !OpenPlan(plans[CurrentPlan(plans, c).value].status)
  }

  predicate CycleQuiet(cycles: map<string, CycleRecord>, c: ConversationRecord) {
    CurrentCycle(cycles, c).Some? ==> !cycles[CurrentCycle(cycles, c).value].status.CycleRunning?
  }

  predicate Silent(conversations: map<string, ConversationRecord>, id: string) {
    id in conversations ==> !ConversationActive(conversations[id].status)
  }

  /** Nothing of this conversation is open any more. */
  predicate Quiet(t: Tables, c: ConversationRecord) {
    PlanQuiet(t.plans, c) && CycleQuiet(t.cycles, c) && Silent(t.conversations, c.conversationId)
  }

  lemma PlanSweep(t: Tables, c: ConversationRecord)
    ensures var s := PlanSwept(t, c);
            && PlanQuiet(s.plans, c)
            && (forall d | PlanQuiet(t.plans, d) :: PlanQuiet(s.plans, d))
            && (PlanQuiet(t.plans, c) ==> s == t)
            && s.plans.Keys == t.plans.Keys && s.tasks.Keys == t.tasks.Keys
            && s == t.(plans := s.plans, tasks := s.tasks)
  {
    hide Tally, TasksSwept, OpenTasks;
    var s := PlanSwept(t, c);
    assert s.plans.Keys == t.plans.Keys;
  }

  lemma CycleSweep(t: Tables, c: ConversationRecord)
    ensures var s := CycleSwept(t, c);
            && CycleQuiet(s.cycles, c)
            && (forall d | CycleQuiet(t.cycles, d) :: CycleQuiet(s.cycles, d))
            && (CycleQuiet(t.cycles, c) ==> s == t)
            && s.cycles.Keys == t.cycles.Keys && s == t.(cycles := s.cycles)
  {
    assert CycleSwept(t, c).cycles.Keys == t.cycles.Keys;
  }

  lemma ConversationSweep(t: Tables, id: string)
    ensures var s := ConversationSwept(t, id);
            && Silent(s.conversations, id)
            && (forall d | Silent(t.conversations, d) :: Silent(s.conversations, d))
            && (Silent(t.conversations, id) ==> s == t)
            && s.conversations.Keys == t.conversations.Keys && s == t.(conversations := s.conversations)
  {
    assert ConversationSwept(t, id).conversations.Keys == t.conversations.Keys;
  }

  lemma ConversationSweepKeepsLinks(t: Tables, id: string)
    ensures var s := ConversationSwept(t, id);
            forall d | d in t.conversations :: d in s.conversations && SameLinks(t.conversations[d], s.conversations[d])
                  && (d != id ==> s.conversations[d] == t.conversations[d])
  {
  }

  /** The fields the sweep reads of a conversation, none of which it changes. */
  predicate SameLinks(c: ConversationRecord, d: ConversationRecord) {
    && c.conversationId == d.conversationId && c.sessionId == d.sessionId && c.parentId == d.parentId
    && c.currentPlanId == d.currentPlanId && c.currentCycleId == d.currentCycleId
  }

  /** The sweep of one conversation closes what it had open, opens nothing, keeps every link, and writes
      nothing when there is nothing to close. */
  lemma ConversationSweptWhole(t: Tables, c: ConversationRecord)
    ensures var s := AllSwept(t, c);
            && Quiet(s, c)
            && (forall d | Quiet(t, d) :: Quiet(s, d))
            && (Quiet(t, c) ==> s == t)
            && s.sessions == t.sessions && s.messages == t.messages && s.blobs == t.blobs
            && s.conversations.Keys == t.conversations.Keys
            && (forall d | d in t.conversations :: SameLinks(t.conversations[d], s.conversations[d])
                  && (d != c.conversationId ==> s.conversations[d] == t.conversations[d]))
  {
    hide PlanSwept, CycleSwept, ConversationSwept, PlanQuiet, CycleQuiet, Silent, SameLinks;
    PlanSweep(t, c);
    CycleSweep(PlanSwept(t, c), c);
    ConversationSweep(CycleSwept(PlanSwept(t, c), c), c.conversationId);
    ConversationSweepKeepsLinks(CycleSwept(PlanSwept(t, c), c), c.conversationId);
  }

  lemma QuietDependsOnLinks(t: Tables, c: ConversationRecord, d: ConversationRecord)
    requires SameLinks(c, d)
    ensures Quiet(t, c) <==> Quiet(t, d)
    ensures RotatingParent(t.conversations, c) == RotatingParent(t.conversations, d)
  {
  }

  lemma QuietMeansNotRotating(t: Tables, c: ConversationRecord, p: ConversationRecord)
    requires c.parentId == Some(p.conversationId) && Quiet(t, p)
    ensures RotatingParent(t.conversations, c).None?
  {
  }

  /** After the sweep neither the conversation nor a parent whose rotation was in flight is active, and
      their current plans and cycles are closed. */
  lemma SweepIsQuiet(t: Tables, sid: string)
    requires WellKeyed(t) && sid in t.sessions && CurrentConversation(t, sid).Some?
    ensures var c := CurrentConversation(t, sid).value;
            var after := Swept(t, sid);
            && Quiet(after, c)
            && RotatingParent(after.conversations, c).None?
            && (RotatingParent(t.conversations, c).Some?
               ==> Quiet(after, RotatingParent(t.conversations, c).value) || c.parentId == Some(c.conversationId))
            && after.sessions == t.sessions && after.messages == t.messages
            && after.conversations.Keys == t.conversations.Keys
            && forall d | d in t.conversations :: SameLinks(t.conversations[d], after.conversations[d])
  {
    var c := CurrentConversation(t, sid).value;
    var t1 := AllSwept(t, c);
    var parent := RotatingParent(t1.conversations, c);
    CurrentKeyed(t, sid);
    hide WellKeyed, AllSwept, Quiet, SameLinks;
    ConversationSweptWhole(t, c);
    if parent.Some? {
      var p := parent.value;
      ConversationSweptWhole(t1, p);
      assert t1.conversations[c.parentId.value] == p && SameLinks(t.conversations[c.parentId.value], p);
      assert p.conversationId == c.parentId.value by { LinksKeepIds(t.conversations[c.parentId.value], p); }
      QuietMeansNotRotating(AllSwept(t1, p), c, p);
      forall d | d in t.conversations ensures SameLinks(t.conversations[d], AllSwept(t1, p).conversations[d]) {
        LinksTransitive(t.conversations[d], t1.conversations[d], AllSwept(t1, p).conversations[d]);
      }
    }
  }

  lemma LinksKeepIds(c: ConversationRecord, d: ConversationRecord)
    requires SameLinks(c, d)
    ensures c.conversationId == d.conversationId && c.parentId == d.parentId
  {
  }

  lemma LinksTransitive(c: ConversationRecord, d: ConversationRecord, e: ConversationRecord)
    requires SameLinks(c, d) && SameLinks(d, e)
    ensures SameLinks(c, e)
  {
  }

  lemma CurrentKeyed(t: Tables, sid: string)
    requires WellKeyed(t) && sid in t.sessions && CurrentConversation(t, sid).Some?
    ensures CurrentConversation(t, sid).value.conversationId == t.sessions[sid].currentConversationId.value
    ensures forall id | id in t.conversations :: t.conversations[id].conversationId == id
  {
  }

  /** The tasks the sweep found open in the plan of the conversation are terminal afterwards, and the ones
      that already were are untouched. */
  lemma SweptTasksTerminal(t: Tables, c: ConversationRecord, k: (string, string))
    requires CurrentPlan(t.plans, c).Some? && OpenPlan(t.plans[CurrentPlan(t.plans, c).value].status)
    requires k in t.tasks
    ensures var s := AllSwept(t, c);
            && k in s.tasks
            && (PlanOf(t.tasks[k]) == CurrentPlan(t.plans, c).value ==> TaskTerminal(s.tasks[k].status))
            && (TaskTerminal(t.tasks[k].status) || PlanOf(t.tasks[k]) != CurrentPlan(t.plans, c).value
               ==> s.tasks[k] == t.tasks[k])
  {
    hide Tally;
    var p := PlanSwept(t, c);
    assert AllSwept(t, c).tasks == p.tasks;
  }

  /** A repeated sweep writes nothing. */
  lemma RepeatedSweepWritesNothing(t: Tables, sid: string)
    requires WellKeyed(t) && sid in t.sessions
    ensures sid in Swept(t, sid).sessions && Swept(Swept(t, sid), sid) == Swept(t, sid)
  {
    hide AllSwept, Quiet, SameLinks, WellKeyed;
    var found := CurrentConversation(t, sid);
    if found.Some? {
      CurrentKeyed(t, sid);
      SweepIsQuiet(t, sid);
      var after := Swept(t, sid);
      var again := CurrentConversation(after, sid).value;
      QuietDependsOnLinks(after, found.value, again);
      ConversationSweptWhole(after, again);
    }
  }

  // ---- and what it leaves for good ---------------------------------------------------------------------------

  lemma ActiveIsInterrupted(t: Tables, c: ConversationRecord, id: string)
    requires id in t.conversations
    ensures id in AllSwept(t, c).conversations
    ensures id == c.conversationId && ConversationActive(t.conversations[id].status)
        ==> AllSwept(t, c).conversations[id].status.ConversationInterrupted?
    ensures t.conversations[id].status.ConversationInterrupted?
            ==> AllSwept(t, c).conversations[id].status.ConversationInterrupted?
  {
    hide PlanSwept, CycleSwept, PlanQuiet, CycleQuiet;
    PlanSweep(t, c);
    CycleSweep(PlanSwept(t, c), c);
    assert AllSwept(t, c).conversations == ConversationSwept(t, c.conversationId).conversations;
  }

  /** Whatever legal journal follows the sweep, the plan and the cycle of the conversation stay closed. */
  lemma SweptWorkStaysClosed(t: Tables, sid: string, later: Status)
    requires WellKeyed(t) && sid in t.sessions && CurrentConversation(t, sid).Some?
    requires Reaches(StatusOf(Swept(t, sid)), later)
    ensures var c := CurrentConversation(t, sid).value;
            && (CurrentPlan(t.plans, c).Some? ==>
                  var k := CurrentPlan(t.plans, c).value; k in later.plans && PlanTerminal(later.plans[k]))
            && (CurrentCycle(t.cycles, c).Some? ==>
                  var k := CurrentCycle(t.cycles, c).value; k in later.cycles && !later.cycles[k].CycleRunning?)
  {
    var c := CurrentConversation(t, sid).value;
    var after := Swept(t, sid);
    assert after.plans.Keys == t.plans.Keys && after.cycles.Keys == t.cycles.Keys by { SweepInterrupts(t, sid); }
    assert Quiet(after, c) by { SweepIsQuiet(t, sid); }
    hide Swept, WellKeyed, Reaches, StatusOf;
    FinalRecordsStay(after, later);
  }

  /** And a conversation that was active, or a parent whose rotation was in flight, stays interrupted. */
  lemma InterruptedForGood(t: Tables, sid: string, later: Status)
    requires WellKeyed(t) && sid in t.sessions && CurrentConversation(t, sid).Some?
    requires Reaches(StatusOf(Swept(t, sid)), later)
    ensures var c := CurrentConversation(t, sid).value;
            && (ConversationActive(c.status) ==>
                  c.conversationId in later.conversations
                    && later.conversations[c.conversationId].ConversationInterrupted?)
            && (RotatingParent(t.conversations, c).Some? ==>
                  c.parentId.value in later.conversations
                    && later.conversations[c.parentId.value].ConversationInterrupted?)
  {
    SweepInterrupts(t, sid);
    var after := Swept(t, sid);
    hide Swept, WellKeyed, Reaches, StatusOf;
    FinalRecordsStay(after, later);
  }

  lemma FinalRecordsStay(t: Tables, later: Status)
    requires Reaches(StatusOf(t), later)
    ensures forall k | k in t.plans && PlanTerminal(t.plans[k].status) ::
              k in later.plans && later.plans[k] == t.plans[k].status
    ensures forall k | k in t.cycles && !t.cycles[k].status.CycleRunning? ::
              k in later.cycles && later.cycles[k] == t.cycles[k].status
    ensures forall k | k in t.conversations && FinalConversation(t.conversations[k].status) ::
              k in later.conversations && later.conversations[k] == t.conversations[k].status
  {
    var s := StatusOf(t);
    assert s.plans.Keys == t.plans.Keys && s.cycles.Keys == t.cycles.Keys
           && s.conversations.Keys == t.conversations.Keys;
    FinalStatesStay(s, later);
  }

  lemma SweepInterrupts(t: Tables, sid: string)
    requires WellKeyed(t) && sid in t.sessions && CurrentConversation(t, sid).Some?
    ensures var c := CurrentConversation(t, sid).value;
            var after := Swept(t, sid);
            && (c.conversationId in after.conversations)
            && after.plans.Keys == t.plans.Keys && after.cycles.Keys == t.cycles.Keys
            && (ConversationActive(c.status) ==> after.conversations[c.conversationId].status.ConversationInterrupted?)
            && (RotatingParent(t.conversations, c).Some? ==>
                  c.parentId.value in after.conversations
                    && after.conversations[c.parentId.value].status.ConversationInterrupted?)
  {
    var c := CurrentConversation(t, sid).value;
    CurrentKeyed(t, sid);
    var t1 := AllSwept(t, c);
    ConversationSweptWhole(t, c);
    SweepKeepsKeys(t, c);
    ActiveIsInterrupted(t, c, c.conversationId);
    var parent := RotatingParent(t1.conversations, c);
    if RotatingParent(t.conversations, c).Some? { ActiveIsInterrupted(t, c, c.parentId.value); }
    if parent.Some? {
      SweepKeepsKeys(t1, parent.value);
      ActiveIsInterrupted(t1, parent.value, c.conversationId);
      ActiveIsInterrupted(t1, parent.value, c.parentId.value);
    }
    hide AllSwept, WellKeyed, Quiet;
  }

  lemma SweepKeepsKeys(t: Tables, c: ConversationRecord)
    ensures AllSwept(t, c).plans.Keys == t.plans.Keys && AllSwept(t, c).cycles.Keys == t.cycles.Keys
  {
    PlanSweep(t, c);
    CycleSweep(PlanSwept(t, c), c);
  }
}

/**
 The restart policy: what the store looks like after recovery, as a function of what it looked like
 before, and why that is a safe and stable place to restart from.
 */
module Recovery {
  import opened Options
  import opened States
  import opened Records
  import opened Lifecycle

  predicate OpenSession(s: SessionState) {
    s.SessionRunning? || s.Interrupting?
  }

  predicate FinishedConversation(s: ConversationState) {
    s.ConversationCompleted? || s.WaitingUser? || s.Closed?
  }

  // ---- which conversations can be resumed -----------------------------------------------------------

  /** The last message of a conversation, in insertion order. */
  function LastMessage(messages: seq<MessageRecord>, conversationId: string): Option<MessageRecord> {
    if messages == [] then None
    else
      var m := messages[|messages| - 1];
      if m.conversationId == conversationId then Some(m)
      else LastMessage(messages[..|messages| - 1], conversationId)
  }

  /** The conversation waits on a persisted, unanswered request or result. */
  predicate PendingOutbound(t: Tables, conversationId: string) {
    var last := LastMessage(t.messages, conversationId);
    && last.Some? && last.value.direction.Outbound?
    && (last.value.messageType.UserRequest? || last.value.messageType.ExecutionResult?)
  }

  predicate RotationInFlight(t: Tables, c: ConversationRecord) {
    c.parentId.Some? && c.parentId.value in t.conversations && t.conversations[c.parentId.value].status.Rotating?
  }

  /** All that makes a conversation resumable, but for a rotation of its parent. */
  predicate Awaiting(t: Tables, id: string) {
    && id in t.conversations
    && var c := t.conversations[id];
    && c.status.WaitingModelResponse?
    && c.sessionId in t.sessions
    && t.sessions[c.sessionId].status.SessionRunning?
    && t.sessions[c.sessionId].currentConversationId == Some(id)
    && PendingOutbound(t, id)
  }

  predicate IsResumable(t: Tables, id: string) {
    Awaiting(t, id) && !RotationInFlight(t, t.conversations[id])
  }

  function Resumable(t: Tables): set<string> {
    set id | id in t.conversations && IsResumable(t, id)
  }

  // ---- tasks and plans ------------------------------------------------------------------------------------

  predicate TaskInterrupted(t: Tables, k: (string, string))
    requires k in t.tasks
  {
    || t.tasks[k].status.RUNNING?
    || (Schedulable(t.tasks[k].status) && PlanOf(t.tasks[k]) in t.plans && OpenPlan(t.plans[PlanOf(t.tasks[k])].status))
  }

  function TasksAfter(t: Tables): map<(string, string), TaskRecord> {
    map k | k in t.tasks :: if TaskInterrupted(t, k) then InterruptedTask(t.tasks[k], Restart) else t.tasks[k]
  }

  function PlansAfter(t: Tables): map<(string, string), PlanRecord> {
    map k | k in t.plans ::
      if OpenPlan(t.plans[k].status) then InterruptedPlan(t.plans[k], StoppedByRestart, Tally(TasksAfter(t), k))
        else t.plans[k]
  }

  // ---- cycles and conversations ------------------------------------------------------------------------------

  /** The conversations whose running cycles are looked at: active ones, and all those of open sessions. */
  predicate InScope(t: Tables, id: string) {
    && id in t.conversations
    && (|| ConversationActive(t.conversations[id].status)
        || (t.conversations[id].sessionId in t.sessions
           && OpenSession(t.sessions[t.conversations[id].sessionId].status)))
  }

  predicate CycleCut(t: Tables, k: string)
    requires k in t.cycles
  {
    && t.cycles[k].status.CycleRunning?
    && InScope(t, t.cycles[k].conversationId)
    && !IsResumable(t, t.cycles[k].conversationId)
  }

  function CyclesAfter(t: Tables): map<string, CycleRecord> {
    map k | k in t.cycles :: if CycleCut(t, k) then t.cycles[k].(status := CycleInterrupted) else t.cycles[k]
  }

  function ConversationsSettled(t: Tables): (settled: map<string, ConversationRecord>)
    ensures settled.Keys == t.conversations.Keys
  {
    map id | id in t.conversations ::
      if ConversationActive(t.conversations[id].status) && !IsResumable(t, id)
      then t.conversations[id].(status := ConversationInterrupted) else t.conversations[id]
  }

  // ---- sessions ----------------------------------------------------------------------------------------------

  /** Where an open session goes, given its conversations once settled. */
  function SessionTarget(s: SessionRecord, conversations: map<string, ConversationRecord>,
                         resumable: set<string>): SessionState {
    var current := s.currentConversationId;
    var known := current.Some? && current.value in conversations;
    if !OpenSession(s.status) then s.status
    else if s.status.SessionRunning? && known && current.value in resumable then SessionRunning
    else if s.status.SessionRunning? && known
      && conversations[current.value].status.ConversationFailed? then SessionFailed
    else if s.status.SessionRunning? && known
      && FinishedConversation(conversations[current.value].status) then SessionCompleted
    else Ready
  }

  function SessionsAfter(t: Tables): map<string, SessionRecord> {
    map k | k in t.sessions ::
      t.sessions[k].(status := SessionTarget(t.sessions[k], ConversationsSettled(t), Resumable(t)))
  }

  /** The conversation was left `COMPLETED` by a crash between the final answer and the closure: some
      running session still points to it. */
  ghost predicate LeftCompleted(t: Tables, id: string) {
    && id in t.conversations && t.conversations[id].status.ConversationCompleted?
    && exists k :: PointsFrom(t, k, id)
  }

  predicate PointsFrom(t: Tables, k: string, id: string) {
    k in t.sessions && t.sessions[k].status.SessionRunning? && t.sessions[k].currentConversationId == Some(id)
  }

  function Finished(c: ConversationRecord): ConversationRecord {
    if c.autoClose then c.(status := Closed, closureReason := Some("auto_close")) else c.(status := WaitingUser)
  }

  ghost function ConversationsAfter(t: Tables): map<string, ConversationRecord> {
    var settled := ConversationsSettled(t);
    map id | id in t.conversations :: if LeftCompleted(t, id) then Finished(settled[id]) else settled[id]
  }

  /** The whole policy. */
  ghost function Recovered(t: Tables): Tables {
    t.(tasks := TasksAfter(t), plans := PlansAfter(t), cycles := CyclesAfter(t),
       conversations := ConversationsAfter(t), sessions := SessionsAfter(t))
  }

  // ---- what the policy guarantees, from any store ------------------------------------------------------------

  lemma ResumableStays(t: Tables, id: string)
    requires IsResumable(t, id)
    ensures IsResumable(Recovered(t), id)
    ensures id in ConversationsAfter(t) && ConversationsAfter(t)[id] == t.conversations[id]
  {
    assert id in Resumable(t);
  }

  lemma ActiveIsResumable(t: Tables, id: string)
    requires id in ConversationsAfter(t) && ConversationActive(ConversationsAfter(t)[id].status)
    ensures IsResumable(t, id) && IsResumable(Recovered(t), id)
  {
    assert IsResumable(t, id);
    ResumableStays(t, id);
  }

  lemma RunningPointsToResumable(t: Tables, k: string)
    requires k in SessionsAfter(t) && SessionsAfter(t)[k].status.SessionRunning?
    ensures SessionsAfter(t)[k] == t.sessions[k] && SessionsAfter(t)[k].currentConversationId.Some?
    ensures IsResumable(Recovered(t), SessionsAfter(t)[k].currentConversationId.value)
  {
    var id := t.sessions[k].currentConversationId.value;
    assert id in Resumable(t);
    ResumableStays(t, id);
  }

  /** From any store at all: nothing is left running or half open. */
  lemma SafeToRestart(t: Tables)
    ensures var r := Recovered(t);
            && (forall k | k in r.tasks :: !r.tasks[k].status.RUNNING?)
            && (forall k | k in r.plans :: !OpenPlan(r.plans[k].status))
            && (forall k | k in r.sessions :: !r.sessions[k].status.Interrupting?)
            && (forall id | id in r.conversations && ConversationActive(r.conversations[id].status) ::
                 IsResumable(r, id))
            && (forall k | k in r.sessions && r.sessions[k].status.SessionRunning? ::
                  r.sessions[k].currentConversationId.Some?
                    && IsResumable(r, r.sessions[k].currentConversationId.value))
            && (forall k | k in r.tasks && Schedulable(r.tasks[k].status) && PlanOf(r.tasks[k]) in r.plans ::
                  r.plans[PlanOf(r.tasks[k])] == t.plans[PlanOf(r.tasks[k])])
  {
    var r := Recovered(t);
    forall id | id in r.conversations && ConversationActive(r.conversations[id].status) ensures IsResumable(r, id) {
      ActiveIsResumable(t, id);
    }
    forall k | k in r.sessions && r.sessions[k].status.SessionRunning?
      ensures r.sessions[k].currentConversationId.Some? && IsResumable(r, r.sessions[k].currentConversationId.value)
    {
      RunningPointsToResumable(t, k);
    }
  }

  /** Terminal entities, and sessions that are not open, are never touched. */
  lemma TerminalUntouched(t: Tables)
    ensures var r := Recovered(t);
            && (forall k | k in t.tasks && TaskTerminal(t.tasks[k].status) :: r.tasks[k] == t.tasks[k])
            && (forall k | k in t.plans && PlanTerminal(t.plans[k].status) :: r.plans[k] == t.plans[k])
            && (forall k | k in t.cycles && !t.cycles[k].status.CycleRunning? :: r.cycles[k] == t.cycles[k])
            && (forall k | k in t.sessions && !OpenSession(t.sessions[k].status) :: r.sessions[k] == t.sessions[k])
            && (forall k | k in t.conversations && !ConversationActive(t.conversations[k].status)
                           && !t.conversations[k].status.ConversationCompleted? ::
                                r.conversations[k] == t.conversations[k])
            && r.messages == t.messages && r.blobs == t.blobs
  {
  }

  /** A conversation that waits in a paused session is interrupted, and its session stays paused. */
  lemma PausedSessionLosesItsConversation(t: Tables, k: string, id: string)
    requires k in t.sessions && t.sessions[k].status.Paused?
    requires id in t.conversations && t.conversations[id].sessionId == k
    requires t.conversations[id].status.WaitingModelResponse?
    ensures Recovered(t).conversations[id].status.ConversationInterrupted?
    ensures Recovered(t).sessions[k] == t.sessions[k]
  {
  }

  // ---- a second run changes nothing ---------------------------------------------------------------------------

  lemma TasksAndPlansStable(t: Tables)
    ensures TasksAfter(Recovered(t)) == TasksAfter(t) && PlansAfter(Recovered(t)) == PlansAfter(t)
  {
    var r := Recovered(t);
    forall k | k in r.tasks ensures TasksAfter(r)[k] == r.tasks[k] {
      if PlanOf(r.tasks[k]) in r.plans { assert !OpenPlan(r.plans[PlanOf(r.tasks[k])].status); }
    }
  }

  lemma ConversationsStable(t: Tables)
    ensures ConversationsAfter(Recovered(t)) == ConversationsAfter(t)
  {
    var r := Recovered(t);
    forall id | id in r.conversations ensures ConversationsAfter(r)[id] == r.conversations[id] {
      if ConversationActive(r.conversations[id].status) { ActiveIsResumable(t, id); }
      if LeftCompleted(r, id) {
        var k :| PointsFrom(r, k, id);
        RunningPointsToResumable(t, k);
        assert false;
      }
    }
  }

  lemma SessionsStable(t: Tables)
    ensures SessionsAfter(Recovered(t)) == SessionsAfter(t)
  {
    var r := Recovered(t);
    forall k | k in r.sessions ensures SessionsAfter(r)[k] == r.sessions[k] {
      if r.sessions[k].status.SessionRunning? {
        RunningPointsToResumable(t, k);
        var id := r.sessions[k].currentConversationId.value;
        assert id in Resumable(r) && id in ConversationsSettled(r);
      }
    }
  }

  lemma CyclesStable(t: Tables)
    ensures CyclesAfter(Recovered(t)) == CyclesAfter(t)
  {
    var r := Recovered(t);
    forall k | k in r.cycles ensures !CycleCut(r, k) {
      if r.cycles[k].status.CycleRunning? && InScope(r, r.cycles[k].conversationId) {
        var id := r.cycles[k].conversationId;
        assert InScope(t, id) by { ScopeShrinks(t, id); }
        assert IsResumable(t, id);
        ResumableStays(t, id);
      }
    }
  }

  lemma ScopeShrinks(t: Tables, id: string)
    requires InScope(Recovered(t), id)
    ensures InScope(t, id)
  {
    var r := Recovered(t);
    if ConversationActive(r.conversations[id].status) { ActiveIsResumable(t, id); }
  }

  /** Recovery is idempotent: run again, it changes no record. */
  lemma SecondRunChangesNothing(t: Tables)
    ensures Recovered(Recovered(t)) == Recovered(t)
  {
    TasksAndPlansStable(t);
    ConversationsStable(t);
    SessionsStable(t);
    CyclesStable(t);
  }

  // ---- partial results of the passes ------------------------------------------------------------------------

  function WithTasks(tasks: map<(string, string), TaskRecord>, ks: set<(string, string)>): map<(string,
                     string), TaskRecord> {
    map k | k in tasks :: if k in ks then InterruptedTask(tasks[k], Restart) else tasks[k]
  }

  function RunningTasks(t: Tables): set<(string, string)> {
    set k | k in t.tasks && t.tasks[k].status.RUNNING?
  }

  function OpenPlans(t: Tables): set<(string, string)> {
    set k | k in t.plans && OpenPlan(t.plans[k].status)
  }

  function WaitingIn(t: Tables, plan: (string, string)): set<(string, string)> {
    set k | k in t.tasks && PlanOf(t.tasks[k]) == plan && Schedulable(t.tasks[k].status)
  }

  function WaitingInAny(t: Tables, plans: set<(string, string)>): set<(string, string)> {
    set k | k in t.tasks && PlanOf(t.tasks[k]) in plans && Schedulable(t.tasks[k].status)
  }

  function WithPlans(plans: map<(string, string), PlanRecord>, ks: set<(string, string)>,
                     tasks: map<(string, string), TaskRecord>): map<(string, string), PlanRecord> {
    map k | k in plans :: if k in ks then InterruptedPlan(plans[k], StoppedByRestart, Tally(tasks, k)) else plans[k]
  }

  function CutCycles(t: Tables): set<string> {
    set k | k in t.cycles && CycleCut(t, k)
  }

  function WithCycles(cycles: map<string, CycleRecord>, ks: set<string>): map<string, CycleRecord> {
    map k | k in cycles :: if k in ks then cycles[k].(status := CycleInterrupted) else cycles[k]
  }

  function LostConversations(t: Tables): set<string> {
    set id | id in t.conversations && ConversationActive(t.conversations[id].status) && !IsResumable(t, id)
  }

  function WithConversations(conversations: map<string, ConversationRecord>,
                             ids: set<string>): map<string, ConversationRecord> {
    map id | id in conversations ::
      if id in ids then conversations[id].(status := ConversationInterrupted) else conversations[id]
  }

  function OpenSessions(t: Tables): set<string> {
    set k | k in t.sessions && OpenSession(t.sessions[k].status)
  }

  function WithSessions(t: Tables, settled: map<string, ConversationRecord>,
                        ks: set<string>): map<string, SessionRecord> {
    map k | k in t.sessions ::
      if k in ks then t.sessions[k].(status := SessionTarget(t.sessions[k], settled, Resumable(t))) else t.sessions[k]
  }

  /** The conversations finished on behalf of the running sessions of `ks`. */
  predicate FinishedBy(t: Tables, ks: set<string>, id: string)
    requires id in t.conversations
  {
    t.conversations[id].status.ConversationCompleted? && exists k | k in ks :: PointsFrom(t, k, id)
  }

  function WithFinished(t: Tables, settled: map<string, ConversationRecord>,
                        ks: set<string>): map<string, ConversationRecord>
    requires settled.Keys == t.conversations.Keys
  {
    map id | id in t.conversations :: if FinishedBy(t, ks, id) then Finished(settled[id]) else settled[id]
  }

  lemma AllPassesDone(t: Tables)
    ensures WithTasks(WithTasks(t.tasks, RunningTasks(t)), WaitingInAny(t, OpenPlans(t))) == TasksAfter(t)
    ensures WithPlans(t.plans, OpenPlans(t), TasksAfter(t)) == PlansAfter(t)
    ensures WithCycles(t.cycles, CutCycles(t)) == CyclesAfter(t)
    ensures WithConversations(t.conversations, LostConversations(t)) == ConversationsSettled(t)
  {
  }

  lemma SessionPassDone(t: Tables)
    ensures WithSessions(t, ConversationsSettled(t), OpenSessions(t)) == SessionsAfter(t)
    ensures WithFinished(t, ConversationsSettled(t), OpenSessions(t)) == ConversationsAfter(t)
  {
    forall id | id in t.conversations ensures FinishedBy(t, OpenSessions(t), id) <==> LeftCompleted(t, id) {
      if LeftCompleted(t, id) {
        var k :| PointsFrom(t, k, id);
        assert k in OpenSessions(t);
      }
    }
  }

  // ---- a pass cut short -----------------------------------------------------------------------------------

  /** Where a pass was cut short: within the tasks, the plans and so on, and what of them was done; `half`:
      a session between its two writes. */
  datatype Cut =
    | InTasks(tasks: set<(string, string)>)
    | InPlans(plans: set<(string, string)>)
    | InCycles(cycles: set<string>)
    | InConversations(conversations: set<string>)
    | InSessions(sessions: set<string>, half: Option<string>)

  ghost predicate Fits(t: Tables, cut: Cut) {
    match cut
    case InTasks(ks) => ks <= RunningTasks(t) + WaitingInAny(t, OpenPlans(t))
    case InPlans(ks) => ks <= OpenPlans(t)
    case InCycles(ks) => ks <= CutCycles(t)
    case InConversations(ids) => ids <= LostConversations(t)
    case InSessions(done, half) => done <= OpenSessions(t) && (half.Some? ==> half.value in OpenSessions(t) - done)
  }

  ghost function SessionsSoFar(t: Tables, done: set<string>, half: Option<string>): map<string, SessionRecord> {
    var sessions := WithSessions(t, ConversationsSettled(t), done);
    if half.Some? && half.value in t.sessions
      && SessionTarget(t.sessions[half.value], ConversationsSettled(t), Resumable(t)).Ready?
    then sessions[half.value := t.sessions[half.value].(status := Interrupting)] else sessions
  }

  ghost function ConversationsSoFar(t: Tables, done: set<string>,
                                    half: Option<string>): map<string, ConversationRecord> {
    WithFinished(t, ConversationsSettled(t), done + if half.Some? then {half.value} else {})
  }

  /** What the store holds then. */
  ghost function Interim(t: Tables, cut: Cut): Tables {
    match cut
    case InTasks(ks) => t.(tasks := WithTasks(t.tasks, ks))
    case InPlans(ks) => t.(tasks := TasksAfter(t), plans := WithPlans(t.plans, ks, TasksAfter(t)))
    case InCycles(ks) => t.(tasks := TasksAfter(t), plans := PlansAfter(t), cycles := WithCycles(t.cycles, ks))
    case InConversations(ids) =>
      t.(tasks := TasksAfter(t), plans := PlansAfter(t), cycles := CyclesAfter(t),
         conversations := WithConversations(t.conversations, ids))
    case InSessions(done, half) =>
      t.(tasks := TasksAfter(t), plans := PlansAfter(t), cycles := CyclesAfter(t),
         conversations := ConversationsSoFar(t, done, half), sessions := SessionsSoFar(t, done, half))
  }

  /** A child that would be resumable were its parent not rotating. */
  predicate Masked(t: Tables, id: string) {
    Awaiting(t, id) && RotationInFlight(t, t.conversations[id])
  }

  /** The pass stopped after the interruption of a rotating parent and before that of its waiting child,
      which no longer looks like part of a rotation. */
  ghost predicate Unmasks(t: Tables, cut: Cut) {
    cut.InConversations? && exists id :: Unmasked(t, cut.conversations, id)
  }

  predicate Unmasked(t: Tables, ids: set<string>, id: string) {
    Masked(t, id) && id !in ids && t.conversations[id].parentId.value in ids
  }

  lemma TasksFromInterim(t: Tables, cut: Cut)
    requires Fits(t, cut) && (cut.InTasks? || cut.InPlans?)
    ensures TasksAfter(Interim(t, cut)) == TasksAfter(t)
  {
    hide IsResumable;
  }

  lemma PlansFromInterim(t: Tables, cut: Cut)
    requires Fits(t, cut) && (cut.InTasks? || cut.InPlans?)
    ensures PlansAfter(Interim(t, cut)) == PlansAfter(t)
  {
    hide Tally, IsResumable;
    TasksFromInterim(t, cut);
    var m := Interim(t, cut);
    hide TasksAfter, WithTasks;
    assert m.plans.Keys == t.plans.Keys;
  }

  /** Once the tasks and plans are settled they stay as they are. */
  lemma TasksAndPlansDone(t: Tables, m: Tables)
    requires m.tasks == TasksAfter(t) && m.plans == PlansAfter(t)
    ensures TasksAfter(m) == m.tasks && PlansAfter(m) == m.plans
  {
    hide Tally, IsResumable;
    forall k | k in m.tasks ensures TasksAfter(m)[k] == m.tasks[k] {
      if PlanOf(m.tasks[k]) in m.plans { assert !OpenPlan(m.plans[PlanOf(m.tasks[k])].status); }
    }
  }

  /** Same sessions, conversations and messages: the same conversations are resumable. */
  lemma SameResumable(t: Tables, m: Tables)
    requires m.conversations == t.conversations && m.sessions == t.sessions && m.messages == t.messages
    ensures forall id :: IsResumable(m, id) <==> IsResumable(t, id)
    ensures Resumable(m) == Resumable(t) && ConversationsSettled(m) == ConversationsSettled(t)
  {
    forall id ensures IsResumable(m, id) <==> IsResumable(t, id) {
    }
  }

  lemma SameSettlement(t: Tables, m: Tables)
    requires m.conversations == t.conversations && m.sessions == t.sessions && m.messages == t.messages
    ensures SessionsAfter(m) == SessionsAfter(t) && ConversationsAfter(m) == ConversationsAfter(t)
  {
    SameResumable(t, m);
    hide IsResumable, ConversationsSettled, Resumable, Finished;
    forall id ensures LeftCompleted(m, id) <==> LeftCompleted(t, id) {
      assert forall k :: PointsFrom(m, k, id) <==> PointsFrom(t, k, id);
    }
  }

  lemma SameCycles(t: Tables, m: Tables)
    requires m.conversations == t.conversations && m.sessions == t.sessions && m.messages == t.messages
             && m.cycles == t.cycles
    ensures CyclesAfter(m) == CyclesAfter(t)
  {
    SameResumable(t, m);
    hide IsResumable;
    forall k | k in t.cycles ensures CycleCut(m, k) <==> CycleCut(t, k) {
      assert InScope(m, t.cycles[k].conversationId) <==> InScope(t, t.cycles[k].conversationId);
    }
  }

  lemma EarlyCut(t: Tables, cut: Cut)
    requires Fits(t, cut) && (cut.InTasks? || cut.InPlans?)
    ensures Recovered(Interim(t, cut)) == Recovered(t)
  {
    var m := Interim(t, cut);
    TasksFromInterim(t, cut);
    PlansFromInterim(t, cut);
    SameSettlement(t, m);
    SameCycles(t, m);
    hide TasksAfter, PlansAfter, CyclesAfter, SessionsAfter, ConversationsAfter, WithTasks, WithPlans;
  }

  lemma CutInCycles(t: Tables, ks: set<string>)
    requires Fits(t, InCycles(ks))
    ensures Recovered(Interim(t, InCycles(ks))) == Recovered(t)
  {
    var m := Interim(t, InCycles(ks));
    TasksAndPlansDone(t, m);
    SameSettlement(t, m);
    CyclesFromInterim(t, m, ks);
    hide TasksAfter, PlansAfter, CyclesAfter, SessionsAfter, ConversationsAfter, WithCycles;
  }

  lemma CyclesFromInterim(t: Tables, m: Tables, ks: set<string>)
    requires ks <= CutCycles(t) && m.cycles == WithCycles(t.cycles, ks)
    requires m.conversations == t.conversations && m.sessions == t.sessions && m.messages == t.messages
    ensures CyclesAfter(m) == CyclesAfter(t)
  {
    SameResumable(t, m);
    hide IsResumable;
    assert forall id :: InScope(m, id) <==> InScope(t, id);
  }

  /** Which conversations are resumable after some of the lost ones were interrupted. */
  lemma ResumableFromInterim(t: Tables, ids: set<string>, id: string)
    requires ids <= LostConversations(t)
    ensures var m := Interim(t, InConversations(ids));
            IsResumable(m, id) <==> IsResumable(t, id) || Unmasked(t, ids, id)
  {
    hide TasksAfter, PlansAfter, CyclesAfter;
    var m := Interim(t, InConversations(ids));
    assert PendingOutbound(m, id) <==> PendingOutbound(t, id);
    assert Awaiting(m, id) <==> Awaiting(t, id) && id !in ids;
  }

  lemma CutInConversations(t: Tables, ids: set<string>)
    requires Fits(t, InConversations(ids)) && !Unmasks(t, InConversations(ids))
    ensures Recovered(Interim(t, InConversations(ids))) == Recovered(t)
  {
    var m := Interim(t, InConversations(ids));
    TasksAndPlansDone(t, m);
    forall id ensures IsResumable(m, id) <==> IsResumable(t, id) {
      ResumableFromInterim(t, ids, id);
      assert !Unmasked(t, ids, id);
    }
    ConversationsFromInterim(t, m, ids);
    LaterScope(t, m);
    hide TasksAfter, PlansAfter, CyclesAfter, SessionsAfter, ConversationsAfter, WithConversations, IsResumable;
  }

  lemma ConversationsFromInterim(t: Tables, m: Tables, ids: set<string>)
    requires ids <= LostConversations(t) && m.conversations == WithConversations(t.conversations, ids)
             && m.sessions == t.sessions
    requires forall id :: IsResumable(m, id) <==> IsResumable(t, id)
    ensures Resumable(m) == Resumable(t) && ConversationsSettled(m) == ConversationsSettled(t)
    ensures SessionsAfter(m) == SessionsAfter(t) && ConversationsAfter(m) == ConversationsAfter(t)
    ensures forall id | InScope(m, id) :: InScope(t, id)
  {
    hide IsResumable, Finished;
    assert ConversationsSettled(m) == ConversationsSettled(t);
    forall id ensures LeftCompleted(m, id) <==> LeftCompleted(t, id) {
      assert forall k :: PointsFrom(m, k, id) <==> PointsFrom(t, k, id);
    }
  }

  /** Once the cycles are settled, they stay as they are when the scope only shrinks. */
  lemma LaterScope(t: Tables, m: Tables)
    requires m.cycles == CyclesAfter(t)
    requires forall id :: IsResumable(m, id) <==> IsResumable(t, id)
    requires forall id | InScope(m, id) :: InScope(t, id)
    ensures CyclesAfter(m) == m.cycles
  {
    hide IsResumable, InScope;
    forall k | k in m.cycles ensures !CycleCut(m, k) {
      assert m.cycles[k].status.CycleRunning? ==> !CycleCut(t, k);
    }
  }

  /** A child unmasked this way is resumed by the next pass, although the first one would have ended it. */
  lemma UnmaskedIsResumed(t: Tables, ids: set<string>, id: string)
    requires Fits(t, InConversations(ids)) && Unmasked(t, ids, id)
    ensures Recovered(t).conversations[id].status.ConversationInterrupted?
    ensures Recovered(Interim(t, InConversations(ids))).conversations[id].status.WaitingModelResponse?
  {
    ResumableFromInterim(t, ids, id);
  }

  // ---- cut between two sessions, or within one

  lemma ResumableFromSessions(t: Tables, done: set<string>, half: Option<string>, id: string)
    requires Fits(t, InSessions(done, half))
    ensures IsResumable(Interim(t, InSessions(done, half)), id) <==> IsResumable(t, id)
  {
    hide TasksAfter, PlansAfter, CyclesAfter;
    var m := Interim(t, InSessions(done, half));
    assert PendingOutbound(m, id) <==> PendingOutbound(t, id);
    if IsResumable(t, id) { assert id in Resumable(t); }
  }

  lemma ConversationsFromSessions(t: Tables, done: set<string>, half: Option<string>)
    requires Fits(t, InSessions(done, half))
    ensures ConversationsSettled(Interim(t, InSessions(done, half))) == ConversationsSoFar(t, done, half)
  {
    hide TasksAfter, PlansAfter, CyclesAfter, IsResumable, SessionsSoFar;
    var m := Interim(t, InSessions(done, half));
    forall id | id in m.conversations && ConversationActive(m.conversations[id].status) ensures IsResumable(m, id) {
      ResumableFromSessions(t, done, half, id);
    }
  }

  /** The running sessions that are left still point to the conversations they left completed. */
  lemma LeftFromSessions(t: Tables, done: set<string>, half: Option<string>, id: string)
    requires Fits(t, InSessions(done, half)) && id in t.conversations
    ensures var m := Interim(t, InSessions(done, half));
            var fin := done + if half.Some? then {half.value} else {};
            LeftCompleted(t, id) <==> FinishedBy(t, fin, id) || LeftCompleted(m, id)
    ensures LeftCompleted(Interim(t, InSessions(done, half)), id) ==>
              !FinishedBy(t, done + if half.Some? then {half.value} else {}, id)
  {
    hide TasksAfter, PlansAfter, CyclesAfter, IsResumable;
    var m := Interim(t, InSessions(done, half));
    var fin := done + if half.Some? then {half.value} else {};
    if LeftCompleted(t, id) && !FinishedBy(t, fin, id) {
      var k :| PointsFrom(t, k, id);
      assert k !in fin;
      assert PointsFrom(m, k, id);
    }
    if LeftCompleted(m, id) {
      var k :| PointsFrom(m, k, id);
      assert PointsFrom(t, k, id) by { RunningBefore(t, done, half, k); }
    }
  }

  lemma RunningBefore(t: Tables, done: set<string>, half: Option<string>, k: string)
    requires Fits(t, InSessions(done, half)) && k in t.sessions
    ensures var now := SessionsSoFar(t, done, half);
            k in now && (now[k].status.SessionRunning? ==> now[k] == t.sessions[k])
  {
    hide IsResumable;
  }

  lemma FinishedFromSessions(t: Tables, done: set<string>, half: Option<string>)
    requires Fits(t, InSessions(done, half))
    ensures ConversationsAfter(Interim(t, InSessions(done, half))) == ConversationsAfter(t)
  {
    ConversationsFromSessions(t, done, half);
    var m := Interim(t, InSessions(done, half));
    hide TasksAfter, PlansAfter, CyclesAfter, IsResumable, SessionsSoFar, LeftCompleted, ConversationsSettled,
         FinishedBy, SessionsAfter;
    forall id | id in t.conversations ensures ConversationsAfter(m)[id] == ConversationsAfter(t)[id] {
      LeftFromSessions(t, done, half, id);
    }
  }

  lemma SameKeysFromSessions(t: Tables, done: set<string>, half: Option<string>)
    requires Fits(t, InSessions(done, half))
    ensures var m := Interim(t, InSessions(done, half));
            m.sessions.Keys == t.sessions.Keys && m.conversations.Keys == t.conversations.Keys
  {
    hide TasksAfter, PlansAfter, CyclesAfter, IsResumable, SessionTarget, ConversationsSettled, FinishedBy;
  }

  lemma SessionsFromSessions(t: Tables, done: set<string>, half: Option<string>)
    requires Fits(t, InSessions(done, half))
    ensures SessionsAfter(Interim(t, InSessions(done, half))) == SessionsAfter(t)
  {
    hide TasksAfter, PlansAfter, CyclesAfter, IsResumable, SessionTarget, ConversationsSoFar, SessionsSoFar,
         ConversationsSettled, Fits;
    ConversationsFromSessions(t, done, half);
    SameKeysFromSessions(t, done, half);
    var m := Interim(t, InSessions(done, half));
    forall id ensures IsResumable(m, id) <==> IsResumable(t, id) { ResumableFromSessions(t, done, half, id); }
    assert Resumable(m) == Resumable(t);
    forall k | k in t.sessions ensures SessionsAfter(m)[k] == SessionsAfter(t)[k] {
      SettledOnce(t, done, half, k);
    }
  }

  /** Wherever this session is on its way, it ends in the same place. */
  lemma SettledOnce(t: Tables, done: set<string>, half: Option<string>, k: string)
    requires Fits(t, InSessions(done, half)) && k in t.sessions
    ensures var now := SessionsSoFar(t, done, half);
            k in now
            && now[k].(status := SessionTarget(now[k], ConversationsSoFar(t, done, half), Resumable(t)))
               == t.sessions[k].(status := SessionTarget(t.sessions[k], ConversationsSettled(t), Resumable(t)))
  {
    hide IsResumable;
  }

  lemma CutInSessions(t: Tables, done: set<string>, half: Option<string>)
    requires Fits(t, InSessions(done, half))
    ensures Recovered(Interim(t, InSessions(done, half))) == Recovered(t)
  {
    var m := Interim(t, InSessions(done, half));
    TasksAndPlansDone(t, m);
    SessionsFromSessions(t, done, half);
    FinishedFromSessions(t, done, half);
    ScopeFromSessions(t, done, half);
    hide TasksAfter, PlansAfter, CyclesAfter, SessionsAfter, ConversationsAfter, IsResumable, SessionsSoFar,
         ConversationsSoFar;
    LaterScope(t, m);
  }

  lemma ScopeFromSessions(t: Tables, done: set<string>, half: Option<string>)
    requires Fits(t, InSessions(done, half))
    ensures var m := Interim(t, InSessions(done, half));
            && (forall id :: IsResumable(m, id) <==> IsResumable(t, id))
            && (forall id | InScope(m, id) :: InScope(t, id))
  {
    var m := Interim(t, InSessions(done, half));
    hide TasksAfter, PlansAfter, CyclesAfter, IsResumable;
    forall id ensures IsResumable(m, id) <==> IsResumable(t, id) { ResumableFromSessions(t, done, half, id); }
  }

  /** A restart cut short anywhere, by a refused write or another crash, and started again ends in the same
      store as one that ran through, if and only if it was not cut short between a rotating parent and the
      child that waits behind it.  */
  lemma RestartedPass(t: Tables, cut: Cut)
    requires Fits(t, cut)
    ensures Recovered(Interim(t, cut)) == Recovered(t) <==> !Unmasks(t, cut)
  {
    hide Recovered, Interim, Fits;
    if Unmasks(t, cut) {
      var id :| Unmasked(t, cut.conversations, id);
      UnmaskedIsResumed(t, cut.conversations, id);
    } else {
      match cut
      case InTasks(_) => EarlyCut(t, cut);
      case InPlans(_) => EarlyCut(t, cut);
      case InCycles(ks) => CutInCycles(t, ks);
      case InConversations(ids) => CutInConversations(t, ids);
      case InSessions(done, half) => CutInSessions(t, done, half);
    }
  }

  /** So every way of cutting it short is harmless if and only if no child waits behind a rotating parent. */
  lemma EveryCutIsHarmless(t: Tables)
    ensures (forall cut | Fits(t, cut) :: Recovered(Interim(t, cut)) == Recovered(t))
            <==> (forall id | id in t.conversations :: !Masked(t, id))
  {
    hide Recovered, Interim;
    if id :| id in t.conversations && Masked(t, id) {
      var parent := t.conversations[id].parentId.value;
      var cut := InConversations({parent});
      assert Fits(t, cut) && Unmasked(t, {parent}, id);
      RestartedPass(t, cut);
    } else {
      forall cut | Fits(t, cut) ensures Recovered(Interim(t, cut)) == Recovered(t) {
        RestartedPass(t, cut);
      }
    }
  }

  /** Then what is left is again such a store: it may be cut short any number of times. */
  lemma HoweverOften(t: Tables, cut: Cut)
    requires Fits(t, cut) && forall id | id in t.conversations :: !Masked(t, id)
    ensures Recovered(Interim(t, cut)) == Recovered(t)
    ensures forall id | id in Interim(t, cut).conversations :: !Masked(Interim(t, cut), id)
  {
    RestartedPass(t, cut);
    NoNewMask(t, cut);
  }

  lemma NoNewMask(t: Tables, cut: Cut)
    requires Fits(t, cut)
    ensures forall id | Masked(Interim(t, cut), id) :: Masked(t, id)
  {
    hide TasksAfter, PlansAfter, CyclesAfter;
    var m := Interim(t, cut);
    forall id | Masked(m, id) ensures Masked(t, id) {
      assert PendingOutbound(m, id) <==> PendingOutbound(t, id);
    }
  }
}

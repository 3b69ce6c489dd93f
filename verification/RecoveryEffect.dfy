/**
 What a restart does, told in the fields of the records alone: which conversations still wait for an
 answer, and what becomes of every task, plan, cycle, conversation and session.
 */
module RecoveryEffect {
  import opened Options
  import opened States
  import opened Records
  import opened Lifecycle
  import opened Recovery

  /** The message at `i` asks the model for an answer, and nothing of this conversation came after it. */
  ghost predicate Unanswered(messages: seq<MessageRecord>, id: string, i: int) {
    && 0 <= i < |messages|
    && messages[i].conversationId == id && messages[i].direction.Outbound?
    && (messages[i].messageType.UserRequest? || messages[i].messageType.ExecutionResult?)
    && forall j | i < j < |messages| :: messages[j].conversationId != id
  }

  /** The answer of the model may still come: the conversation waits for it, its session is running and
      points to it, its parent is not being rotated, and its last message is a request or a result. */
  ghost predicate StillWaits(t: Tables, id: string) {
    && id in t.conversations
    && var c := t.conversations[id];
    && c.status.WaitingModelResponse?
    && c.sessionId in t.sessions && t.sessions[c.sessionId].status.SessionRunning?
    && t.sessions[c.sessionId].currentConversationId == Some(id)
    && !(c.parentId.Some? && c.parentId.value in t.conversations
         && t.conversations[c.parentId.value].status.Rotating?)
    && exists i :: Unanswered(t.messages, id, i)
  }

  ghost predicate UserMayInterrupt(s: ConversationState) {
    s in {Active, WaitingModelResponse, RunningPlan, Rotating}
  }

  /** Running tasks, and tasks that wait in a plan that is not over, are interrupted by the restart. */
  ghost predicate TasksAre(t: Tables, r: Tables) {
    && r.tasks.Keys == t.tasks.Keys
    && forall k | k in t.tasks ::
         var task := t.tasks[k];
         var plan := (task.decl.sessionId, task.decl.planId);
         var waits := && task.status in {PENDING, WAITING_DEPENDENCY}
                      && plan in t.plans && t.plans[plan].status in {PlanPending, PlanRunning};
         if task.status == RUNNING || waits
         then r.tasks[k] == task.(status := INTERRUPTED, reason := Some(Restart))
         else r.tasks[k] == task
  }

  /** Plans that are not over are interrupted, and count their tasks as these are then. */
  ghost predicate PlansAre(t: Tables, r: Tables) {
    && r.plans.Keys == t.plans.Keys
    && forall k | k in t.plans ::
         var plan := t.plans[k];
         if plan.status in {PlanPending, PlanRunning}
         then && r.plans[k] == plan.(status := PlanInterrupted, stopReason := Some(StoppedByRestart),
                                     counters := r.plans[k].counters)
              && Counts(r.plans[k].counters, r.tasks, k)
         else r.plans[k] == plan
  }

  /** A running cycle is interrupted if its conversation is active or belongs to an open session, unless that
      conversation still waits. */
  ghost predicate CyclesAre(t: Tables, r: Tables) {
    && r.cycles.Keys == t.cycles.Keys
    && forall k | k in t.cycles ::
         var id := t.cycles[k].conversationId;
         var reached := && id in t.conversations
                        && var c := t.conversations[id];
                           || UserMayInterrupt(c.status)
                           || (c.sessionId in t.sessions
                               && t.sessions[c.sessionId].status in {SessionRunning, Interrupting});
         if t.cycles[k].status == CycleRunning && reached && !StillWaits(t, id)
         then r.cycles[k] == t.cycles[k].(status := CycleInterrupted)
         else r.cycles[k] == t.cycles[k]
  }

  /** An active conversation that does not wait is interrupted.  One left completed in a running session is
      closed or handed to the user, as it was set up. */
  ghost predicate ConversationsAre(t: Tables, r: Tables) {
    && r.conversations.Keys == t.conversations.Keys
    && forall id | id in t.conversations ::
         var c := t.conversations[id];
         if UserMayInterrupt(c.status) && !StillWaits(t, id)
         then r.conversations[id] == c.(status := ConversationInterrupted)
         else if && c.status == ConversationCompleted
                 && exists k :: k in t.sessions && t.sessions[k].status == SessionRunning
                                && t.sessions[k].currentConversationId == Some(id)
         then r.conversations[id] == if c.autoClose then c.(status := Closed, closureReason := Some("auto_close"))
                                     else c.(status := WaitingUser)
         else r.conversations[id] == c
  }

  /** The current conversation of session `k`, if it exists, is in one of these states. */
  ghost predicate CurrentIn(t: Tables, k: string, states: set<ConversationState>)
    requires k in t.sessions
  {
    && t.sessions[k].currentConversationId.Some?
    && t.sessions[k].currentConversationId.value in t.conversations
    && t.conversations[t.sessions[k].currentConversationId.value].status in states
  }

  /** A running session stays so if and only if its conversation still waits, fails if its conversation had
      failed, completes if its conversation was finished, and is ready otherwise; so is one that was being
      interrupted.  No other session changes. */
  ghost predicate SessionsAre(t: Tables, r: Tables) {
    && r.sessions.Keys == t.sessions.Keys
    && forall k | k in t.sessions :: SessionIs(t, k, r.sessions[k])
  }

  ghost predicate SessionIs(t: Tables, k: string, now: SessionRecord)
    requires k in t.sessions
  {
    var s := t.sessions[k];
    var waits := s.currentConversationId.Some? && StillWaits(t, s.currentConversationId.value);
    && now == s.(status := now.status)
    && (s.status !in {SessionRunning, Interrupting} ==> now == s)
    && (s.status == Interrupting ==> now.status == Ready)
    && (s.status == SessionRunning ==>
          && (now.status == SessionRunning <==> waits)
          && (now.status == SessionFailed <==> CurrentIn(t, k, {ConversationFailed}))
          && (now.status == SessionCompleted <==> CurrentIn(t, k, {ConversationCompleted, WaitingUser, Closed}))
          && now.status in {SessionRunning, SessionFailed, SessionCompleted, Ready})
  }

  /** All of it; messages and outputs are left alone. */
  ghost predicate Restarted(t: Tables, r: Tables) {
    && TasksAre(t, r) && PlansAre(t, r) && CyclesAre(t, r) && ConversationsAre(t, r) && SessionsAre(t, r)
    && r.messages == t.messages && r.blobs == t.blobs
  }

  // ---- the policy does just that ------------------------------------------------------------------------------

  /** The last message of a conversation is the one no other of it follows. */
  lemma {:induction false} LastIsUnanswered(messages: seq<MessageRecord>, id: string)
    ensures var last := LastMessage(messages, id);
            (exists i :: Unanswered(messages, id, i)) <==>
              && last.Some? && last.value.direction.Outbound?
              && (last.value.messageType.UserRequest? || last.value.messageType.ExecutionResult?)
  {
    if messages != [] {
      var n := |messages| - 1;
      if messages[n].conversationId == id {
        assert forall i | Unanswered(messages, id, i) :: i == n;
        assert Unanswered(messages, id, n) <==>
                 messages[n].direction.Outbound?
                   && (messages[n].messageType.UserRequest? || messages[n].messageType.ExecutionResult?);
      } else {
        LastIsUnanswered(messages[..n], id);
        assert forall i :: Unanswered(messages, id, i) <==> Unanswered(messages[..n], id, i);
      }
    }
  }

  /** What the policy takes for resumable is what still waits. */
  lemma ResumableWaits(t: Tables, id: string)
    ensures IsResumable(t, id) <==> StillWaits(t, id)
  {
    hide LastMessage, Unanswered;
    LastIsUnanswered(t.messages, id);
  }

  lemma TasksRecovered(t: Tables)
    ensures TasksAre(t, Recovered(t))
  {
  }

  lemma PlansRecovered(t: Tables)
    ensures PlansAre(t, Recovered(t))
  {
    hide Tally, Counts, TasksAfter;
    forall k ensures Counts(Tally(TasksAfter(t), k), TasksAfter(t), k) { TallyCounts(TasksAfter(t), k); }
  }

  lemma CyclesRecovered(t: Tables)
    ensures CyclesAre(t, Recovered(t))
  {
    hide IsResumable, StillWaits;
    forall id ensures IsResumable(t, id) <==> StillWaits(t, id) { ResumableWaits(t, id); }
  }

  lemma ConversationsRecovered(t: Tables)
    ensures ConversationsAre(t, Recovered(t))
  {
    hide IsResumable, StillWaits;
    forall id ensures IsResumable(t, id) <==> StillWaits(t, id) { ResumableWaits(t, id); }
    forall id ensures (exists k :: PointsFrom(t, k, id)) <==>
                        exists k :: k in t.sessions && t.sessions[k].status == SessionRunning
                                    && t.sessions[k].currentConversationId == Some(id)
    {
      if k :| k in t.sessions && t.sessions[k].status == SessionRunning
              && t.sessions[k].currentConversationId == Some(id)
      {
        assert PointsFrom(t, k, id);
      }
    }
  }

  lemma SessionRecovered(t: Tables, k: string)
    requires k in t.sessions
    ensures k in SessionsAfter(t) && SessionIs(t, k, SessionsAfter(t)[k])
  {
    if t.sessions[k].currentConversationId.Some? {
      ResumableWaits(t, t.sessions[k].currentConversationId.value);
    }
  }

  /** From any store at all, recovery does to each record what was said above, and nothing else. */
  lemma RecoveredIsRestarted(t: Tables)
    ensures Restarted(t, Recovered(t))
  {
    hide TasksAre, PlansAre, CyclesAre, ConversationsAre, SessionIs, TasksAfter, PlansAfter, CyclesAfter,
         ConversationsAfter, SessionTarget, ConversationsSettled, Resumable;
    TasksRecovered(t);
    PlansRecovered(t);
    CyclesRecovered(t);
    ConversationsRecovered(t);
    forall k | k in t.sessions ensures SessionIs(t, k, Recovered(t).sessions[k]) { SessionRecovered(t, k); }
  }

  /** A conversation that still waits keeps its record, and so does its session, which stays running; every
      other active conversation is interrupted. */
  lemma WaitingStays(t: Tables, r: Tables, id: string)
    requires Restarted(t, r) && id in t.conversations
    ensures StillWaits(t, id) ==>
              && r.conversations[id] == t.conversations[id]
              && var sid := t.conversations[id].sessionId;
                 r.sessions[sid] == t.sessions[sid] && r.sessions[sid].status.SessionRunning?
    ensures UserMayInterrupt(t.conversations[id].status) && !StillWaits(t, id) ==>
              r.conversations[id].status.ConversationInterrupted?
  {
    hide TasksAre, PlansAre, CyclesAre, Unanswered;
  }

  /** So what is active afterwards waits for an answer that may still come, and so does the conversation of
      every session that is running. */
  lemma OnlyWaitingIsLeft(t: Tables)
    ensures var r := Recovered(t);
            && (forall id | id in r.conversations && UserMayInterrupt(r.conversations[id].status) ::
                  StillWaits(t, id) && StillWaits(r, id))
            && (forall k | k in r.sessions && r.sessions[k].status.SessionRunning? ::
                  && r.sessions[k].currentConversationId.Some?
                  && StillWaits(r, r.sessions[k].currentConversationId.value))
  {
    hide IsResumable, StillWaits;
    var r := Recovered(t);
    SafeToRestart(t);
    forall id ensures (IsResumable(t, id) <==> StillWaits(t, id)) && (IsResumable(r, id) <==> StillWaits(r, id)) {
      ResumableWaits(t, id);
      ResumableWaits(r, id);
    }
    forall id | id in r.conversations && UserMayInterrupt(r.conversations[id].status) ensures IsResumable(t, id) {
      ActiveIsResumable(t, id);
    }
  }
}

/**
 The restart pass itself: it walks the store in the order of the policy, saves one record at a time and
 records every transition it makes.
 */
module RecoveryRun {
  import opened Options
  import opened States
  import opened Records
  import opened Persistence
  import opened Journal
  import opened Lifecycle
  import opened Recovery
  import opened RecoveryEffect

  class RecoveryCoordinator {
    const life: LifecycleManager
    // what the report lists
    var ready: set<string>
    var resumable: set<string>
    var failed: set<string>
    var completed: set<string>

    constructor (life: LifecycleManager)
      ensures this.life == life
    {
      this.life := life;
      ready, resumable, failed, completed := {}, {}, {}, {};
    }

    // ---- the passes ------------------------------------------------------------------------------------

    /** Interrupts these tasks one by one, as far as the disk lets it. */
    method InterruptTasks(ks: set<(string, string)>) returns (ok: bool, ghost done: set<(string, string)>)
      requires WellKeyed(life.store.tables) && life.Journaled()
      requires forall k | k in ks ::
                 k in life.store.tables.tasks && TaskStep(life.store.tables.tasks[k].status, INTERRUPTED)
      modifies life`moves, life.store`tables, life.store`attempts
      ensures WellKeyed(life.store.tables) && life.Journaled()
      ensures ok <==> life.store.Failures() == old(life.store.Failures())
      ensures done <= ks && (ok ==> done == ks)
      ensures life.store.tables == old(life.store.tables).(tasks := WithTasks(old(life.store.tables.tasks), done))
    {
      hide WellKeyed, Leads, StatusOf, Refusals;
      ghost var t := life.store.tables;
      var todo := ks;
      done := {};
      assert WithTasks(t.tasks, {}) == t.tasks;
      while todo != {}
        invariant WellKeyed(life.store.tables) && life.Journaled()
        invariant life.store.Failures() == old(life.store.Failures())
        invariant todo + done == ks && todo !! done
        invariant life.store.tables == t.(tasks := WithTasks(t.tasks, done))
        decreases todo
      {
        var k :| k in todo;
        ok := life.InterruptTask(k, Restart);
        if !ok { return; }
        assert WithTasks(t.tasks, done)[k := InterruptedTask(t.tasks[k], Restart)] == WithTasks(t.tasks, done + {k});
        todo, done := todo - {k}, done + {k};
      }
      ok := true;
    }

    /** Pass 2: what still waits in an open plan, plan after plan. */
    method InterruptWaiting(plans: set<(string, string)>) returns (ok: bool, ghost done: set<(string, string)>)
      requires WellKeyed(life.store.tables) && life.Journaled()
      modifies life`moves, life.store`tables, life.store`attempts
      ensures WellKeyed(life.store.tables) && life.Journaled()
      ensures ok <==> life.store.Failures() == old(life.store.Failures())
      ensures var waiting := WaitingInAny(old(life.store.tables), plans); done <= waiting && (ok ==> done == waiting)
      ensures life.store.tables == old(life.store.tables).(tasks := WithTasks(old(life.store.tables.tasks), done))
    {
      hide WellKeyed, Leads, StatusOf, Refusals, WithTasks;
      ghost var t := life.store.tables;
      var left := plans;
      ghost var seen: set<(string, string)> := {};
      done := {};
      NoTaskYet(t.tasks);
      while left != {}
        invariant WellKeyed(life.store.tables) && life.Journaled()
        invariant life.store.Failures() == old(life.store.Failures())
        invariant left + seen == plans && left !! seen && done == WaitingInAny(t, seen)
        invariant life.store.tables == t.(tasks := WithTasks(t.tasks, done))
        decreases left
      {
        var plan :| plan in left;
        WaitingUnchanged(t, seen, plan);
        var waiting := WaitingIn(life.store.tables, plan);
        ghost var more;
        ok, more := InterruptTasks(waiting);
        MoreTasks(t.tasks, done, more);
        done := done + more;
        if !ok { return; }
        left, seen := left - {plan}, seen + {plan};
      }
      assert seen == plans;
      ok := true;
    }

    /** Pass 3: the open plans, their counters recomputed from the task records. */
    method InterruptOpenPlans(plans: set<(string, string)>) returns (ok: bool, ghost done: set<(string, string)>)
      requires WellKeyed(life.store.tables) && life.Journaled()
      requires forall k | k in plans :: k in life.store.tables.plans && OpenPlan(life.store.tables.plans[k].status)
      modifies life`moves, life.store`tables, life.store`attempts
      ensures WellKeyed(life.store.tables) && life.Journaled()
      ensures ok <==> life.store.Failures() == old(life.store.Failures())
      ensures done <= plans && (ok ==> done == plans)
      ensures var t := old(life.store.tables); life.store.tables == t.(plans := WithPlans(t.plans, done, t.tasks))
    {
      hide WellKeyed, Leads, StatusOf, Refusals, Tally, WithPlans, InterruptedPlan;
      ghost var t := life.store.tables;
      var todo := plans;
      done := {};
      NoPlanYet(t.plans, t.tasks);
      while todo != {}
        invariant WellKeyed(life.store.tables) && life.Journaled()
        invariant life.store.Failures() == old(life.store.Failures())
        invariant todo + done == plans && todo !! done
        invariant life.store.tables == t.(plans := WithPlans(t.plans, done, t.tasks))
        decreases todo
      {
        var k :| k in todo;
        OneMorePlan(t.plans, done, t.tasks, k);
        ok := life.InterruptPlan(k, StoppedByRestart);
        if !ok { return; }
        todo, done := todo - {k}, done + {k};
      }
      ok := true;
    }

    /** Pass 4: the running cycles nobody will resume. */
    method InterruptCycles(cut: set<string>) returns (ok: bool, ghost done: set<string>)
      requires WellKeyed(life.store.tables) && life.Journaled()
      requires forall k | k in cut :: k in life.store.tables.cycles && life.store.tables.cycles[k].status.CycleRunning?
      modifies life`moves, life.store`tables, life.store`attempts
      ensures WellKeyed(life.store.tables) && life.Journaled()
      ensures ok <==> life.store.Failures() == old(life.store.Failures())
      ensures done <= cut && (ok ==> done == cut)
      ensures life.store.tables == old(life.store.tables).(cycles := WithCycles(old(life.store.tables.cycles), done))
    {
      hide WellKeyed, Leads, StatusOf, Refusals;
      ghost var t := life.store.tables;
      var todo := cut;
      done := {};
      assert WithCycles(t.cycles, {}) == t.cycles;
      while todo != {}
        invariant WellKeyed(life.store.tables) && life.Journaled()
        invariant life.store.Failures() == old(life.store.Failures())
        invariant todo + done == cut && todo !! done
        invariant life.store.tables == t.(cycles := WithCycles(t.cycles, done))
        decreases todo
      {
        var k :| k in todo;
        ok := life.InterruptCycle(k);
        if !ok { return; }
        assert WithCycles(t.cycles, done)[k := t.cycles[k].(status := CycleInterrupted)]
               == WithCycles(t.cycles, done + {k});
        todo, done := todo - {k}, done + {k};
      }
      ok := true;
    }

    /** Pass 5: the active conversations that cannot be resumed. */
    method InterruptConversations(lost: set<string>) returns (ok: bool, ghost done: set<string>)
      requires WellKeyed(life.store.tables) && life.Journaled()
      requires forall id | id in lost ::
                 id in life.store.tables.conversations && ConversationActive(life.store.tables.conversations[id].status)
      modifies life`moves, life.store`tables, life.store`attempts
      ensures WellKeyed(life.store.tables) && life.Journaled()
      ensures ok <==> life.store.Failures() == old(life.store.Failures())
      ensures done <= lost && (ok ==> done == lost)
      ensures life.store.tables == old(life.store.tables).(conversations :=
                WithConversations(old(life.store.tables.conversations), done))
    {
      hide WellKeyed, Leads, StatusOf, Refusals;
      ghost var t := life.store.tables;
      var todo := lost;
      done := {};
      assert WithConversations(t.conversations, {}) == t.conversations;
      while todo != {}
        invariant WellKeyed(life.store.tables) && life.Journaled()
        invariant life.store.Failures() == old(life.store.Failures())
        invariant todo + done == lost && todo !! done
        invariant life.store.tables == t.(conversations := WithConversations(t.conversations, done))
        decreases todo
      {
        var id :| id in todo;
        KeyedConversation(life.store.tables, id);
        ok := life.TransitionConversation(id, life.store.tables.conversations[id].(status := ConversationInterrupted));
        if !ok { return; }
        assert WithConversations(t.conversations, done)[id := t.conversations[id].(status := ConversationInterrupted)]
            == WithConversations(t.conversations, done + {id});
        todo, done := todo - {id}, done + {id};
      }
      ok := true;
    }

    // ---- sessions ----------------------------------------------------------------------------------------

    /** A conversation left `COMPLETED` is finished; any other one is left as it is. */
    method FinishConversation(id: string) returns (ok: bool)
      requires WellKeyed(life.store.tables) && life.Journaled() && id in life.store.tables.conversations
      modifies life`moves, life.store`tables, life.store`attempts
      ensures WellKeyed(life.store.tables) && life.Journaled()
      ensures ok <==> life.store.Failures() == old(life.store.Failures())
      ensures var t := old(life.store.tables);
              life.store.tables == t.(conversations := if ok && t.conversations[id].status.ConversationCompleted?
                                                  then t.conversations[id := Finished(t.conversations[id])]
                                                    else t.conversations)
    {
      hide WellKeyed, Leads, StatusOf, Refusals, Finished;
      var c := life.store.tables.conversations[id];
      ok := true;
      if c.status.ConversationCompleted? {
        KeyedConversation(life.store.tables, id);
        FinishedIsLegal(c);
        ok := life.TransitionConversation(id, Finished(c));
      }
    }

    /** `READY`, through `INTERRUPTING` when the session was running. */
    method MakeReady(k: string) returns (ok: bool)
      requires WellKeyed(life.store.tables) && life.Journaled()
      requires k in life.store.tables.sessions && OpenSession(life.store.tables.sessions[k].status)
      modifies life`moves, life.store`tables, life.store`attempts
      ensures WellKeyed(life.store.tables) && life.Journaled()
      ensures ok <==> life.store.Failures() == old(life.store.Failures())
      ensures var t := old(life.store.tables);
              || (ok && life.store.tables == t.(sessions := t.sessions[k := t.sessions[k].(status := Ready)]))
              || (!ok && (life.store.tables == t
                 || life.store.tables == t.(sessions := t.sessions[k := t.sessions[k].(status := Interrupting)])))
    {
      hide WellKeyed, Leads, StatusOf, Refusals;
      ghost var t := life.store.tables;
      if life.store.tables.sessions[k].status.SessionRunning? {
        ok := life.TransitionSession(k, Interrupting);
        if !ok { return; }
      } else {
        assert t.sessions[k].(status := Interrupting) == t.sessions[k];
        assert t.sessions[k := t.sessions[k]] == t.sessions;
      }
      ok := life.TransitionSession(k, Ready);
      assert ok ==> life.store.tables.sessions == t.sessions[k := t.sessions[k].(status := Ready)];
    }

    /** One open session: resumed as it is, failed, completed (its conversation finished first), or made
        ready, through `INTERRUPTING` when it was running. */
    method SettleSession(k: string, resumableConversations: set<string>) returns (ok: bool)
      requires WellKeyed(life.store.tables) && life.Journaled()
      requires k in life.store.tables.sessions && OpenSession(life.store.tables.sessions[k].status)
      requires forall id | id in resumableConversations && id in life.store.tables.conversations ::
                 life.store.tables.conversations[id].status.WaitingModelResponse?
      modifies this, life`moves, life.store`tables, life.store`attempts
      ensures WellKeyed(life.store.tables) && life.Journaled()
      ensures ok <==> life.store.Failures() == old(life.store.Failures())
      ensures ok ==> life.store.tables == SessionSettled(old(life.store.tables), k, resumableConversations)
      ensures !ok ==> HalfSettled(old(life.store.tables), k, resumableConversations, life.store.tables)
      ensures ok ==>
                var target := SessionTarget(old(life.store.tables).sessions[k], old(life.store.tables).conversations,
                                            resumableConversations);
                && ready == Noted(old(ready), k, target.Ready?)
                && resumable == Noted(old(resumable), k, target.SessionRunning?)
                && failed == Noted(old(failed), k, target.SessionFailed?)
                && completed == Noted(old(completed), k, target.SessionCompleted?)
    {
      hide WellKeyed, Leads, StatusOf, Refusals, Finished;
      var s := life.store.tables.sessions[k];
      var current := s.currentConversationId;
      var known := current.Some? && current.value in life.store.tables.conversations;
      if s.status.SessionRunning? && known && current.value in resumableConversations {
        resumable := resumable + {k};
        assert life.store.tables.sessions[k := s] == life.store.tables.sessions;
        return true;
      }
      if s.status.SessionRunning? && known {
        var c := life.store.tables.conversations[current.value];
        if c.status.ConversationFailed? {
          ok := life.TransitionSession(k, SessionFailed);
          if !ok { return; }
          failed := failed + {k};
          return;
        }
        if FinishedConversation(c.status) {
          ok := FinishConversation(current.value);
          if !ok { return; }
          ok := life.TransitionSession(k, SessionCompleted);
          if !ok { return; }
          completed := completed + {k};
          return;
        }
      }
      ok := MakeReady(k);
      if ok {
        ready := ready + {k};
      }
    }

    /** The report lists these sessions by what became of them. */
    ghost predicate Reported(t: Tables, done: set<string>)
      reads this
    {
      && ready == SettledAs(t, done, Ready) && resumable == SettledAs(t, done, SessionRunning)
      && failed == SettledAs(t, done, SessionFailed) && completed == SettledAs(t, done, SessionCompleted)
    }

    /** The report lists the sessions that were open, by the state they are in now. */
    ghost predicate ReportIs(t: Tables, now: Tables)
      reads this
    {
      var open := set k | k in t.sessions && t.sessions[k].status in {SessionRunning, Interrupting};
      && open <= now.sessions.Keys
      && ready == (set k | k in open && now.sessions[k].status == Ready)
      && resumable == (set k | k in open && now.sessions[k].status == SessionRunning)
      && failed == (set k | k in open && now.sessions[k].status == SessionFailed)
      && completed == (set k | k in open && now.sessions[k].status == SessionCompleted)
    }

    lemma ReportedIsReport(t: Tables)
      requires Reported(t, OpenSessions(t))
      ensures ReportIs(t, Recovered(t))
    {
      hide SessionTarget, ConversationsSettled, Resumable;
    }

    /** Pass 6: every open session, given what the conversations have become. */
    method SettleSessions(ghost t: Tables, resumableConversations: set<string>)
      returns (ok: bool, ghost done: set<string>, ghost half: Option<string>)
      requires WellKeyed(life.store.tables) && life.Journaled()
      requires life.store.tables.sessions == t.sessions && life.store.tables.conversations == ConversationsSettled(t)
      requires resumableConversations == Resumable(t) && Reported(t, {})
      modifies this, life`moves, life.store`tables, life.store`attempts
      ensures WellKeyed(life.store.tables) && life.Journaled()
      ensures ok <==> life.store.Failures() == old(life.store.Failures())
      ensures ok ==>
                life.store.tables
                == old(life.store.tables).(sessions := SessionsAfter(t), conversations := ConversationsAfter(t))
      ensures ok ==> Reported(t, OpenSessions(t))
      ensures !ok ==>
                && done <= OpenSessions(t) && (half.Some? ==> half.value in OpenSessions(t) - done)
                && life.store.tables == old(life.store.tables).(sessions := SessionsSoFar(t, done, half),
                                                                conversations := ConversationsSoFar(t, done, half))
    {
      hide WellKeyed, Leads, StatusOf, Refusals, SessionsAfter, ConversationsAfter, ConversationsSettled,
           SessionSettled, HalfSettled, WithSessions, WithFinished, SessionsSoFar, ConversationsSoFar, Resumable,
           SessionTarget, SettledAs;
      ghost var here := life.store.tables;
      var todo := OpenSessions(life.store.tables);
      done, half := {}, None;
      NothingSettledYet(t);
      SessionPassDone(t);
      while todo != {}
        invariant WellKeyed(life.store.tables) && life.Journaled()
        invariant life.store.Failures() == old(life.store.Failures())
        invariant todo + done == OpenSessions(t) && todo !! done
        invariant Reported(t, done)
        invariant life.store.tables == here.(sessions := WithSessions(t, ConversationsSettled(t), done),
                                        conversations := WithFinished(t, ConversationsSettled(t), done))
        decreases todo
      {
        var k :| k in todo;
        OneMoreSession(t, here, done, k);
        ok := SettleSession(k, resumableConversations);
        if !ok {
          half := HalfOfOne(t, here, done, k, life.store.tables);
          return;
        }
        NoteOne(t, done, k);
        todo, done := todo - {k}, done + {k};
      }
      assert done == OpenSessions(t);
      ok := true;
    }

    /** The whole restart.  Whatever the store holds, it ends in the recovered store, by legal transitions
        only; if the disk refuses a write, it stops there, somewhere on the way. */
    method Recover() returns (ok: bool, ghost cut: Cut)
      requires WellKeyed(life.store.tables) && life.store.tables == life.before && life.moves == []
      modifies this, life`moves, life.store`tables, life.store`attempts
      ensures ok <==> life.store.Failures() == old(life.store.Failures())
      ensures WellKeyed(life.store.tables) && Leads(StatusOf(life.before), life.moves, StatusOf(life.store.tables))
      ensures ok ==> Restarted(life.before, life.store.tables) && ReportIs(life.before, life.store.tables)
      ensures ok ==> life.store.tables == Recovered(life.before)
      ensures !ok ==> Fits(life.before, cut) && life.store.tables == Interim(life.before, cut)
    {
      hide SettledAs, WellKeyed, Leads, StatusOf, IsResumable, CycleCut, PlanOf, TasksAfter, PlansAfter, CyclesAfter,
           ConversationsSettled, SessionsAfter, ConversationsAfter, Refusals, WithTasks, WithPlans, WithCycles,
           WithConversations, RunningTasks, OpenPlans, WaitingInAny, SessionsSoFar, ConversationsSoFar, Restarted,
           ReportIs;
      ghost var t := life.before;
      NoMoves(StatusOf(t));
      AllPassesDone(t);
      SameScope(t);
      TasksInTwoPasses(t);
      ready, resumable, failed, completed := {}, {}, {}, {};
      NobodySettledYet(t);
      ghost var done, more;
      PassTargets(life.store.tables);
      ok, done := InterruptTasks(RunningTasks(life.store.tables));
      cut := InTasks(done);
      if !ok { return; }
      var plans := OpenPlans(life.store.tables);
      ok, more := InterruptWaiting(plans);
      MoreTasks(t.tasks, done, more);
      cut := InTasks(done + more);
      if !ok { return; }
      PassTargets(life.store.tables);
      ok, done := InterruptOpenPlans(plans);
      cut := InPlans(done);
      if !ok { return; }
      var resumableConversations, lost := Resumable(life.store.tables), LostConversations(life.store.tables);
      ghost var strings;
      PassTargets(life.store.tables);
      ok, strings := InterruptCycles(CutCycles(life.store.tables));
      cut := InCycles(strings);
      if !ok { return; }
      ok, strings := InterruptConversations(lost);
      cut := InConversations(strings);
      if !ok { return; }
      ghost var half;
      ok, strings, half := SettleSessions(t, resumableConversations);
      cut := InSessions(strings, half);
      if ok {
        RecoveredIsRestarted(t);
        ReportedIsReport(t);
      }
    }
  }

  function Noted(list: set<string>, k: string, listed: bool): set<string> {
    if listed then list + {k} else list
  }

  /** The sessions that end, or stay, in this state. */
  ghost function SettledAs(t: Tables, done: set<string>, s: SessionState): set<string> {
    set k | k in done && k in t.sessions && SessionTarget(t.sessions[k], ConversationsSettled(t), Resumable(t)) == s
  }

  lemma NobodySettledYet(t: Tables)
    ensures forall s :: SettledAs(t, {}, s) == {}
  {
  }

  lemma NoteOne(t: Tables, done: set<string>, k: string)
    requires k in t.sessions && k !in done
    ensures forall s :: SettledAs(t, done + {k}, s)
                        == Noted(SettledAs(t, done, s), k,
                                 SessionTarget(t.sessions[k], ConversationsSettled(t), Resumable(t)) == s)
  {
    hide SessionTarget, ConversationsSettled, Resumable;
  }

  lemma PassTargets(t: Tables)
    ensures forall k | k in RunningTasks(t) :: k in t.tasks && TaskStep(t.tasks[k].status, INTERRUPTED)
    ensures forall k | k in OpenPlans(t) :: k in t.plans && OpenPlan(t.plans[k].status)
    ensures forall k | k in CutCycles(t) :: k in t.cycles && t.cycles[k].status.CycleRunning?
  {
    hide IsResumable;
  }

  lemma NoTaskYet(tasks: map<(string, string), TaskRecord>)
    ensures WithTasks(tasks, {}) == tasks
  {
  }

  lemma MoreTasks(tasks: map<(string, string), TaskRecord>, a: set<(string, string)>, b: set<(string, string)>)
    ensures WithTasks(WithTasks(tasks, a), b) == WithTasks(tasks, a + b)
  {
  }

  /** The tasks of the first two passes together. */
  lemma TasksInTwoPasses(t: Tables)
    ensures var t1 := t.(tasks := WithTasks(t.tasks, RunningTasks(t)));
            OpenPlans(t1) == OpenPlans(t) && WaitingInAny(t1, OpenPlans(t)) == WaitingInAny(t, OpenPlans(t))
    ensures WithTasks(t.tasks, RunningTasks(t) + WaitingInAny(t, OpenPlans(t))) == TasksAfter(t)
  {
  }

  /** What the last passes look at does not depend on the tasks and plans. */
  lemma SameScope(t: Tables)
    ensures var t2 := t.(tasks := TasksAfter(t), plans := PlansAfter(t));
            CutCycles(t2) == CutCycles(t) && LostConversations(t2) == LostConversations(t)
              && Resumable(t2) == Resumable(t)
  {
    var t2 := t.(tasks := TasksAfter(t), plans := PlansAfter(t));
    assert forall id :: IsResumable(t2, id) <==> IsResumable(t, id);
  }

  function SessionSettled(t: Tables, k: string, resumable: set<string>): Tables
    requires k in t.sessions
  {
    var s := t.sessions[k];
    t.(sessions := t.sessions[k := s.(status := SessionTarget(s, t.conversations, resumable))],
       conversations := if Finishes(t, k) then
                          var id := s.currentConversationId.value;
                          t.conversations[id := Finished(t.conversations[id])]
                        else t.conversations)
  }

  /** Settling this session also finishes its conversation. */
  predicate Finishes(t: Tables, k: string)
    requires k in t.sessions
  {
    var s := t.sessions[k];
    && s.status.SessionRunning? && s.currentConversationId.Some? && s.currentConversationId.value in t.conversations
    && t.conversations[s.currentConversationId.value].status.ConversationCompleted?
  }

  lemma NothingSettledYet(t: Tables)
    ensures WithSessions(t, ConversationsSettled(t), {}) == t.sessions
    ensures WithFinished(t, ConversationsSettled(t), {}) == ConversationsSettled(t)
  {
  }

  /** Settling one more session on top of the ones already settled. */
  lemma OneMoreSession(t: Tables, here: Tables, done: set<string>, k: string)
    requires k in OpenSessions(t) && k !in done
    ensures var settled := ConversationsSettled(t);
            var now := here.(sessions := WithSessions(t, settled, done),
                             conversations := WithFinished(t, settled, done));
            && k in now.sessions && now.sessions[k] == t.sessions[k] && OpenSession(t.sessions[k].status)
            && (forall id | id in Resumable(t) && id in now.conversations ::
                 now.conversations[id].status.WaitingModelResponse?)
            && SessionTarget(now.sessions[k], now.conversations, Resumable(t))
               == SessionTarget(t.sessions[k], settled, Resumable(t))
            && SessionSettled(now, k, Resumable(t))
               == here.(sessions := WithSessions(t, settled, done + {k}),
                        conversations := WithFinished(t, settled, done + {k}))
  {
    var settled := ConversationsSettled(t);
    var now := here.(sessions := WithSessions(t, settled, done), conversations := WithFinished(t, settled, done));
    var s := t.sessions[k];
    var next := done + {k};
    FinishingKeepsTargets(t, done, s);
    assert SessionSettled(now, k, Resumable(t)).sessions == WithSessions(t, settled, next);
    forall id | id in t.conversations
      ensures FinishedBy(t, next, id) <==>
                FinishedBy(t, done, id)
                || (t.conversations[id].status.ConversationCompleted? && PointsFrom(t, k, id))
    {
    }
    assert SessionSettled(now, k, Resumable(t)).conversations == WithFinished(t, settled, next);
  }

  lemma FinishingKeepsTargets(t: Tables, done: set<string>, s: SessionRecord)
    ensures var settled := ConversationsSettled(t);
            SessionTarget(s, WithFinished(t, settled, done), Resumable(t)) == SessionTarget(s, settled, Resumable(t))
  {
  }

  lemma FinishedIsLegal(c: ConversationRecord)
    requires c.status.ConversationCompleted?
    ensures var f := Finished(c);
            ConversationStep(c.status, f.status) && f.conversationId == c.conversationId && f.window == c.window
  {
  }

  lemma NoPlanYet(plans: map<(string, string), PlanRecord>, tasks: map<(string, string), TaskRecord>)
    ensures WithPlans(plans, {}, tasks) == plans
  {
  }

  lemma OneMorePlan(plans: map<(string, string), PlanRecord>, done: set<(string, string)>,
                    tasks: map<(string, string), TaskRecord>, k: (string, string))
    requires k in plans && k !in done
    ensures k in WithPlans(plans, done, tasks) && WithPlans(plans, done, tasks)[k] == plans[k]
    ensures WithPlans(plans, done, tasks)[k := InterruptedPlan(plans[k], StoppedByRestart, Tally(tasks, k))]
            == WithPlans(plans, done + {k}, tasks)
  {
  }

  /** Interrupting the tasks of other plans does not change which tasks of this one still wait. */
  lemma WaitingUnchanged(t: Tables, seen: set<(string, string)>, plan: (string, string))
    requires plan !in seen
    ensures var here := t.(tasks := WithTasks(t.tasks, WaitingInAny(t, seen)));
            && WaitingInAny(t, seen) + WaitingIn(here, plan) == WaitingInAny(t, seen + {plan})
            && forall k | k in WaitingIn(here, plan) :: k in here.tasks && TaskStep(here.tasks[k].status, INTERRUPTED)
  {
  }

  /** What a session leaves behind when one of its writes is refused. */
  ghost predicate HalfSettled(t: Tables, k: string, resumable: set<string>, now: Tables)
    requires k in t.sessions
  {
    var s := t.sessions[k];
    var target := SessionTarget(s, t.conversations, resumable);
    || now == t
    || (target.Ready? && now == t.(sessions := t.sessions[k := s.(status := Interrupting)]))
    || (target.SessionCompleted? && Finishes(t, k)
        && var id := s.currentConversationId.value;
           now == t.(conversations := t.conversations[id := Finished(t.conversations[id])]))
  }

  /** What the writes of this session add to the finished conversations. */
  lemma OneMoreFinish(t: Tables, settled: map<string, ConversationRecord>, done: set<string>, k: string)
    requires k in t.sessions && settled == ConversationsSettled(t)
    ensures var before, after := WithFinished(t, settled, done), WithFinished(t, settled, done + {k});
            var s := t.sessions[k];
            && (SessionTarget(s, settled, Resumable(t)).Ready? ==> after == before)
            && (forall id | s.status.SessionRunning? && s.currentConversationId == Some(id)
                            && id in before && before[id].status.ConversationCompleted? ::
                  after == before[id := Finished(before[id])])
  {
    hide IsResumable;
    forall id | id in t.conversations
      ensures FinishedBy(t, done + {k}, id) <==>
                FinishedBy(t, done, id) || (t.conversations[id].status.ConversationCompleted? && PointsFrom(t, k, id))
    {
    }
  }

  lemma HalfOfOne(t: Tables, here: Tables, done: set<string>, k: string, now: Tables) returns (half: Option<string>)
    requires k in OpenSessions(t) && k !in done
    requires var settled := ConversationsSettled(t);
             var earlier := here.(sessions := WithSessions(t, settled, done),
                                  conversations := WithFinished(t, settled, done));
             k in earlier.sessions && HalfSettled(earlier, k, Resumable(t), now)
    ensures half.Some? ==> half.value == k
    ensures now == here.(sessions := SessionsSoFar(t, done, half), conversations := ConversationsSoFar(t, done, half))
  {
    hide ConversationsSettled, Resumable, FinishedBy, WithFinished, SessionTarget;
    var settled := ConversationsSettled(t);
    var before := here.(sessions := WithSessions(t, settled, done), conversations := WithFinished(t, settled, done));
    FinishingKeepsTargets(t, done, t.sessions[k]);
    if now == before {
      half := None;
      assert done + {} == done;
    } else {
      half := Some(k);
      OneMoreFinish(t, settled, done, k);
    }
  }
}

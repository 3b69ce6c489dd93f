/**
 The rotation itself: one group of writes after the other, with a remote call before most of them.  After
 any group it may stop, because the call before the next one failed or was abandoned, or because the next
 write was refused; whatever was done stays done.
 */
module RotationRun {
  import opened Options
  import opened States
  import opened Records
  import opened Persistence
  import opened Journal
  import opened Lifecycle
  import opened Rotation

  class RotationCoordinator {
    const life: LifecycleManager
    const maxRotations: nat

    constructor (life: LifecycleManager, maxRotations: nat)
      ensures this.life == life && this.maxRotations == maxRotations
    {
      this.life, this.maxRotations := life, maxRotations;
    }

    ghost predicate Reached(p: Plan, t0: Tables, s: Stage)
      reads life`moves, life.store`tables
    {
      WellKeyed(life.store.tables) && life.Journaled() && At(p, t0, life.store.tables, s)
    }

    /** Parent saturated, then rotating. */
    method MarkParent(p: Plan, ghost t0: Tables, w: Way) returns (stage: Stage)
      requires Reached(p, t0, Untouched) && ConversationStep(t0.conversations[p.source].status, Rotating)
      modifies life`moves, life.store`tables
      ensures Reached(p, t0, stage) && OnTheWay(Untouched, stage, ParentRotating, w)
    {
      hide EndsAt, At, WellKeyed, Leads, StatusOf, Permitted, MovesOf, Apply, Source, ConversationStep;
      stage := Untouched;
      KnownAt(p, t0, life.store.tables, Untouched);
      OneStep(stage, w);
      if stage in w.breaks { return; }
      var source := life.store.tables.conversations[p.source];
      Saturate(p, t0, life.store.tables);
      SourceIs(p, life.store.tables);
      if !source.window.Saturated? {
        life.Save(SaveConversation(source.(window := Saturated)));
      }
      stage := ParentSaturated;
      OneStep(stage, w);
      if stage in w.breaks { return; }
      KnownAt(p, t0, life.store.tables, ParentSaturated);
      SourceIs(p, life.store.tables);
      MarkRotating(p, t0, life.store.tables);
      life.Save(SaveConversation(life.store.tables.conversations[p.source].(status := Rotating)));
      stage := ParentRotating;
    }

    /** The summary, then the remote conversation and its local child. */
    method BringUpChild(p: Plan, ghost t0: Tables, w: Way) returns (stage: Stage)
      requires Reached(p, t0, ParentRotating) && (w.own <==> t0.conversations[p.source].sessionId == p.sid)
      modifies life`moves, life.store`tables
      ensures Reached(p, t0, stage) && OnTheWay(ParentRotating, stage, ChildActive, w)
    {
      hide EndsAt, At, WellKeyed, Leads, StatusOf, Permitted, MovesOf, Apply, Source, Child;
      stage := ParentRotating;
      KnownAt(p, t0, life.store.tables, ParentRotating);
      SourceIs(p, life.store.tables);
      OneStep(stage, w);
      if stage in w.breaks { return; }
      if !w.answers.summaryFits {
        FailSummary(p, t0, life.store.tables);
        life.Save(SaveConversation(life.store.tables.conversations[p.source].(status := ConversationFailed)));
        stage := SummaryFailed;
        OneStep(stage, w);
        return;
      }
      if life.store.tables.conversations[p.source].sessionId != p.sid {
        return;
      }
      var session := life.store.tables.sessions[p.sid];
      CreateChild(p, t0, life.store.tables);
      life.Save(SaveConversation(NewChild(p, session.autoClose)));
      life.Save(SaveSession(session.(currentConversationId := Some(p.child))));
      stage := ChildCreated;
      OneStep(stage, w);
      if stage in w.breaks { return; }
      stage := Address(p, t0, w);
    }

    method Address(p: Plan, ghost t0: Tables, w: Way) returns (stage: Stage)
      requires Reached(p, t0, ChildCreated) && ChildCreated !in w.breaks
      modifies life`moves, life.store`tables
      ensures Reached(p, t0, stage) && OnTheWay(ChildCreated, stage, ChildActive, w)
    {
      hide EndsAt, At, WellKeyed, Leads, StatusOf, Permitted, MovesOf, Apply, Child;
      OneStep(ChildCreated, w);
      NothingOnTheWireYet(p, t0, life.store.tables);
      KnownAt(p, t0, life.store.tables, ChildCreated);
      ChildIs(p, life.store.tables);
      AddressChild(p, t0, life.store.tables);
      life.Save(SaveConversation(life.store.tables.conversations[p.child].(remoteId := Some(p.remote),
        contextBytes := p.instructionsBytes)));
      stage := ChildAddressed;
      OneStep(stage, w);
      if stage in w.breaks { return; }
      KnownAt(p, t0, life.store.tables, ChildAddressed);
      ChildIs(p, life.store.tables);
      ActivateChild(p, t0, life.store.tables);
      life.Save(SaveConversation(life.store.tables.conversations[p.child].(status := Active)));
      stage := ChildActive;
    }

    /** The resume cycle and its request, posted. */
    method Ask(p: Plan, ghost t0: Tables, w: Way) returns (stage: Stage)
      requires Reached(p, t0, ChildActive)
      modifies life`moves, life.store`tables
      ensures Reached(p, t0, stage) && OnTheWay(ChildActive, stage, RequestPosted, w)
    {
      hide At, WellKeyed, Leads, StatusOf, EndsAt;
      stage := ChildActive;
      OneStep(stage, w);
      if stage in w.breaks { return; }
      OpenCycle(p, t0);
      stage := ResumeOpened;
      OneStep(stage, w);
      if stage in w.breaks { return; }
      Wait(p, t0);
      stage := ChildWaiting;
      OneStep(stage, w);
      if stage in w.breaks { return; }
      Post(p, t0);
      stage := RequestPosted;
    }

    method Wait(p: Plan, ghost t0: Tables)
      requires Reached(p, t0, ResumeOpened)
      modifies life`moves, life.store`tables
      ensures Reached(p, t0, ChildWaiting)
    {
      hide At, WellKeyed, Leads, StatusOf, Permitted, MovesOf, Apply, Child;
      KnownAt(p, t0, life.store.tables, ResumeOpened);
      ChildIs(p, life.store.tables);
      ChildWaits(p, t0, life.store.tables);
      life.Save(SaveConversation(life.store.tables.conversations[p.child].(status := WaitingModelResponse)));
    }

    method Post(p: Plan, ghost t0: Tables)
      requires Reached(p, t0, ChildWaiting)
      modifies life`moves, life.store`tables
      ensures Reached(p, t0, RequestPosted)
    {
      hide At, WellKeyed, Leads, StatusOf, Permitted, MovesOf, Apply, Child;
      KnownAt(p, t0, life.store.tables, ChildWaiting);
      ChildIs(p, life.store.tables);
      ConfirmRequest(p, t0, life.store.tables);
      var child := life.store.tables.conversations[p.child];
      life.Save(SaveMessage(RequestRecord(p, true)));
      life.Save(SaveConversation(Longer(child, p.requestBytes)));
    }

    method OpenCycle(p: Plan, ghost t0: Tables)
      requires Reached(p, t0, ChildActive)
      modifies life`moves, life.store`tables
      ensures Reached(p, t0, ResumeOpened)
    {
      hide At, WellKeyed, Leads, StatusOf, Permitted, MovesOf, Apply, Child;
      KnownAt(p, t0, life.store.tables, ChildActive);
      ChildIs(p, life.store.tables);
      OpenResume(p, t0, life.store.tables);
      var session, child := life.store.tables.sessions[p.sid], life.store.tables.conversations[p.child];
      life.Save(SaveSession(Counted(session)));
      life.Save(SaveCycle(NewCycle(p)));
      life.Save(SaveMessage(RequestRecord(p, false)));
      life.Save(SaveConversation(child.(currentCycleId := Some(p.cycle))));
    }

    /** The reply: the expected acknowledgement, or anything else. */
    method Hear(p: Plan, ghost t0: Tables, accepted: bool)
      requires Reached(p, t0, RequestPosted)
      modifies life`moves, life.store`tables
      ensures Reached(p, t0, if accepted then AckAccepted else AckRejected)
    {
      hide At, WellKeyed, Leads, StatusOf, Permitted, MovesOf, Apply, Child;
      KnownAt(p, t0, life.store.tables, RequestPosted);
      ChildIs(p, life.store.tables);
      var child := life.store.tables.conversations[p.child];
      if accepted {
        AcceptAck(p, t0, life.store.tables);
        life.Save(SaveMessage(ReplyRecord(p, true)));
        life.Save(SaveConversation(Longer(child, p.replyBytes)));
      } else {
        RejectAck(p, t0, life.store.tables);
        life.Save(SaveMessage(ReplyRecord(p, false)));
        life.Save(SaveCycle(NewCycle(p).(status := CycleFailed, inboundMessageId := Some(p.ack))));
        life.Save(SaveConversation(Longer(child, p.replyBytes)));
      }
    }

    method Listen(p: Plan, ghost t0: Tables, w: Way) returns (stage: Stage)
      requires Reached(p, t0, RequestPosted)
      modifies life`moves, life.store`tables
      ensures Reached(p, t0, stage) && OnTheWay(RequestPosted, stage, AckAccepted, w)
    {
      hide EndsAt, At, WellKeyed, Leads, StatusOf;
      stage := RequestPosted;
      OneStep(stage, w);
      if stage in w.breaks { return; }
      Hear(p, t0, w.answers.ackAccepted);
      stage := if w.answers.ackAccepted then AckAccepted else AckRejected;
      OneStep(stage, w);
    }

    /** Child healthy, parent closed, cycle completed. */
    method Conclude(p: Plan, ghost t0: Tables, w: Way) returns (stage: Stage)
      requires Reached(p, t0, AckAccepted)
      modifies life`moves, life.store`tables
      ensures Reached(p, t0, stage) && OnTheWay(AckAccepted, stage, ResumeCompleted, w)
    {
      hide At, WellKeyed, Leads, StatusOf, EndsAt;
      stage := AckAccepted;
      OneStep(stage, w);
      if stage in w.breaks { return; }
      Heal(p, t0);
      stage := ChildHealthy;
      OneStep(stage, w);
      if stage in w.breaks { return; }
      Close(p, t0);
      stage := ParentClosed;
      OneStep(stage, w);
      if stage in w.breaks { return; }
      CloseCycle(p, t0);
      stage := ResumeCompleted;
    }

    method Heal(p: Plan, ghost t0: Tables)
      requires Reached(p, t0, AckAccepted)
      modifies life`moves, life.store`tables
      ensures Reached(p, t0, ChildHealthy)
    {
      hide At, WellKeyed, Leads, StatusOf, Permitted, MovesOf, Apply, Child;
      KnownAt(p, t0, life.store.tables, AckAccepted);
      ChildIs(p, life.store.tables);
      HealChild(p, t0, life.store.tables);
      life.Save(SaveConversation(life.store.tables.conversations[p.child].(window := Healthy)));
    }

    method Close(p: Plan, ghost t0: Tables)
      requires Reached(p, t0, ChildHealthy)
      modifies life`moves, life.store`tables
      ensures Reached(p, t0, ParentClosed)
    {
      hide At, WellKeyed, Leads, StatusOf, Permitted, MovesOf, Apply, Source;
      KnownAt(p, t0, life.store.tables, ChildHealthy);
      SourceIs(p, life.store.tables);
      CloseParent(p, t0, life.store.tables);
      life.Save(SaveConversation(life.store.tables.conversations[p.source].(status := Closed,
        closureReason := Some("rotated"))));
    }

    method CloseCycle(p: Plan, ghost t0: Tables)
      requires Reached(p, t0, ParentClosed)
      modifies life`moves, life.store`tables
      ensures Reached(p, t0, ResumeCompleted)
    {
      hide At, WellKeyed, Leads, StatusOf, Permitted, MovesOf, Apply;
      KnownAt(p, t0, life.store.tables, ParentClosed);
      CompleteCycle(p, t0, life.store.tables);
      life.Save(SaveCycle(life.store.tables.cycles[p.cycle].(status := CycleCompleted,
                                                             inboundMessageId := Some(p.ack))));
    }

    /** The pending message again, under a new identifier. */
    method Retransmit(p: Plan, ghost t0: Tables, w: Way) returns (stage: Stage)
      requires Reached(p, t0, ResumeCompleted) && w.answers.copyIsOfTheSameType
      modifies life`moves, life.store`tables
      ensures Reached(p, t0, stage) && OnTheWay(ResumeCompleted, stage, CopyPosted, w)
    {
      hide At, WellKeyed, Leads, StatusOf, EndsAt;
      stage := ResumeCompleted;
      OneStep(stage, w);
      if stage in w.breaks { return; }
      PutCopy(p, t0);
      stage := CopyStored;
      OneStep(stage, w);
      if stage in w.breaks { return; }
      SendCopy(p, t0);
      stage := CopyPosted;
    }

    method PutCopy(p: Plan, ghost t0: Tables)
      requires Reached(p, t0, ResumeCompleted)
      modifies life`moves, life.store`tables
      ensures Reached(p, t0, CopyStored)
    {
      hide At, WellKeyed, Leads, StatusOf, Permitted, MovesOf, Apply, Child;
      KnownAt(p, t0, life.store.tables, ResumeCompleted);
      ChildIs(p, life.store.tables);
      StoreCopy(p, t0, life.store.tables);
      var child := life.store.tables.conversations[p.child];
      life.Save(SaveMessage(CopyRecord(p, false)));
      life.Save(SaveConversation(child.(currentCycleId := p.originalCycle)));
    }

    method SendCopy(p: Plan, ghost t0: Tables)
      requires Reached(p, t0, CopyStored)
      modifies life`moves, life.store`tables
      ensures Reached(p, t0, CopyPosted)
    {
      hide At, WellKeyed, Leads, StatusOf, Permitted, MovesOf, Apply, Child;
      KnownAt(p, t0, life.store.tables, CopyStored);
      ChildIs(p, life.store.tables);
      ConfirmCopy(p, t0, life.store.tables);
      var child := life.store.tables.conversations[p.child];
      life.Save(SaveMessage(CopyRecord(p, true)));
      life.Save(SaveConversation(Longer(child, p.copyBytes)));
    }

    /** A whole rotation, or as much of it as was possible: it ends where the answers and the breaks say, what
        the store holds then is exactly what belongs to that stage, and every state change on the way was a
        listed one.  A guard that fails costs nothing. */
    method Rotate(p: Plan, answers: Answers, breaks: set<Stage>) returns (guard: Option<Guard>, stage: Stage)
      requires WellKeyed(life.store.tables) && life.Journaled()
      requires var t := life.store.tables;
               && p.child !in t.conversations && p.cycle !in t.cycles
               && forall m | m in t.messages ::
                    m.conversationId != p.child && m.messageId !in {p.request, p.ack, p.copy}
      requires p.request != p.ack && p.request != p.copy && p.ack != p.copy
      modifies life`moves, life.store`tables
      ensures WellKeyed(life.store.tables) && life.Journaled()
      ensures guard.None? <==>
                p.sid !in old(life.store.tables).sessions || p.source !in old(life.store.tables).conversations
      ensures guard.Some? ==>
                var session := old(life.store.tables).sessions[p.sid];
                var status := old(life.store.tables).conversations[p.source].status;
                var rotatable := status.WaitingModelResponse? || status.RunningPlan? || status.WaitingUser?;
                && (guard.value.RotationLimit? <==> session.rotationsCount >= maxRotations)
                && (guard.value.CycleBudget? <==>
                      session.rotationsCount < maxRotations && session.consumedCycles >= session.maxCycles)
                && (guard.value.NotRotatable? <==>
                      && session.rotationsCount < maxRotations && session.consumedCycles < session.maxCycles
                      && !rotatable)
                && (guard.value.Passed? <==>
                      && session.rotationsCount < maxRotations && session.consumedCycles < session.maxCycles
                      && rotatable)
      ensures guard != Some(Passed)
              ==> stage.Untouched? && life.store.tables == old(life.store.tables) && life.moves == old(life.moves)
      ensures guard == Some(Passed) ==>
                && stage == EndsAt(Untouched,
                                   Way(answers, old(life.store.tables).conversations[p.source].sessionId == p.sid,
                                       breaks))
                && At(p, old(life.store.tables), life.store.tables, stage)
    {
      hide At, WellKeyed, Leads, StatusOf, EndsAt, Next;
      ghost var t0 := life.store.tables;
      stage := Untouched;
      if p.sid !in life.store.tables.sessions || p.source !in life.store.tables.conversations {
        return None, stage;
      }
      var source := life.store.tables.conversations[p.source];
      guard := Some(CheckGuards(life.store.tables.sessions[p.sid], source, maxRotations));
      Start(p, t0);
      if !guard.value.Passed? {
        return;
      }
      var w := Way(answers, source.sessionId == p.sid, breaks);
      stage := MarkParent(p, t0, w);
      if !stage.ParentRotating? { return; }
      stage := BringUpChild(p, t0, w);
      if !stage.ChildActive? { return; }
      stage := Ask(p, t0, w);
      if !stage.RequestPosted? { return; }
      stage := Listen(p, t0, w);
      if !stage.AckAccepted? { return; }
      stage := Conclude(p, t0, w);
      if !stage.ResumeCompleted? { return; }
      if !w.answers.copyIsOfTheSameType {
        NoCopy(w);
        return;
      }
      stage := Retransmit(p, t0, w);
      LastStage(w);
    }
  }

  /** From `s` a rotation came to `now`: either where this step leads, or where it ends. */
  predicate OnTheWay(s: Stage, now: Stage, goal: Stage, w: Way) {
    EndsAt(s, w) == EndsAt(now, w) && (now == goal || EndsAt(now, w) == now)
  }

  lemma NoCopy(w: Way)
    requires !w.answers.copyIsOfTheSameType
    ensures EndsAt(ResumeCompleted, w).ResumeCompleted?
  {
  }

  lemma LastStage(w: Way)
    ensures EndsAt(CopyPosted, w).CopyPosted?
  {
  }

  lemma KnownAt(p: Plan, t0: Tables, t: Tables, s: Stage)
    requires At(p, t0, t, s)
    ensures p.source in t0.conversations && p.source in t.conversations && p.sid in t.sessions
    ensures t.conversations[p.source].sessionId == t0.conversations[p.source].sessionId
    ensures ChildExists(s) ==> p.child in t.conversations
    ensures CycleExists(s) ==> p.cycle in t.cycles
  {
  }

  lemma SourceIs(p: Plan, t: Tables)
    requires p.source in t.conversations
    ensures Source(p, t) == t.conversations[p.source]
  {
  }

  lemma ChildIs(p: Plan, t: Tables)
    requires p.child in t.conversations
    ensures Child(p, t) == t.conversations[p.child]
  {
  }

  lemma NothingOnTheWireYet(p: Plan, t0: Tables, t: Tables)
    requires At(p, t0, t, ChildCreated)
    ensures WireBytes(t.messages, p.child) == 0
  {
  }
}

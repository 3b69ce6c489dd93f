/**
 A rotation moves a saturated conversation to a fresh child.  Between any two writes it may stop for good:
 a transport error, a cancellation, a refused write.  `At` says what the store holds at each such point.
 */
module Rotation {
  import opened Options
  import opened States
  import opened Records
  import opened Persistence
  import opened Journal

  /** How far a rotation got, named after its last completed write. */
  datatype Stage =
    | Untouched | ParentSaturated | ParentRotating | SummaryFailed
    | ChildCreated | ChildAddressed | ChildActive | ResumeOpened | ChildWaiting | RequestPosted
    | AckRejected | AckAccepted | ChildHealthy | ParentClosed | ResumeCompleted | CopyStored | CopyPosted

  function Rank(s: Stage): nat {
    match s
    case Untouched => 0 case ParentSaturated => 1 case ParentRotating => 2 case SummaryFailed => 3
    case ChildCreated => 4 case ChildAddressed => 5 case ChildActive => 6 case ResumeOpened => 7
    case ChildWaiting => 8 case RequestPosted => 9 case AckRejected => 10 case AckAccepted => 11
    case ChildHealthy => 12 case ParentClosed => 13 case ResumeCompleted => 14 case CopyStored => 15
    case CopyPosted => 16
  }

  /** The entities of one rotation and what it was given. */
  datatype Plan = Plan(
    sid: string, source: string, child: string, cycle: string, remote: string,
    request: string, ack: string, copy: string, original: string, originalType: MessageType,
      originalCycle: Option<string>,
    replyType: MessageType,
    instructionsBytes: nat, requestBytes: nat, replyBytes: nat, copyBytes: nat)

  // ---- how far it gets ------------------------------------------------------------------------------------

  /** What the collaborators answer. */
  datatype Answers = Answers(summaryFits: bool, ackAccepted: bool, copyIsOfTheSameType: bool)

  /** What decides how far a rotation gets, all of it outside its hands: the answers, whether the parent is a
      conversation of the session, and the stages after which something fails, be it a remote call, its
      cancellation or the next write. */
  datatype Way = Way(answers: Answers, own: bool, breaks: set<Stage>)

  /** The next stage, if nothing fails before it. */
  function Next(s: Stage, w: Way): (next: Option<Stage>)
    ensures next.Some? ==> Rank(next.value) > Rank(s)
  {
    match s
    case Untouched => Some(ParentSaturated)
    case ParentSaturated => Some(ParentRotating)
    case ParentRotating => if !w.answers.summaryFits then Some(SummaryFailed) else if w.own then Some(ChildCreated)
      else None
    case ChildCreated => Some(ChildAddressed)
    case ChildAddressed => Some(ChildActive)
    case ChildActive => Some(ResumeOpened)
    case ResumeOpened => Some(ChildWaiting)
    case ChildWaiting => Some(RequestPosted)
    case RequestPosted => if w.answers.ackAccepted then Some(AckAccepted) else Some(AckRejected)
    case AckAccepted => Some(ChildHealthy)
    case ChildHealthy => Some(ParentClosed)
    case ParentClosed => Some(ResumeCompleted)
    case ResumeCompleted => if w.answers.copyIsOfTheSameType then Some(CopyStored) else None
    case CopyStored => Some(CopyPosted)
    case SummaryFailed | AckRejected | CopyPosted => None
  }

  predicate Halts(s: Stage, w: Way) {
    s in w.breaks || Next(s, w).None?
  }

  /** Where a rotation that got to stage `s` ends. */
  function EndsAt(s: Stage, w: Way): Stage
    decreases 16 - Rank(s)
  {
    if Halts(s, w) then s else EndsAt(Next(s, w).value, w)
  }

  lemma OneStep(s: Stage, w: Way)
    ensures EndsAt(s, w) == if Halts(s, w) then s else EndsAt(Next(s, w).value, w)
  {
  }

  /** With good answers and nothing that fails the pending message is on its way again. */
  lemma {:induction false} NothingInTheWay(s: Stage, w: Way)
    requires w.answers.summaryFits && w.answers.ackAccepted && w.answers.copyIsOfTheSameType && w.own && w.breaks == {}
    requires !s.SummaryFailed? && !s.AckRejected?
    ensures EndsAt(s, w).CopyPosted?
    decreases 16 - Rank(s)
  {
    if !s.CopyPosted? { NothingInTheWay(Next(s, w).value, w); }
  }

  const BEFORE_HEALTHY: set<Stage> :=
    {Untouched, ParentSaturated, ParentRotating, ChildCreated, ChildAddressed, ChildActive, ResumeOpened, ChildWaiting,
     RequestPosted, AckAccepted}

  /** The acknowledgement came, and the first thing to fail is the write that closes the parent. */
  predicate ParentNotClosed(w: Way) {
    && w.answers.summaryFits && w.answers.ackAccepted && w.own
    && ChildHealthy in w.breaks && w.breaks !! BEFORE_HEALTHY
  }

  lemma EndsHealthy(w: Way)
    ensures EndsAt(Untouched, w).ChildHealthy? <==> ParentNotClosed(w)
  {
    assert EndsAt(AckAccepted, w).ChildHealthy?
           <==> AckAccepted !in w.breaks && ChildHealthy in w.breaks by { PastHealthy(ParentClosed, w); }
    assert EndsAt(RequestPosted, w).ChildHealthy?
           <==> RequestPosted !in w.breaks && w.answers.ackAccepted && EndsAt(AckAccepted, w).ChildHealthy?;
    assert EndsAt(ChildActive, w).ChildHealthy? <==>
             {ChildActive, ResumeOpened, ChildWaiting} !! w.breaks
               && EndsAt(RequestPosted, w).ChildHealthy? by { Three(ChildActive, ResumeOpened, ChildWaiting, w); }
    assert EndsAt(ChildCreated, w).ChildHealthy?
           <==> {ChildCreated, ChildAddressed} !! w.breaks && EndsAt(ChildActive, w).ChildHealthy?;
    assert EndsAt(ParentRotating, w).ChildHealthy? <==>
             ParentRotating !in w.breaks && w.answers.summaryFits && w.own && EndsAt(ChildCreated, w).ChildHealthy?;
  }

  lemma Three(a: Stage, b: Stage, c: Stage, w: Way)
    requires Next(a, w) == Some(b) && Next(b, w) == Some(c) && Next(c, w).Some?
    ensures EndsAt(a, w) == if a in w.breaks then a else if b in w.breaks then b else if c in w.breaks then c
            else EndsAt(Next(c, w).value, w)
  {
  }

  lemma {:induction false} PastHealthy(s: Stage, w: Way)
    requires Rank(s) > Rank(ChildHealthy)
    ensures !EndsAt(s, w).ChildHealthy?
    decreases 16 - Rank(s)
  {
    if !Halts(s, w) { PastHealthy(Next(s, w).value, w); }
  }

  // ---- the byte count of a conversation -----------------------------------------------------------------

  /** The bytes that went over the wire: everything received, and everything sent and confirmed. */
  predicate Counts(m: MessageRecord, conversation: string) {
    m.conversationId == conversation && (m.direction.Inbound? || m.postConfirmed)
  }

  function BytesOf(m: MessageRecord, conversation: string): nat {
    if Counts(m, conversation) then m.sizeBytes else 0
  }

  function WireBytes(messages: seq<MessageRecord>, conversation: string): nat {
    if messages == [] then 0 else BytesOf(messages[0], conversation) + WireBytes(messages[1..], conversation)
  }

  predicate Known(messages: seq<MessageRecord>, id: string) {
    exists m | m in messages :: m.messageId == id
  }

  lemma {:induction false} NewMessageBytes(messages: seq<MessageRecord>, m: MessageRecord, conversation: string)
    requires !Known(messages, m.messageId)
    ensures WireBytes(Upsert(messages, m), conversation) == WireBytes(messages, conversation) + BytesOf(m, conversation)
  {
    if messages != [] {
      assert messages[0] in messages;
      assert !Known(messages[1..], m.messageId) by {
        assert forall x | x in messages[1..] :: x in messages;
      }
      NewMessageBytes(messages[1..], m, conversation);
    }
  }

  lemma {:induction false} WithoutUnknown(messages: seq<MessageRecord>, id: string)
    requires !Known(messages, id)
    ensures Without(messages, id) == messages
  {
    if messages != [] {
      assert messages[0] in messages;
      assert !Known(messages[1..], id) by {
        assert forall x | x in messages[1..] :: x in messages;
      }
      WithoutUnknown(messages[1..], id);
    }
  }

  /** Replacing a record moves the count by the difference. */
  lemma {:induction false} ReplacedMessageBytes(messages: seq<MessageRecord>, first: MessageRecord, m: MessageRecord,
                                                conversation: string)
    requires DistinctIds(messages) && first in messages && first.messageId == m.messageId
    ensures WireBytes(Upsert(messages, m), conversation) + BytesOf(first, conversation)
         == WireBytes(messages, conversation) + BytesOf(m, conversation)
  {
    var rest := messages[1..];
    if messages[0].messageId == m.messageId {
      assert messages[0] == first;
      assert !Known(rest, m.messageId);
      WithoutUnknown(rest, m.messageId);
      assert Upsert(messages, m)[1..] == rest;
    } else {
      assert first in rest;
      ReplacedMessageBytes(rest, first, m, conversation);
    }
  }

  lemma {:induction false} NoMessageNoBytes(messages: seq<MessageRecord>, conversation: string)
    requires forall m | m in messages :: m.conversationId != conversation
    ensures WireBytes(messages, conversation) == 0
  {
    if messages != [] {
      assert messages[0] in messages;
      NoMessageNoBytes(messages[1..], conversation);
    }
  }

  // ---- the store at each point ------------------------------------------------------------------------------

  function ParentStatus(s: Stage, first: ConversationState): ConversationState {
    if Rank(s) <= 1 then first
    else if s.SummaryFailed? then ConversationFailed
    else if Rank(s) <= 12 then Rotating
    else Closed
  }

  function ChildStatus(s: Stage): ConversationState {
    if Rank(s) <= 5 then New else if Rank(s) <= 7 then Active else WaitingModelResponse
  }

  function CycleStatus(s: Stage): CycleState {
    if s.AckRejected? then CycleFailed else if Rank(s) <= 13 then CycleRunning else CycleCompleted
  }

  predicate ChildExists(s: Stage) { Rank(s) >= 4 }
  predicate CycleExists(s: Stage) { Rank(s) >= 7 }

  datatype Progress = Unsent | Stored | Confirmed | Rejected

  function RequestProgress(s: Stage): Progress {
    if Rank(s) < 7 then Unsent else if Rank(s) < 9 then Stored else Confirmed
  }

  function ReplyProgress(s: Stage): Progress {
    if Rank(s) < 10 then Unsent else if s.AckRejected? then Rejected else Confirmed
  }

  function CopyProgress(s: Stage): Progress {
    if Rank(s) < 15 then Unsent else if Rank(s) < 16 then Stored else Confirmed
  }

  function ChildCycle(p: Plan, s: Stage): Option<string> {
    if Rank(s) < 7 then None else if Rank(s) < 15 then Some(p.cycle) else p.originalCycle
  }

  /** Nothing but its states and the reason of its closure changed. */
  predicate SameBut(before: ConversationRecord, after: ConversationRecord) {
    after == before.(status := after.status, window := after.window, closureReason := after.closureReason)
  }

  ghost predicate ParentAt(p: Plan, t0: Tables, t: Tables, status: ConversationState, touched: bool) {
    && p.source in t0.conversations && p.source in t.conversations
    && t.conversations[p.source].conversationId == p.source
    && SameBut(t0.conversations[p.source], t.conversations[p.source])
    && t.conversations[p.source].status == status
    && (if touched then t.conversations[p.source].window.Saturated?
       else t.conversations[p.source] == t0.conversations[p.source])
  }

  /** The child as it is once created. */
  ghost predicate ChildAt(p: Plan, t: Tables, status: ConversationState, window: WindowState, addressed: bool,
                          cycle: Option<string>) {
    && p.child in t.conversations
    && var c := t.conversations[p.child];
    && c.conversationId == p.child && c.sessionId == p.sid && c.parentId == Some(p.source)
    && c.status == status && c.window == window && c.currentCycleId == cycle
    && c.remoteId == (if addressed then Some(p.remote) else None) && (!addressed ==> c.contextBytes == 0)
    && c.contextBytes == (if addressed then p.instructionsBytes else 0) + WireBytes(t.messages, p.child)
  }

  ghost predicate NoChildAt(p: Plan, t: Tables) {
    p.child !in t.conversations && WireBytes(t.messages, p.child) == 0
  }

  ghost predicate CycleAt(p: Plan, t: Tables, there: bool, status: CycleState) {
    if !there then p.cycle !in t.cycles
    else
      && p.cycle in t.cycles
      && var c := t.cycles[p.cycle];
      && c.cycleId == p.cycle && c.cycleType.Resume? && c.conversationId == p.child && c.sessionId == p.sid
      && c.status == status
  }

  ghost predicate SessionAt(p: Plan, t0: Tables, t: Tables, child: bool, cycle: bool) {
    && p.sid in t0.sessions && p.sid in t.sessions
    && t.sessions[p.sid].sessionId == p.sid
    && var more := if cycle then 1 else 0;
    && t.sessions[p.sid] == t0.sessions[p.sid].(
         rotationsCount := t0.sessions[p.sid].rotationsCount + more,
         consumedCycles := t0.sessions[p.sid].consumedCycles + more,
         currentConversationId := if child then Some(p.child) else t0.sessions[p.sid].currentConversationId)
  }

  /** The request of the child, the reply to it, and the copy of the pending message. */
  function RequestRecord(p: Plan, confirmed: bool): MessageRecord {
    MessageRecord(p.request, p.sid, p.child, Outbound, ContextResumeRequest, p.requestBytes, Some(p.cycle), confirmed,
                  true, None)
  }

  function ReplyRecord(p: Plan, accepted: bool): MessageRecord {
    MessageRecord(p.ack, p.sid, p.child, Inbound, if accepted then ContextResumeAck else p.replyType, p.replyBytes,
                  Some(p.cycle), false, accepted, None)
  }

  function CopyRecord(p: Plan, confirmed: bool): MessageRecord {
    MessageRecord(p.copy, p.sid, p.child, Outbound, p.originalType, p.copyBytes, p.originalCycle, confirmed, true,
                  Some(p.original))
  }

  /** A message of the child is one of these three, as far as they got. */
  predicate OwnMessage(p: Plan, m: MessageRecord, request: Progress, reply: Progress, copy: Progress) {
    || (!request.Unsent? && m == RequestRecord(p, request.Confirmed?))
    || (!reply.Unsent? && m == ReplyRecord(p, reply.Confirmed?))
    || (!copy.Unsent? && m == CopyRecord(p, copy.Confirmed?))
  }

  /** The messages of every other conversation, in order. */
  function Foreign(messages: seq<MessageRecord>, conversation: string): seq<MessageRecord> {
    if messages == [] then []
    else
      (if messages[0].conversationId == conversation then [] else [messages[0]])
      + Foreign(messages[1..], conversation)
  }

  lemma {:induction false} ForeignWithout(messages: seq<MessageRecord>, id: string, conversation: string)
    requires forall m | m in messages && m.messageId == id :: m.conversationId == conversation
    ensures Foreign(Without(messages, id), conversation) == Foreign(messages, conversation)
  {
    if messages != [] {
      var rest := messages[1..];
      assert messages[0] in messages && forall m | m in rest :: m in messages;
      ForeignWithout(rest, id, conversation);
      if messages[0].messageId != id {
        var kept := [messages[0]] + Without(rest, id);
        assert kept[1..] == Without(rest, id);
      }
    }
  }

  /** Writing a message of one conversation leaves those of the others alone. */
  lemma {:induction false} ForeignUpsert(messages: seq<MessageRecord>, r: MessageRecord)
    requires forall m | m in messages && m.messageId == r.messageId :: m.conversationId == r.conversationId
    ensures Foreign(Upsert(messages, r), r.conversationId) == Foreign(messages, r.conversationId)
  {
    if messages == [] {
      assert [r][1..] == [];
    } else {
      var rest := messages[1..];
      assert messages[0] in messages && forall m | m in rest :: m in messages;
      if messages[0].messageId == r.messageId {
        ForeignWithout(rest, r.messageId, r.conversationId);
        assert ([r] + Without(rest, r.messageId))[1..] == Without(rest, r.messageId);
      } else {
        ForeignUpsert(rest, r);
        assert ([messages[0]] + Upsert(rest, r))[1..] == Upsert(rest, r);
      }
    }
  }

  ghost predicate MessagesAt(p: Plan, messages: seq<MessageRecord>, request: Progress, reply: Progress,
                             copy: Progress) {
    && DistinctIds(messages)
    && p.request != p.ack && p.request != p.copy && p.ack != p.copy
    && (if request.Unsent? then !Known(messages, p.request) else RequestRecord(p, request.Confirmed?) in messages)
    && (if reply.Unsent? then !Known(messages, p.ack) else ReplyRecord(p, reply.Confirmed?) in messages)
    && (if copy.Unsent? then !Known(messages, p.copy) else CopyRecord(p, copy.Confirmed?) in messages)
    && (forall m | m in messages && m.conversationId == p.child :: OwnMessage(p, m, request, reply, copy))
  }

  ghost predicate OthersAt(p: Plan, t0: Tables, t: Tables) {
    && t.tasks == t0.tasks && t.plans == t0.plans && t.blobs == t0.blobs
    && (forall k | k in t0.sessions && k != p.sid :: k in t.sessions && t.sessions[k] == t0.sessions[k])
    && (forall k | k in t0.cycles :: k in t.cycles && t.cycles[k] == t0.cycles[k])
    && (forall k | k in t0.conversations && k != p.source ::
         k in t.conversations && t.conversations[k] == t0.conversations[k])
    && p.cycle !in t0.cycles && p.child !in t0.conversations
    && t.sessions.Keys <= t0.sessions.Keys + {p.sid} && t.cycles.Keys <= t0.cycles.Keys + {p.cycle}
    && t.conversations.Keys <= t0.conversations.Keys + {p.source, p.child}
    && Foreign(t.messages, p.child) == Foreign(t0.messages, p.child)
  }

  ghost predicate At(p: Plan, t0: Tables, t: Tables, s: Stage) {
    && p.source in t0.conversations && p.child != p.source
    && ParentAt(p, t0, t, ParentStatus(s, t0.conversations[p.source].status), !s.Untouched?)
    && (if ChildExists(s)
        then ChildAt(p, t, ChildStatus(s), if Rank(s) >= 12 then Healthy else Saturated, Rank(s) >= 5, ChildCycle(p, s))
        else NoChildAt(p, t))
    && CycleAt(p, t, CycleExists(s), CycleStatus(s))
    && SessionAt(p, t0, t, ChildExists(s), CycleExists(s))
    && MessagesAt(p, t.messages, RequestProgress(s), ReplyProgress(s), CopyProgress(s))
    && OthersAt(p, t0, t)
  }

  /** The guards, in order. */
  datatype Guard = Passed | RotationLimit | CycleBudget | NotRotatable

  function CheckGuards(session: SessionRecord, source: ConversationRecord, maxRotations: nat): Guard {
    if session.rotationsCount >= maxRotations then RotationLimit
    else if session.consumedCycles >= session.maxCycles then CycleBudget
    else if !ConversationStep(source.status, Rotating) then NotRotatable
    else Passed
  }

  // ---- what holds wherever a rotation stops -----------------------------------------------------------------------

  /** At whatever point it stopped, the counters rose by exactly one if and only if the resume cycle exists,
      and stay within their limits. */
  lemma CountersFollowTheCycle(p: Plan, t0: Tables, t: Tables, s: Stage, maxRotations: nat)
    requires At(p, t0, t, s)
    requires !s.Untouched? ==>
               var session := t0.sessions[p.sid];
               session.rotationsCount < maxRotations && session.consumedCycles < session.maxCycles
    ensures var before, after := t0.sessions[p.sid], t.sessions[p.sid];
            var more := if p.cycle in t.cycles then 1 else 0;
            && after.rotationsCount == before.rotationsCount + more
            && after.consumedCycles == before.consumedCycles + more
            && (p.cycle in t.cycles ==> after.rotationsCount <= maxRotations && after.consumedCycles <= after.maxCycles)
  {
    hide ParentAt, ChildAt, NoChildAt, MessagesAt, OthersAt;
  }

  /** The child counts its instructions, once the remote side knows it, and exactly the messages that went
      over the wire; the session points to it as soon as it exists. */
  lemma ChildCountsTheWire(p: Plan, t0: Tables, t: Tables, s: Stage)
    requires At(p, t0, t, s) && p.child in t.conversations
    ensures var c := t.conversations[p.child];
            && c.contextBytes == (if c.remoteId.Some? then p.instructionsBytes else 0) + WireBytes(t.messages, p.child)
            && c.parentId == Some(p.source) && !FinalConversation(c.status)
            && t.sessions[p.sid].currentConversationId == Some(p.child)
  {
    hide ParentAt, CycleAt, MessagesAt, OthersAt;
  }

  predicate ChildNew(s: Stage) { s.ChildCreated? || s.ChildAddressed? }
  predicate ChildStarted(s: Stage) { s.ChildActive? || s.ResumeOpened? }
  predicate ChildIsWaiting(s: Stage) { s.ChildWaiting? || s.RequestPosted? || s.AckRejected? || s.AckAccepted? }
  predicate HandedOver(s: Stage) { s.ParentClosed? || s.ResumeCompleted? || s.CopyStored? || s.CopyPosted? }
  predicate RequestThere(s: Stage) { s.ResumeOpened? || ChildIsWaiting(s) || s.ChildHealthy? || HandedOver(s) }
  predicate ReplyThere(s: Stage) { s.AckRejected? || s.AckAccepted? || s.ChildHealthy? || HandedOver(s) }

  lemma StatusPhases(s: Stage, first: ConversationState)
    ensures ChildExists(s) <==> ChildNew(s) || ChildStarted(s) || ChildIsWaiting(s) || s.ChildHealthy? || HandedOver(s)
    ensures CycleExists(s) <==> RequestThere(s)
    ensures ParentStatus(s, first) == if s.Untouched? || s.ParentSaturated? then first
                                      else if s.SummaryFailed? then ConversationFailed
                                      else if HandedOver(s) then Closed else Rotating
    ensures ChildExists(s) ==>
              && (ChildStatus(s) == New <==> ChildNew(s)) && (ChildStatus(s) == Active <==> ChildStarted(s))
              && (ChildStatus(s) == WaitingModelResponse <==> !ChildNew(s) && !ChildStarted(s))
              && (Rank(s) >= 12 <==> s.ChildHealthy? || HandedOver(s)) && (Rank(s) >= 5 <==> !s.ChildCreated?)
    ensures CycleExists(s) ==>
              && (CycleStatus(s) == CycleFailed <==> s.AckRejected?)
              && (CycleStatus(s) == CycleCompleted <==> s.ResumeCompleted? || s.CopyStored? || s.CopyPosted?)
              && CycleStatus(s) != CycleInterrupted
  {
  }

  /** Which states the entities of the rotation are in at each stage. */
  lemma StatesAt(p: Plan, t0: Tables, t: Tables, s: Stage)
    requires At(p, t0, t, s)
    ensures p.source in t.conversations && p.source in t0.conversations
    ensures t.conversations[p.source].status ==
            if s.Untouched? || s.ParentSaturated? then t0.conversations[p.source].status
            else if s.SummaryFailed? then ConversationFailed
            else if HandedOver(s) then Closed else Rotating
    ensures !s.Untouched? ==> t.conversations[p.source].window == Saturated
    ensures p.child in t.conversations <==>
              ChildNew(s) || ChildStarted(s) || ChildIsWaiting(s) || s.ChildHealthy? || HandedOver(s)
    ensures p.child in t.conversations ==>
              var c := t.conversations[p.child];
              && (c.status == New <==> ChildNew(s)) && (c.status == Active <==> ChildStarted(s))
              && (c.status == WaitingModelResponse <==> !ChildNew(s) && !ChildStarted(s))
              && c.window == (if s.ChildHealthy? || HandedOver(s) then Healthy else Saturated)
              && c.remoteId == (if s.ChildCreated? then None else Some(p.remote))
    ensures p.cycle in t.cycles <==> RequestThere(s)
    ensures p.cycle in t.cycles ==>
              var c := t.cycles[p.cycle];
              && c.conversationId == p.child && c.cycleType == Resume && c.status != CycleInterrupted
              && (c.status == CycleFailed <==> s.AckRejected?)
              && (c.status == CycleCompleted <==> s.ResumeCompleted? || s.CopyStored? || s.CopyPosted?)
  {
    hide Rank, ParentStatus, ChildStatus, CycleStatus, ChildExists, CycleExists, ChildNew, ChildStarted, ChildIsWaiting,
         HandedOver, RequestThere, MessagesAt, OthersAt, SessionAt;
    StatusPhases(s, t0.conversations[p.source].status);
  }

  lemma MessagePhases(s: Stage)
    ensures RequestProgress(s) == if !RequestThere(s) then Unsent
                                  else if s.ResumeOpened? || s.ChildWaiting? then Stored else Confirmed
    ensures ReplyProgress(s) == if !ReplyThere(s) then Unsent else if s.AckRejected? then Rejected else Confirmed
    ensures CopyProgress(s) == if s.CopyStored? then Stored else if s.CopyPosted? then Confirmed else Unsent
  {
  }

  /** What a message of the child says. */
  ghost predicate Says(p: Plan, m: MessageRecord, s: Stage) {
    && m.sessionId == p.sid && m.messageId in {p.request, p.ack, p.copy}
    && (m.messageId == p.request ==>
          && m.direction == Outbound && m.messageType == ContextResumeRequest && m.sizeBytes == p.requestBytes
          && m.cycleId == Some(p.cycle) && m.valid && m.retransmissionOf == None
          && (m.postConfirmed <==> !s.ResumeOpened? && !s.ChildWaiting?))
    && (m.messageId == p.ack ==>
          && m.direction == Inbound && m.sizeBytes == p.replyBytes && m.cycleId == Some(p.cycle)
          && !m.postConfirmed && m.retransmissionOf == None && (m.valid <==> !s.AckRejected?)
          && m.messageType == if s.AckRejected? then p.replyType else ContextResumeAck)
    && (m.messageId == p.copy ==>
          && m.direction == Outbound && m.messageType == p.originalType && m.sizeBytes == p.copyBytes
          && m.cycleId == p.originalCycle && m.valid && m.retransmissionOf == Some(p.original)
          && (m.postConfirmed <==> s.CopyPosted?))
  }

  lemma OwnMessageSays(p: Plan, m: MessageRecord, s: Stage)
    requires p.request != p.ack && p.request != p.copy && p.ack != p.copy
    requires OwnMessage(p, m, RequestProgress(s), ReplyProgress(s), CopyProgress(s))
    ensures Says(p, m, s)
  {
    hide RequestProgress, ReplyProgress, CopyProgress, RequestThere, ReplyThere;
    MessagePhases(s);
  }

  /** Which messages the child has at each stage, and what they say. */
  lemma MessagesSay(p: Plan, t0: Tables, t: Tables, s: Stage)
    requires At(p, t0, t, s)
    ensures (exists m | m in t.messages :: m.messageId == p.request) <==> RequestThere(s)
    ensures (exists m | m in t.messages :: m.messageId == p.ack) <==> ReplyThere(s)
    ensures (exists m | m in t.messages :: m.messageId == p.copy) <==> s.CopyStored? || s.CopyPosted?
    ensures forall m | m in t.messages && m.conversationId == p.child :: Says(p, m, s)
  {
    hide ParentAt, ChildAt, NoChildAt, CycleAt, SessionAt, OthersAt, OwnMessage, Says, RequestProgress, ReplyProgress,
         CopyProgress, RequestThere, ReplyThere;
    MessagePhases(s);
    forall m | m in t.messages && m.conversationId == p.child ensures Says(p, m, s) { OwnMessageSays(p, m, s); }
  }

  /** Once it is over, the child is healthy if and only if the parent is closed, unless the first thing that
      failed was the write that closes the parent. */
  lemma HealthyWhenClosed(p: Plan, t0: Tables, t: Tables, w: Way)
    requires At(p, t0, t, EndsAt(Untouched, w))
    requires ConversationStep(t0.conversations[p.source].status, Rotating)
    ensures var closed := p.source in t.conversations && t.conversations[p.source].status.Closed?;
            var healthy := p.child in t.conversations && t.conversations[p.child].window.Healthy?;
            (closed <==> healthy) <==> !ParentNotClosed(w)
  {
    EndsHealthy(w);
    hide CycleAt, MessagesAt, OthersAt, SessionAt, EndsAt;
  }

  /** For instance when everything is answered well and only that write is refused: nothing will ever close
      the parent, although the child has taken over. */
  lemma HealthyBesideRotating(p: Plan, t0: Tables, t: Tables, w: Way)
    requires w == Way(Answers(true, true, true), true, {ChildHealthy})
    requires At(p, t0, t, EndsAt(Untouched, w))
    ensures p.child in t.conversations && t.conversations[p.child].window.Healthy?
    ensures p.source in t.conversations && t.conversations[p.source].status.Rotating?
  {
    EndsHealthy(w);
    hide CycleAt, MessagesAt, OthersAt, SessionAt, EndsAt;
  }

  // ---- the writes, one group at a time --------------------------------------------------------------------------

  function Source(p: Plan, t: Tables): ConversationRecord
    requires p.source in t.conversations
  {
    t.conversations[p.source]
  }

  function Child(p: Plan, t: Tables): ConversationRecord
    requires p.child in t.conversations
  {
    t.conversations[p.child]
  }

  function NewChild(p: Plan, autoClose: bool): ConversationRecord {
    ConversationRecord(p.child, p.sid, Some(p.source), None, New, autoClose, Saturated, 0, None, None, None)
  }

  function NewCycle(p: Plan): CycleRecord {
    CycleRecord(p.cycle, p.child, p.sid, Resume, CycleRunning, None)
  }

  function Counted(s: SessionRecord): SessionRecord {
    s.(rotationsCount := s.rotationsCount + 1, consumedCycles := s.consumedCycles + 1)
  }

  function Longer(c: ConversationRecord, bytes: nat): ConversationRecord {
    c.(contextBytes := c.contextBytes + bytes)
  }

  lemma Start(p: Plan, t0: Tables)
    requires WellKeyed(t0) && p.sid in t0.sessions && p.source in t0.conversations
    requires p.child !in t0.conversations && p.cycle !in t0.cycles
    requires forall m | m in t0.messages :: m.conversationId != p.child && m.messageId !in {p.request, p.ack, p.copy}
    requires p.request != p.ack && p.request != p.copy && p.ack != p.copy
    ensures At(p, t0, t0, Untouched)
  {
    NoMessageNoBytes(t0.messages, p.child);
  }

  /** A write to the child leaves everything else where it is. */
  lemma ChildWritten(p: Plan, t0: Tables, t: Tables, c: ConversationRecord)
    requires c.conversationId == p.child && p.child != p.source && OthersAt(p, t0, t)
    ensures var t' := Apply(SaveConversation(c), t);
            && t'.messages == t.messages && OthersAt(p, t0, t')
            && (forall st, to :: ParentAt(p, t0, t', st, to) <==> ParentAt(p, t0, t, st, to))
            && (forall e, st :: CycleAt(p, t', e, st) <==> CycleAt(p, t, e, st))
            && (forall a, b :: SessionAt(p, t0, t', a, b) <==> SessionAt(p, t0, t, a, b))
  {
  }

  /** So does a write to the parent. */
  lemma ParentWritten(p: Plan, t0: Tables, t: Tables, c: ConversationRecord)
    requires c.conversationId == p.source && p.child != p.source && OthersAt(p, t0, t)
    ensures var t' := Apply(SaveConversation(c), t);
            && t'.messages == t.messages && OthersAt(p, t0, t')
            && (forall st, w, a, k :: ChildAt(p, t', st, w, a, k) <==> ChildAt(p, t, st, w, a, k))
            && (NoChildAt(p, t') <==> NoChildAt(p, t))
            && (forall e, st :: CycleAt(p, t', e, st) <==> CycleAt(p, t, e, st))
            && (forall a, b :: SessionAt(p, t0, t', a, b) <==> SessionAt(p, t0, t, a, b))
  {
  }

  /** And one to the cycle, or to the session. */
  lemma CycleWritten(p: Plan, t0: Tables, t: Tables, c: CycleRecord)
    requires c.cycleId == p.cycle && OthersAt(p, t0, t)
    ensures var t' := Apply(SaveCycle(c), t);
            && t'.messages == t.messages && OthersAt(p, t0, t')
            && (forall st, to :: ParentAt(p, t0, t', st, to) <==> ParentAt(p, t0, t, st, to))
            && (forall st, w, a, k :: ChildAt(p, t', st, w, a, k) <==> ChildAt(p, t, st, w, a, k))
            && (forall a, b :: SessionAt(p, t0, t', a, b) <==> SessionAt(p, t0, t, a, b))
  {
  }

  lemma SessionWritten(p: Plan, t0: Tables, t: Tables, r: SessionRecord)
    requires r.sessionId == p.sid && OthersAt(p, t0, t)
    ensures var t' := Apply(SaveSession(r), t);
            && t'.messages == t.messages && OthersAt(p, t0, t')
            && (forall st, to :: ParentAt(p, t0, t', st, to) <==> ParentAt(p, t0, t, st, to))
            && (forall st, w, a, k :: ChildAt(p, t', st, w, a, k) <==> ChildAt(p, t, st, w, a, k))
            && (forall e, st :: CycleAt(p, t', e, st) <==> CycleAt(p, t, e, st))
  {
  }

  lemma MessageWritten(p: Plan, t0: Tables, t: Tables, m: MessageRecord)
    requires OthersAt(p, t0, t) && Foreign(Upsert(t.messages, m), p.child) == Foreign(t.messages, p.child)
    ensures var t' := Apply(SaveMessage(m), t);
            && t' == t.(messages := Upsert(t.messages, m)) && OthersAt(p, t0, t')
            && (forall st, to :: ParentAt(p, t0, t', st, to) <==> ParentAt(p, t0, t, st, to))
            && (forall e, st :: CycleAt(p, t', e, st) <==> CycleAt(p, t, e, st))
            && (forall a, b :: SessionAt(p, t0, t', a, b) <==> SessionAt(p, t0, t, a, b))
  {
  }

  lemma Saturate(p: Plan, t0: Tables, t: Tables)
    requires At(p, t0, t, Untouched)
    ensures Source(p, t).window.Saturated? ==> At(p, t0, t, ParentSaturated)
    ensures !Source(p, t).window.Saturated? ==>
              var w := SaveConversation(Source(p, t).(window := Saturated));
              Permitted(t, w) && At(p, t0, Apply(w, t), ParentSaturated)
  {
    hide ChildAt, NoChildAt, CycleAt, SessionAt, MessagesAt, OthersAt, WireBytes;
    ParentWritten(p, t0, t, Source(p, t).(window := Saturated));
  }

  lemma MarkRotating(p: Plan, t0: Tables, t: Tables)
    requires At(p, t0, t, ParentSaturated) && ConversationStep(t0.conversations[p.source].status, Rotating)
    ensures var w := SaveConversation(Source(p, t).(status := Rotating));
            Permitted(t, w) && At(p, t0, Apply(w, t), ParentRotating)
  {
    hide ChildAt, NoChildAt, CycleAt, SessionAt, MessagesAt, OthersAt, WireBytes;
    ParentWritten(p, t0, t, Source(p, t).(status := Rotating));
  }

  lemma FailSummary(p: Plan, t0: Tables, t: Tables)
    requires At(p, t0, t, ParentRotating)
    ensures var w := SaveConversation(Source(p, t).(status := ConversationFailed));
            Permitted(t, w) && At(p, t0, Apply(w, t), SummaryFailed)
  {
    hide ChildAt, NoChildAt, CycleAt, SessionAt, MessagesAt, OthersAt, WireBytes;
    ParentWritten(p, t0, t, Source(p, t).(status := ConversationFailed));
  }

  lemma CreateChild(p: Plan, t0: Tables, t: Tables)
    requires At(p, t0, t, ParentRotating)
    ensures var w1 := SaveConversation(NewChild(p, t.sessions[p.sid].autoClose));
            var w2 := SaveSession(t.sessions[p.sid].(currentConversationId := Some(p.child)));
            Permitted(t, w1) && Permitted(Apply(w1, t), w2) && At(p, t0, Apply(w2, Apply(w1, t)), ChildCreated)
  {
    hide Foreign, OwnMessage, WireBytes;
  }

  lemma AddressChild(p: Plan, t0: Tables, t: Tables)
    requires At(p, t0, t, ChildCreated) && WireBytes(t.messages, p.child) == 0
    ensures var w := SaveConversation(Child(p, t).(remoteId := Some(p.remote), contextBytes := p.instructionsBytes));
            Permitted(t, w) && At(p, t0, Apply(w, t), ChildAddressed)
  {
    hide ParentAt, CycleAt, SessionAt, MessagesAt, OthersAt, WireBytes;
    ChildWritten(p, t0, t, Child(p, t).(remoteId := Some(p.remote), contextBytes := p.instructionsBytes));
  }

  lemma ActivateChild(p: Plan, t0: Tables, t: Tables)
    requires At(p, t0, t, ChildAddressed)
    ensures var w := SaveConversation(Child(p, t).(status := Active));
            Permitted(t, w) && At(p, t0, Apply(w, t), ChildActive)
  {
    hide ParentAt, CycleAt, SessionAt, MessagesAt, OthersAt, WireBytes;
    ChildWritten(p, t0, t, Child(p, t).(status := Active));
  }

  lemma ChildWaits(p: Plan, t0: Tables, t: Tables)
    requires At(p, t0, t, ResumeOpened)
    ensures var w := SaveConversation(Child(p, t).(status := WaitingModelResponse));
            Permitted(t, w) && At(p, t0, Apply(w, t), ChildWaiting)
  {
    hide ParentAt, CycleAt, SessionAt, MessagesAt, OthersAt, WireBytes;
    ChildWritten(p, t0, t, Child(p, t).(status := WaitingModelResponse));
  }

  lemma HealChild(p: Plan, t0: Tables, t: Tables)
    requires At(p, t0, t, AckAccepted)
    ensures var w := SaveConversation(Child(p, t).(window := Healthy));
            Permitted(t, w) && At(p, t0, Apply(w, t), ChildHealthy)
  {
    hide ParentAt, CycleAt, SessionAt, MessagesAt, OthersAt, WireBytes;
    ChildWritten(p, t0, t, Child(p, t).(window := Healthy));
  }

  lemma CloseParent(p: Plan, t0: Tables, t: Tables)
    requires At(p, t0, t, ChildHealthy)
    ensures var w := SaveConversation(Source(p, t).(status := Closed, closureReason := Some("rotated")));
            Permitted(t, w) && At(p, t0, Apply(w, t), ParentClosed)
  {
    hide ChildAt, NoChildAt, CycleAt, SessionAt, MessagesAt, OthersAt, WireBytes;
    ParentWritten(p, t0, t, Source(p, t).(status := Closed, closureReason := Some("rotated")));
  }

  lemma CompleteCycle(p: Plan, t0: Tables, t: Tables)
    requires At(p, t0, t, ParentClosed)
    ensures var w := SaveCycle(t.cycles[p.cycle].(status := CycleCompleted, inboundMessageId := Some(p.ack)));
            Permitted(t, w) && At(p, t0, Apply(w, t), ResumeCompleted)
  {
    hide ParentAt, ChildAt, NoChildAt, SessionAt, MessagesAt, OthersAt, WireBytes;
    CycleWritten(p, t0, t, t.cycles[p.cycle].(status := CycleCompleted, inboundMessageId := Some(p.ack)));
  }

  // ---- the groups that write a message --------------------------------------------------------------------------

  lemma {:induction false} UpsertKeepsOthers(messages: seq<MessageRecord>, r: MessageRecord)
    ensures forall m | m in messages && m.messageId != r.messageId :: m in Upsert(messages, r)
  {
    if messages != [] && messages[0].messageId != r.messageId {
      UpsertKeepsOthers(messages[1..], r);
    }
  }

  lemma RequestUpserted(p: Plan, messages: seq<MessageRecord>, confirmed: bool, reply: Progress, copy: Progress)
    requires MessagesAt(p, messages, if confirmed then Stored else Unsent, reply, copy)
    ensures var after := Upsert(messages, RequestRecord(p, confirmed));
            && MessagesAt(p, after, if confirmed then Confirmed else Stored, reply, copy)
            && WireBytes(after, p.child) == WireBytes(messages, p.child) + (if confirmed then p.requestBytes else 0)
            && Foreign(after, p.child) == Foreign(messages, p.child)
  {
    var r := RequestRecord(p, confirmed);
    ForeignUpsert(messages, r);
    UpsertKeepsIdsDistinct(messages, r);
    UpsertKeepsOthers(messages, r);
    if confirmed {
      ReplacedMessageBytes(messages, RequestRecord(p, false), r, p.child);
    } else {
      NewMessageBytes(messages, r, p.child);
    }
  }

  lemma ReplyUpserted(p: Plan, messages: seq<MessageRecord>, accepted: bool, request: Progress, copy: Progress)
    requires MessagesAt(p, messages, request, Unsent, copy)
    ensures var after := Upsert(messages, ReplyRecord(p, accepted));
            && MessagesAt(p, after, request, if accepted then Confirmed else Rejected, copy)
            && WireBytes(after, p.child) == WireBytes(messages, p.child) + p.replyBytes
            && Foreign(after, p.child) == Foreign(messages, p.child)
  {
    var r := ReplyRecord(p, accepted);
    ForeignUpsert(messages, r);
    UpsertKeepsIdsDistinct(messages, r);
    UpsertKeepsOthers(messages, r);
    NewMessageBytes(messages, r, p.child);
  }

  lemma CopyUpserted(p: Plan, messages: seq<MessageRecord>, confirmed: bool, request: Progress, reply: Progress)
    requires MessagesAt(p, messages, request, reply, if confirmed then Stored else Unsent)
    ensures var after := Upsert(messages, CopyRecord(p, confirmed));
            && MessagesAt(p, after, request, reply, if confirmed then Confirmed else Stored)
            && WireBytes(after, p.child) == WireBytes(messages, p.child) + (if confirmed then p.copyBytes else 0)
            && Foreign(after, p.child) == Foreign(messages, p.child)
  {
    var r := CopyRecord(p, confirmed);
    ForeignUpsert(messages, r);
    UpsertKeepsIdsDistinct(messages, r);
    UpsertKeepsOthers(messages, r);
    if confirmed {
      ReplacedMessageBytes(messages, CopyRecord(p, false), r, p.child);
    } else {
      NewMessageBytes(messages, r, p.child);
    }
  }

  lemma SessionKnown(p: Plan, t0: Tables, t: Tables, child: bool, cycle: bool)
    requires SessionAt(p, t0, t, child, cycle)
    ensures p.sid in t.sessions && t.sessions[p.sid].sessionId == p.sid
  {
  }

  lemma SessionCounted(p: Plan, t0: Tables, t: Tables)
    requires SessionAt(p, t0, t, true, false)
    ensures var w := SaveSession(Counted(t.sessions[p.sid]));
            Permitted(t, w) && SessionAt(p, t0, Apply(w, t), true, true)
  {
  }

  lemma CycleOpened(p: Plan, t: Tables)
    requires p.cycle !in t.cycles
    ensures var w := SaveCycle(NewCycle(p));
            Permitted(t, w) && CycleAt(p, Apply(w, t), true, CycleRunning)
  {
  }

  lemma ChildPointed(p: Plan, t: Tables, c: ConversationRecord, bytes: nat)
    requires p.child in t.conversations && t.conversations[p.child] == c && bytes == WireBytes(t.messages, p.child)
    requires c.conversationId == p.child && c.sessionId == p.sid && c.parentId == Some(p.source) && c.status.Active?
    requires c.window.Saturated? && c.remoteId == Some(p.remote) && c.contextBytes == p.instructionsBytes + bytes
    ensures var w := SaveConversation(c.(currentCycleId := Some(p.cycle)));
            Permitted(t, w) && ChildAt(p, Apply(w, t), Active, Saturated, true, Some(p.cycle))
  {
    hide WireBytes;
  }

  lemma ActiveChildIs(p: Plan, t: Tables)
    requires ChildAt(p, t, Active, Saturated, true, None)
    ensures p.child in t.conversations
    ensures var c := t.conversations[p.child];
            && c.conversationId == p.child && c.sessionId == p.sid && c.parentId == Some(p.source) && c.status.Active?
            && c.window.Saturated? && c.remoteId == Some(p.remote)
            && c.contextBytes == p.instructionsBytes + WireBytes(t.messages, p.child)
  {
    hide WireBytes;
  }

  /** Counters, cycle, request and the pointer of the child, in one transaction. */
  lemma OpenResume(p: Plan, t0: Tables, t: Tables)
    requires At(p, t0, t, ChildActive)
    ensures var w1 := SaveSession(Counted(t.sessions[p.sid]));
            var w2, w3 := SaveCycle(NewCycle(p)), SaveMessage(RequestRecord(p, false));
            var w4 := SaveConversation(Child(p, t).(currentCycleId := Some(p.cycle)));
            var t1 := Apply(w1, t);
            var t2 := Apply(w2, t1);
            var t3 := Apply(w3, t2);
            && Permitted(t, w1) && Permitted(t1, w2) && Permitted(t2, w3) && Permitted(t3, w4)
            && At(p, t0, Apply(w4, t3), ResumeOpened)
  {
    hide ParentAt, ChildAt, OthersAt, SessionAt, MessagesAt, WireBytes, Upsert, Foreign, OwnMessage;
    SessionKnown(p, t0, t, true, false);
    var t1 := Apply(SaveSession(Counted(t.sessions[p.sid])), t);
    SessionWritten(p, t0, t, Counted(t.sessions[p.sid]));
    SessionCounted(p, t0, t);
    var t2 := Apply(SaveCycle(NewCycle(p)), t1);
    CycleWritten(p, t0, t1, NewCycle(p));
    CycleOpened(p, t1);
    RequestUpserted(p, t2.messages, false, Unsent, Unsent);
    var t3 := Apply(SaveMessage(RequestRecord(p, false)), t2);
    MessageWritten(p, t0, t2, RequestRecord(p, false));
    ActiveChildIs(p, t);
    ChildWritten(p, t0, t3, Child(p, t).(currentCycleId := Some(p.cycle)));
    ChildPointed(p, t3, Child(p, t), WireBytes(t3.messages, p.child));
  }

  /** A message over the wire is recorded, and counted, in one transaction. */
  lemma ConfirmRequest(p: Plan, t0: Tables, t: Tables)
    requires At(p, t0, t, ChildWaiting)
    ensures var w1, w2 := SaveMessage(RequestRecord(p, true)), SaveConversation(Longer(Child(p, t), p.requestBytes));
            var t1 := Apply(w1, t);
            Permitted(t, w1) && Permitted(t1, w2) && At(p, t0, Apply(w2, t1), RequestPosted)
  {
    hide ParentAt, CycleAt, SessionAt, OthersAt, MessagesAt, WireBytes, Upsert, Foreign, OwnMessage;
    var t1 := Apply(SaveMessage(RequestRecord(p, true)), t);
    RequestUpserted(p, t.messages, true, Unsent, Unsent);
    MessageWritten(p, t0, t, RequestRecord(p, true));
    ChildWritten(p, t0, t1, Longer(Child(p, t), p.requestBytes));
  }

  lemma AcceptAck(p: Plan, t0: Tables, t: Tables)
    requires At(p, t0, t, RequestPosted)
    ensures var w1, w2 := SaveMessage(ReplyRecord(p, true)), SaveConversation(Longer(Child(p, t), p.replyBytes));
            var t1 := Apply(w1, t);
            Permitted(t, w1) && Permitted(t1, w2) && At(p, t0, Apply(w2, t1), AckAccepted)
  {
    hide ParentAt, CycleAt, SessionAt, OthersAt, MessagesAt, WireBytes, Upsert, Foreign, OwnMessage;
    var t1 := Apply(SaveMessage(ReplyRecord(p, true)), t);
    ReplyUpserted(p, t.messages, true, Confirmed, Unsent);
    MessageWritten(p, t0, t, ReplyRecord(p, true));
    ChildWritten(p, t0, t1, Longer(Child(p, t), p.replyBytes));
  }

  lemma RejectAck(p: Plan, t0: Tables, t: Tables)
    requires At(p, t0, t, RequestPosted)
    ensures var w1, w2 := SaveMessage(ReplyRecord(p, false)),
            SaveCycle(NewCycle(p).(status := CycleFailed, inboundMessageId := Some(p.ack)));
            var w3 := SaveConversation(Longer(Child(p, t), p.replyBytes));
            var t1 := Apply(w1, t);
            var t2 := Apply(w2, t1);
            Permitted(t, w1) && Permitted(t1, w2) && Permitted(t2, w3) && At(p, t0, Apply(w3, t2), AckRejected)
  {
    hide ParentAt, SessionAt, OthersAt, MessagesAt, WireBytes, Upsert, Foreign, OwnMessage;
    var t1 := Apply(SaveMessage(ReplyRecord(p, false)), t);
    ReplyUpserted(p, t.messages, false, Confirmed, Unsent);
    MessageWritten(p, t0, t, ReplyRecord(p, false));
    var failed := NewCycle(p).(status := CycleFailed, inboundMessageId := Some(p.ack));
    var t2 := Apply(SaveCycle(failed), t1);
    CycleWritten(p, t0, t1, failed);
    ChildWritten(p, t0, t2, Longer(Child(p, t), p.replyBytes));
  }

  lemma StoreCopy(p: Plan, t0: Tables, t: Tables)
    requires At(p, t0, t, ResumeCompleted)
    ensures var w1, w2 := SaveMessage(CopyRecord(p, false)),
            SaveConversation(Child(p, t).(currentCycleId := p.originalCycle));
            var t1 := Apply(w1, t);
            Permitted(t, w1) && Permitted(t1, w2) && At(p, t0, Apply(w2, t1), CopyStored)
  {
    hide ParentAt, CycleAt, SessionAt, OthersAt, MessagesAt, WireBytes, Upsert, Foreign, OwnMessage;
    var t1 := Apply(SaveMessage(CopyRecord(p, false)), t);
    CopyUpserted(p, t.messages, false, Confirmed, Confirmed);
    MessageWritten(p, t0, t, CopyRecord(p, false));
    ChildWritten(p, t0, t1, Child(p, t).(currentCycleId := p.originalCycle));
  }

  lemma ConfirmCopy(p: Plan, t0: Tables, t: Tables)
    requires At(p, t0, t, CopyStored)
    ensures var w1, w2 := SaveMessage(CopyRecord(p, true)), SaveConversation(Longer(Child(p, t), p.copyBytes));
            var t1 := Apply(w1, t);
            Permitted(t, w1) && Permitted(t1, w2) && At(p, t0, Apply(w2, t1), CopyPosted)
  {
    hide ParentAt, CycleAt, SessionAt, OthersAt, MessagesAt, WireBytes, Upsert, Foreign, OwnMessage;
    var t1 := Apply(SaveMessage(CopyRecord(p, true)), t);
    CopyUpserted(p, t.messages, true, Confirmed, Confirmed);
    MessageWritten(p, t0, t, CopyRecord(p, true));
    ChildWritten(p, t0, t1, Longer(Child(p, t), p.copyBytes));
  }
}

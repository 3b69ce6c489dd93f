/**
 The state changes of one run of recovery, interruption or rotation, in order.  A journal is legal when
 each entry is a step of its table from the state the entity is in at that moment.
 */
module Journal {
  import opened Options
  import opened States
  import opened Records
  import opened Persistence

  /** The state of every entity of the store. */
  datatype Status = Status(
    tasks: map<(string, string), TaskState>,
    plans: map<(string, string), PlanState>,
    cycles: map<string, CycleState>,
    conversations: map<string, ConversationState>,
    windows: map<string, WindowState>,
    sessions: map<string, SessionState>)

  function StatusOf(t: Tables): Status {
    Status(
      map k | k in t.tasks :: t.tasks[k].status,
      map k | k in t.plans :: t.plans[k].status,
      map k | k in t.cycles :: t.cycles[k].status,
      map k | k in t.conversations :: t.conversations[k].status,
      map k | k in t.conversations :: t.conversations[k].window,
      map k | k in t.sessions :: t.sessions[k].status)
  }

  datatype Move =
    | TaskMove(task: (string, string), taskTo: TaskState)
    | PlanMove(plan: (string, string), planTo: PlanState)
    | CycleMove(cycle: string, cycleTo: CycleState)
    | ConversationMove(conversation: string, conversationTo: ConversationState)
    | WindowMove(window: string, windowTo: WindowState)
    | SessionMove(session: string, sessionTo: SessionState)
    | SessionOpened(newSession: string)
    | PlanDeclared(newPlan: (string, string))
    | TaskDeclared(newTask: (string, string))
    | CycleOpened(newCycle: string)
    | ConversationCreated(newConversation: string, newWindow: WindowState)

  predicate LegalMove(s: Status, m: Move) {
    match m
    case TaskMove(k, to) => k in s.tasks && TaskStep(s.tasks[k], to)
    case PlanMove(k, to) => k in s.plans && PlanStep(s.plans[k], to)
    case CycleMove(k, to) => k in s.cycles && CycleStep(s.cycles[k], to)
    case ConversationMove(k, to) => k in s.conversations && ConversationStep(s.conversations[k], to)
    case WindowMove(k, to) => k in s.windows && WindowStep(s.windows[k], to)
    case SessionMove(k, to) => k in s.sessions && SessionStep(s.sessions[k], to)
    case SessionOpened(k) => k !in s.sessions
    case PlanDeclared(k) => k !in s.plans
    case TaskDeclared(k) => k !in s.tasks
    case CycleOpened(k) => k !in s.cycles
    case ConversationCreated(k, _) => k !in s.conversations && k !in s.windows
  }

  function Moved(s: Status, m: Move): Status {
    match m
    case TaskMove(k, to) => s.(tasks := s.tasks[k := to])
    case PlanMove(k, to) => s.(plans := s.plans[k := to])
    case CycleMove(k, to) => s.(cycles := s.cycles[k := to])
    case ConversationMove(k, to) => s.(conversations := s.conversations[k := to])
    case WindowMove(k, to) => s.(windows := s.windows[k := to])
    case SessionMove(k, to) => s.(sessions := s.sessions[k := to])
    case SessionOpened(k) => s.(sessions := s.sessions[k := Ready])
    case PlanDeclared(k) => s.(plans := s.plans[k := PlanPending])
    case TaskDeclared(k) => s.(tasks := s.tasks[k := PENDING])
    case CycleOpened(k) => s.(cycles := s.cycles[k := CycleRunning])
    case ConversationCreated(k, w) => s.(conversations := s.conversations[k := New], windows := s.windows[k := w])
  }

  function Replay(s: Status, moves: seq<Move>): Status {
    if moves == [] then s else Moved(Replay(s, moves[..|moves| - 1]), moves[|moves| - 1])
  }

  /** The journal is legal from `s` on, and leads to `t`. */
  ghost predicate Leads(s: Status, moves: seq<Move>, t: Status) {
    && t == Replay(s, moves)
    && forall i | 0 <= i < |moves| :: LegalMove(Replay(s, moves[..i]), moves[i])
  }

  lemma NoMoves(s: Status)
    ensures Leads(s, [], s)
  {
  }

  lemma OneMoreMove(s: Status, moves: seq<Move>, t: Status, m: Move)
    requires Leads(s, moves, t) && LegalMove(t, m)
    ensures Leads(s, moves + [m], Moved(t, m))
  {
    var all := moves + [m];
    assert all[..|moves|] == moves;
    forall i | 0 <= i < |all| ensures LegalMove(Replay(s, all[..i]), all[i]) {
      if i < |moves| {
        assert all[..i] == moves[..i];
      }
    }
  }

  lemma LastMoveApart(s: Status, moves: seq<Move>, t: Status)
    requires Leads(s, moves, t) && moves != []
    ensures var n := |moves| - 1;
            var before := Replay(s, moves[..n]);
            Leads(s, moves[..n], before) && LegalMove(before, moves[n]) && t == Moved(before, moves[n])
  {
    hide LegalMove, Moved;
    var n := |moves| - 1;
    assert forall i | 0 <= i < n :: moves[..n][..i] == moves[..i];
  }

  lemma EmptyJournal(s: Status, t: Status)
    requires Leads(s, [], t)
    ensures t == s
  {
  }

  lemma {:induction false} JournalsChain(s: Status, a: seq<Move>, t: Status, b: seq<Move>, u: Status)
    requires Leads(s, a, t) && Leads(t, b, u)
    ensures Leads(s, a + b, u)
    decreases |b|
  {
    hide Leads, LegalMove, Moved, Replay;
    if b == [] {
      EmptyJournal(t, u);
      assert a + b == a;
    } else {
      var n := |b| - 1;
      var v := Replay(t, b[..n]);
      LastMoveApart(t, b, u);
      JournalsChain(s, a, t, b[..n], v);
      OneMoreMove(s, a + b[..n], v, b[n]);
      assert a + b == a + b[..n] + [b[n]];
    }
  }

  lemma {:induction false} ReplaySplits(s: Status, a: seq<Move>, b: seq<Move>)
    ensures Replay(s, a + b) == Replay(Replay(s, a), b)
    decreases |b|
  {
    if b == [] {
      assert a + b == a;
    } else {
      assert (a + b)[..|a + b| - 1] == a + b[..|b| - 1];
      ReplaySplits(s, a, b[..|b| - 1]);
    }
  }

  /** Two readings of one growing legal journal: the later state is reached from the earlier one. */
  lemma JournalGrew(s: Status, a: seq<Move>, t: Status, c: seq<Move>, u: Status)
    requires Leads(s, a, t) && Leads(s, c, u) && a <= c
    ensures Reaches(t, u)
  {
    hide LegalMove, Moved;
    var b := c[|a|..];
    assert c == a + b;
    ReplaySplits(s, a, b);
    forall i | 0 <= i < |b| ensures LegalMove(Replay(t, b[..i]), b[i]) {
      ReplaySplits(s, a, b[..i]);
      assert c[..|a| + i] == a + b[..i];
    }
    assert Leads(t, b, u);
  }

  /** Some legal journal leads from one status to the other. */
  ghost predicate Reaches(s: Status, t: Status) {
    exists moves :: Leads(s, moves, t)
  }

  lemma ReachesOn(s: Status, t: Status, u: Status)
    requires Reaches(s, t) && Reaches(t, u)
    ensures Reaches(s, u)
  {
    hide LegalMove, Moved;
    var a :| Leads(s, a, t);
    var b :| Leads(t, b, u);
    var c := a + b;
    ReplaySplits(s, a, b);
    forall i | 0 <= i < |c| ensures LegalMove(Replay(s, c[..i]), c[i]) {
      if i < |a| {
        assert c[..i] == a[..i] && c[i] == a[i];
      } else {
        ReplaySplits(s, a, b[..i - |a|]);
        assert c[..i] == a + b[..i - |a|];
      }
    }
    assert Leads(s, c, u);
  }

  // ---- a write keeps the tables keyed by their own identifiers ----------------------------------------------

  ghost predicate DistinctIds(rows: seq<MessageRecord>) {
    forall i, j | 0 <= i < j < |rows| :: rows[i].messageId != rows[j].messageId
  }

  lemma DistinctCons(m: MessageRecord, rows: seq<MessageRecord>)
    requires DistinctIds(rows) && forall n | n in rows :: n.messageId != m.messageId
    ensures DistinctIds([m] + rows)
  {
    var all := [m] + rows;
    forall i, j | 0 <= i < j < |all| ensures all[i].messageId != all[j].messageId {
      assert all[j] == rows[j - 1];
    }
  }

  lemma {:induction false} WithoutKeepsIdsDistinct(rows: seq<MessageRecord>, id: string)
    requires DistinctIds(rows)
    ensures DistinctIds(Without(rows, id))
  {
    if rows != [] {
      WithoutKeepsIdsDistinct(rows[1..], id);
      if rows[0].messageId != id {
        forall m | m in Without(rows[1..], id) ensures m.messageId != rows[0].messageId { assert m in rows[1..]; }
        DistinctCons(rows[0], Without(rows[1..], id));
      }
    }
  }

  lemma {:induction false} UpsertKeepsIdsDistinct(rows: seq<MessageRecord>, r: MessageRecord)
    requires DistinctIds(rows)
    ensures DistinctIds(Upsert(rows, r))
  {
    if rows == [] {
    } else if rows[0].messageId == r.messageId {
      WithoutKeepsIdsDistinct(rows[1..], r.messageId);
      DistinctCons(r, Without(rows[1..], r.messageId));
    } else {
      UpsertKeepsIdsDistinct(rows[1..], r);
      forall m | m in Upsert(rows[1..], r) ensures m.messageId != rows[0].messageId {
        if m != r { assert m in rows[1..]; }
      }
      DistinctCons(rows[0], Upsert(rows[1..], r));
    }
  }

  lemma WriteKeepsKeys(t: Tables, w: Write)
    requires WellKeyed(t)
    ensures WellKeyed(Apply(w, t))
  {
    if w.SaveMessage? {
      assert DistinctIds(Apply(w, t).messages) by { UpsertKeepsIdsDistinct(t.messages, w.message); }
    }
  }

  // ---- what a write does to the states -----------------------------------------------------------------

  lemma TaskSaved(t: Tables, r: TaskRecord)
    ensures StatusOf(Apply(SaveTask(r), t)) == StatusOf(t).(tasks := StatusOf(t).tasks[TaskKey(r) := r.status])
  {
    assert StatusOf(Apply(SaveTask(r), t)).tasks == StatusOf(t).tasks[TaskKey(r) := r.status];
  }

  lemma PlanSaved(t: Tables, r: PlanRecord)
    ensures StatusOf(Apply(SavePlan(r), t)) == StatusOf(t).(plans := StatusOf(t).plans[PlanKey(r) := r.status])
  {
    assert StatusOf(Apply(SavePlan(r), t)).plans == StatusOf(t).plans[PlanKey(r) := r.status];
  }

  lemma CycleSaved(t: Tables, r: CycleRecord)
    ensures StatusOf(Apply(SaveCycle(r), t)) == StatusOf(t).(cycles := StatusOf(t).cycles[r.cycleId := r.status])
  {
    assert StatusOf(Apply(SaveCycle(r), t)).cycles == StatusOf(t).cycles[r.cycleId := r.status];
  }

  lemma ConversationSaved(t: Tables, r: ConversationRecord)
    ensures StatusOf(Apply(SaveConversation(r), t)) == StatusOf(t).(
              conversations := StatusOf(t).conversations[r.conversationId := r.status],
              windows := StatusOf(t).windows[r.conversationId := r.window])
  {
    var after := StatusOf(Apply(SaveConversation(r), t));
    assert after.conversations == StatusOf(t).conversations[r.conversationId := r.status];
    assert after.windows == StatusOf(t).windows[r.conversationId := r.window];
  }

  lemma SessionSaved(t: Tables, r: SessionRecord)
    ensures StatusOf(Apply(SaveSession(r), t))
            == StatusOf(t).(sessions := StatusOf(t).sessions[r.sessionId := r.status])
  {
    assert StatusOf(Apply(SaveSession(r), t)).sessions == StatusOf(t).sessions[r.sessionId := r.status];
  }

  // ---- terminal states are final ------------------------------------------------------------------------

  lemma OneTerminalStatesStay(s: Status, m: Move)
    requires LegalMove(s, m)
    ensures var t := Moved(s, m);
            && (forall k | k in s.tasks && TaskTerminal(s.tasks[k]) :: k in t.tasks && t.tasks[k] == s.tasks[k])
            && (forall k | k in s.plans && PlanTerminal(s.plans[k]) :: k in t.plans && t.plans[k] == s.plans[k])
            && (forall k | k in s.cycles && !s.cycles[k].CycleRunning? :: k in t.cycles && t.cycles[k] == s.cycles[k])
  {
  }

  lemma OneFinalConversationsStay(s: Status, m: Move)
    requires LegalMove(s, m)
    ensures var t := Moved(s, m);
            && (forall k | k in s.conversations && FinalConversation(s.conversations[k]) ::
                  k in t.conversations && t.conversations[k] == s.conversations[k])
            && s.sessions.Keys <= t.sessions.Keys
  {
  }

  /** Terminal tasks, plans and cycles keep their state along any legal journal. */
  lemma {:induction false} TerminalStatesStay(s: Status, moves: seq<Move>, t: Status)
    requires Leads(s, moves, t)
    ensures forall k | k in s.tasks && TaskTerminal(s.tasks[k]) :: k in t.tasks && t.tasks[k] == s.tasks[k]
    ensures forall k | k in s.plans && PlanTerminal(s.plans[k]) :: k in t.plans && t.plans[k] == s.plans[k]
    ensures forall k | k in s.cycles && !s.cycles[k].CycleRunning? :: k in t.cycles && t.cycles[k] == s.cycles[k]
    decreases |moves|
  {
    if moves != [] {
      hide Leads, Replay, TaskStep, PlanStep, CycleStep, ConversationStep, SessionStep, WindowStep, LegalMove, Moved;
      var n := |moves| - 1;
      LastMoveApart(s, moves, t);
      TerminalStatesStay(s, moves[..n], Replay(s, moves[..n]));
      OneTerminalStatesStay(Replay(s, moves[..n]), moves[n]);
    } else {
      assert Replay(s, moves) == s;
    }
  }

  predicate FinalConversation(s: ConversationState) {
    s.ConversationInterrupted? || s.ConversationFailed? || s.Closed?
  }

  /** So do the conversations that are interrupted, failed or closed. */
  lemma {:induction false} FinalConversationsStay(s: Status, moves: seq<Move>, t: Status)
    requires Leads(s, moves, t)
    ensures forall k | k in s.conversations && FinalConversation(s.conversations[k]) ::
              k in t.conversations && t.conversations[k] == s.conversations[k]
    ensures s.sessions.Keys <= t.sessions.Keys
    decreases |moves|
  {
    if moves != [] {
      hide Leads, Replay, TaskStep, PlanStep, CycleStep, ConversationStep, SessionStep, WindowStep, LegalMove, Moved;
      var n := |moves| - 1;
      LastMoveApart(s, moves, t);
      FinalConversationsStay(s, moves[..n], Replay(s, moves[..n]));
      OneFinalConversationsStay(Replay(s, moves[..n]), moves[n]);
    } else {
      assert Replay(s, moves) == s;
    }
  }

  /** Everything final stays as it is, whatever legal journal follows. */
  lemma FinalStatesStay(s: Status, t: Status)
    requires Reaches(s, t)
    ensures forall k | k in s.tasks && TaskTerminal(s.tasks[k]) :: k in t.tasks && t.tasks[k] == s.tasks[k]
    ensures forall k | k in s.plans && PlanTerminal(s.plans[k]) :: k in t.plans && t.plans[k] == s.plans[k]
    ensures forall k | k in s.cycles && !s.cycles[k].CycleRunning? :: k in t.cycles && t.cycles[k] == s.cycles[k]
    ensures forall k | k in s.conversations && FinalConversation(s.conversations[k]) ::
              k in t.conversations && t.conversations[k] == s.conversations[k]
    ensures s.sessions.Keys <= t.sessions.Keys
  {
    var moves :| Leads(s, moves, t);
    TerminalStatesStay(s, moves, t);
    FinalConversationsStay(s, moves, t);
  }

  // ---- what any component may write -------------------------------------------------------------------------

  /** A record is created in the first state of its machine; afterwards a write keeps its state or makes one
      step of its table.  A conversation is written by either of its two machines, never by both at once. */
  predicate Permitted(t: Tables, w: Write) {
    match w
    case SaveSession(r) =>
      if r.sessionId in t.sessions
      then r.status == t.sessions[r.sessionId].status || SessionStep(t.sessions[r.sessionId].status, r.status)
      else r.status.Ready?
    case SaveConversation(r) =>
      if r.conversationId in t.conversations then
        var c := t.conversations[r.conversationId];
        || (r.window == c.window && (r.status == c.status || ConversationStep(c.status, r.status)))
        || (r.status == c.status && WindowStep(c.window, r.window))
      else r.status.New?
    case SaveCycle(r) =>
      if r.cycleId in t.cycles
      then r.status == t.cycles[r.cycleId].status || CycleStep(t.cycles[r.cycleId].status, r.status)
      else r.status.CycleRunning?
    case SavePlan(r) =>
      if PlanKey(r) in t.plans
      then r.status == t.plans[PlanKey(r)].status || PlanStep(t.plans[PlanKey(r)].status, r.status)
      else r.status.PlanPending?
    case SaveTask(r) =>
      if TaskKey(r) in t.tasks
      then r.status == t.tasks[TaskKey(r)].status || TaskStep(t.tasks[TaskKey(r)].status, r.status)
      else r.status.PENDING?
    case SaveMessage(_) => true
    case SaveBlob(_) => !Refused(w)
  }

  /** The journal entry of a write: none when it changes no state. */
  function MovesOf(t: Tables, w: Write): seq<Move> {
    match w
    case SaveSession(r) =>
      if r.sessionId !in t.sessions then [SessionOpened(r.sessionId)]
      else if r.status == t.sessions[r.sessionId].status then [] else [SessionMove(r.sessionId, r.status)]
    case SaveConversation(r) =>
      if r.conversationId !in t.conversations then [ConversationCreated(r.conversationId, r.window)]
      else if r.status != t.conversations[r.conversationId].status then [ConversationMove(r.conversationId, r.status)]
      else if r.window != t.conversations[r.conversationId].window then [WindowMove(r.conversationId, r.window)] else []
    case SaveCycle(r) =>
      if r.cycleId !in t.cycles then [CycleOpened(r.cycleId)]
      else if r.status == t.cycles[r.cycleId].status then [] else [CycleMove(r.cycleId, r.status)]
    case SavePlan(r) =>
      if PlanKey(r) !in t.plans then [PlanDeclared(PlanKey(r))]
      else if r.status == t.plans[PlanKey(r)].status then [] else [PlanMove(PlanKey(r), r.status)]
    case SaveTask(r) =>
      if TaskKey(r) !in t.tasks then [TaskDeclared(TaskKey(r))]
      else if r.status == t.tasks[TaskKey(r)].status then [] else [TaskMove(TaskKey(r), r.status)]
    case SaveMessage(_) => []
    case SaveBlob(_) => []
  }

  lemma ShortJournal(s: Status, moves: seq<Move>)
    requires |moves| <= 1 && (moves != [] ==> LegalMove(s, moves[0]))
    ensures Leads(s, moves, if moves == [] then s else Moved(s, moves[0]))
  {
    if moves != [] {
      assert moves[..0] == [];
      assert Replay(s, moves) == Moved(Replay(s, []), moves[0]);
    }
  }

  /** The journal entry of a write is legal, and accounts for its whole effect on the states. */
  ghost predicate Accounted(t: Tables, w: Write) {
    var moves := MovesOf(t, w);
    && StatusOf(Apply(w, t)) == (if moves == [] then StatusOf(t) else Moved(StatusOf(t), moves[0]))
    && (moves != [] ==> LegalMove(StatusOf(t), moves[0]))
  }

  lemma TaskAccounted(t: Tables, r: TaskRecord)
    requires Permitted(t, SaveTask(r))
    ensures Accounted(t, SaveTask(r))
  {
    var s := StatusOf(t);
    TaskSaved(t, r);
    if TaskKey(r) in t.tasks { assert s.tasks[TaskKey(r) := s.tasks[TaskKey(r)]] == s.tasks; }
  }

  lemma PlanAccounted(t: Tables, r: PlanRecord)
    requires Permitted(t, SavePlan(r))
    ensures Accounted(t, SavePlan(r))
  {
    var s := StatusOf(t);
    PlanSaved(t, r);
    if PlanKey(r) in t.plans { assert s.plans[PlanKey(r) := s.plans[PlanKey(r)]] == s.plans; }
  }

  lemma CycleAccounted(t: Tables, r: CycleRecord)
    requires Permitted(t, SaveCycle(r))
    ensures Accounted(t, SaveCycle(r))
  {
    var s := StatusOf(t);
    CycleSaved(t, r);
    if r.cycleId in t.cycles { assert s.cycles[r.cycleId := s.cycles[r.cycleId]] == s.cycles; }
  }

  lemma SessionAccounted(t: Tables, r: SessionRecord)
    requires Permitted(t, SaveSession(r))
    ensures Accounted(t, SaveSession(r))
  {
    var s := StatusOf(t);
    SessionSaved(t, r);
    if r.sessionId in t.sessions { assert s.sessions[r.sessionId := s.sessions[r.sessionId]] == s.sessions; }
  }

  lemma ConversationAccounted(t: Tables, r: ConversationRecord)
    requires Permitted(t, SaveConversation(r))
    ensures Accounted(t, SaveConversation(r))
  {
    var s := StatusOf(t);
    ConversationSaved(t, r);
    var id := r.conversationId;
    if id in t.conversations {
      assert s.conversations[id := s.conversations[id]] == s.conversations;
      assert s.windows[id := s.windows[id]] == s.windows;
    }
  }

  lemma PermittedIsAccounted(t: Tables, w: Write)
    requires Permitted(t, w)
    ensures Accounted(t, w)
  {
    match w
    case SaveSession(r) => hide *; SessionAccounted(t, r);
    case SaveConversation(r) => hide *; ConversationAccounted(t, r);
    case SaveCycle(r) => hide *; CycleAccounted(t, r);
    case SavePlan(r) => hide *; PlanAccounted(t, r);
    case SaveTask(r) => hide *; TaskAccounted(t, r);
    case SaveMessage(_) =>
    case SaveBlob(_) =>
  }

  /** A permitted write is one step of one table, or none. */
  lemma PermittedIsLegal(t: Tables, w: Write)
    requires Permitted(t, w)
    ensures Leads(StatusOf(t), MovesOf(t, w), StatusOf(Apply(w, t)))
  {
    PermittedIsAccounted(t, w);
    hide StatusOf, Leads, Permitted, Moved, LegalMove;
    ShortJournal(StatusOf(t), MovesOf(t, w));
  }

  /** A legal journal followed by a permitted write is a legal journal. */
  lemma OneMoreWrite(s: Status, moves: seq<Move>, t: Tables, w: Write)
    requires WellKeyed(t) && Leads(s, moves, StatusOf(t)) && Permitted(t, w)
    ensures WellKeyed(Apply(w, t))
    ensures Leads(s, moves + MovesOf(t, w), StatusOf(Apply(w, t)))
  {
    hide *;
    WriteKeepsKeys(t, w);
    PermittedIsLegal(t, w);
    JournalsChain(s, moves, StatusOf(t), MovesOf(t, w), StatusOf(Apply(w, t)));
  }
}

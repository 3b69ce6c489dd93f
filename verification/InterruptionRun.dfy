/**
 The interruption procedure and its two suspension points: the bounded wait for the running loop, and the
 best-effort close of the remote conversations.  While a run is suspended every other component may write,
 and every other caller may call.
 */
module InterruptionRun {
  import opened Options
  import opened States
  import opened Records
  import opened Persistence
  import opened Journal
  import opened Lifecycle
  import opened Interruption
  import opened InterruptionEffect

  class CancellationToken {
    var reason: Option<string>

    constructor ()
      ensures reason.None?
    {
      reason := None;
    }

    predicate IsCancelled()
      reads this
    {
      reason.Some?
    }

    /** The first reason is kept. */
    method Cancel(why: string)
      modifies this
      ensures IsCancelled() && reason == if old(reason).Some? then old(reason) else Some(why)
    {
      if reason.None? {
        reason := Some(why);
      }
    }
  }

  /** Where a run in flight is suspended. */
  datatype Await = Draining | Closing

  /** A run in flight, by its number. */
  datatype Run = Run(number: nat, await: Await)

  datatype Answer = Joined(number: nat) | UnknownSession | NothingToInterrupt | Started | NotRecorded

  /** What a caller is answered at once; `Started` may still become `NotRecorded` if the disk refuses to
      record that the session is being interrupted. */
  function AnswerOf(inFlight: map<string, Run>, t: Tables, sid: string): Answer {
    if sid in inFlight then Joined(inFlight[sid].number)
    else if sid !in t.sessions then UnknownSession
    else if Idle(t.sessions[sid].status) then NothingToInterrupt
    else Started
  }

  /** What one caller sees in the end.  `NotReady`: somebody else moved the session away meanwhile; `Broken`:
      the disk refused a write of the run; `Waiting`: the run it joined goes on; `NoRun`: nothing was started
      nor joined. */
  datatype Outcome = BackToReady | NotReady | Broken | Waiting | NoRun

  /** What another component does while the run is suspended. */
  datatype Interference =
    | TheirWrite(write: Write)
    | TheirCall(sessionId: string)
    | TheirToken(sessionId: string)
    | TheirResumption(sessionId: string)

  /** It writes this session. */
  predicate Touches(what: Interference, sid: string) {
    what.TheirWrite? && what.write.SaveSession? && what.write.session.sessionId == sid
  }

  predicate NobodyTouches(others: seq<Interference>, sid: string) {
    forall what | what in others :: !Touches(what, sid)
  }

  predicate Undone(s: SessionState) {
    s.Interrupting? || s.Paused?
  }

  function Announced(t: Tables, sid: string): Tables
    requires sid in t.sessions
  {
    if t.sessions[sid].status.SessionRunning?
      then t.(sessions := t.sessions[sid := t.sessions[sid].(status := Interrupting)]) else t
  }

  lemma AnnouncedSessions(t: Tables, sid: string)
    requires sid in t.sessions
    ensures Announced(t, sid).sessions.Keys == t.sessions.Keys
    ensures forall s | s in t.sessions && s != sid :: Announced(t, sid).sessions[s] == t.sessions[s]
    ensures !Idle(t.sessions[sid].status) ==> Undone(Announced(t, sid).sessions[sid].status)
  {
  }

  /** The token of every run in flight is cancelled, and no token is shared. */
  ghost predicate Signalled(tokens: map<string, CancellationToken>, inFlight: map<string, Run>)
    reads tokens.Values
  {
    && (forall s | s in inFlight :: s in tokens && tokens[s].IsCancelled())
    && (forall s, u | s in tokens && u in tokens && s != u :: tokens[s] != tokens[u])
  }

  lemma OneMoreSignalled(tokens: map<string, CancellationToken>, inFlight: map<string, Run>, sid: string, run: Run)
    requires Signalled(tokens, inFlight) && sid in tokens && tokens[sid].IsCancelled()
    ensures Signalled(tokens, inFlight[sid := run])
  {
  }

  lemma OneLessSignalled(tokens: map<string, CancellationToken>, inFlight: map<string, Run>, sid: string)
    requires Signalled(tokens, inFlight)
    ensures Signalled(tokens, inFlight - {sid})
  {
  }

  lemma FreshlySignalled(tokens: map<string, CancellationToken>, inFlight: map<string, Run>, sid: string,
                         token: CancellationToken)
    requires Signalled(tokens, inFlight) && token !in tokens.Values
    ensures Signalled(tokens[sid := token], inFlight - {sid})
  {
    assert forall s | s in tokens :: tokens[s] in tokens.Values;
  }

  class InterruptionHandler {
    const life: LifecycleManager
    var tokens: map<string, CancellationToken>
    var inFlight: map<string, Run>
    var started: nat
    // the outcome of every run that is over, for whoever joined it
    var results: map<nat, Outcome>

    constructor (life: LifecycleManager)
      requires WellKeyed(life.store.tables) && life.Journaled()
      ensures this.life == life && Valid() && inFlight == map[]
    {
      this.life := life;
      tokens, inFlight := map[], map[];
      started, results := 0, map[];
    }

    /** Every run in flight works on a known session whose token is cancelled, and has no result yet; no
        token and no number is shared. */
    ghost predicate Valid()
      reads this, tokens.Values, life`moves, life.store`tables
    {
      && WellKeyed(life.store.tables) && life.Journaled()
      && inFlight.Keys <= life.store.tables.sessions.Keys
      && Signalled(tokens, inFlight)
      && Numbered(inFlight, started, results)
    }

    lemma Facts()
      requires Valid()
      ensures WellKeyed(life.store.tables) && life.Journaled() && inFlight.Keys <= life.store.tables.sessions.Keys
      ensures Signalled(tokens, inFlight) && Numbered(inFlight, started, results)
      ensures forall s | s in inFlight :: s in life.store.tables.sessions && s in tokens && tokens[s].IsCancelled()
    {
    }

    lemma Together()
      requires WellKeyed(life.store.tables) && life.Journaled() && inFlight.Keys <= life.store.tables.sessions.Keys
      requires Signalled(tokens, inFlight) && Numbered(inFlight, started, results)
      ensures Valid()
    {
    }

    method TokenFor(sid: string) returns (token: CancellationToken)
      requires Signalled(tokens, inFlight)
      modifies this`tokens
      ensures Signalled(tokens, inFlight) && sid in tokens && tokens[sid] == token
      ensures if sid in old(tokens) then tokens == old(tokens)
              else tokens == old(tokens)[sid := token] && fresh(token) && !token.IsCancelled()
    {
      if sid in tokens {
        token := tokens[sid];
      } else {
        token := new CancellationToken();
        tokens := tokens[sid := token];
      }
    }

    /** Up to the first suspension. A caller that finds a run in flight joins it; an idle or unknown session
        costs nothing; otherwise the session is `INTERRUPTING` (a paused one stays paused) and its token,
        and no other, is cancelled.  If the disk refuses to record that, nothing happens at all. */
    method Begin(sid: string, why: string) returns (answer: Answer)
      requires Valid()
      modifies this, tokens.Values, life`moves, life.store`tables, life.store`attempts
      ensures old(life.store.attempts) <= life.store.attempts
      ensures Valid() && old(life.moves) <= life.moves && results == old(results)
      ensures answer.NotRecorded? <==> life.store.Failures() != old(life.store.Failures())
      ensures !answer.NotRecorded? ==> answer == AnswerOf(old(inFlight), old(life.store.tables), sid)
      ensures answer.NotRecorded? ==> AnswerOf(old(inFlight), old(life.store.tables), sid).Started?
      ensures !answer.Started? ==>
                && life.store.tables == old(life.store.tables) && life.moves == old(life.moves)
                && started == old(started)
                && inFlight == old(inFlight) && tokens == old(tokens)
                && forall s | s in tokens :: tokens[s].reason == old(tokens[s].reason)
      ensures answer.Started? ==>
                && inFlight == old(inFlight)[sid := Run(old(started), Draining)] && started == old(started) + 1
                && sid in tokens && tokens == old(tokens)[sid := tokens[sid]] && tokens[sid].IsCancelled()
                && (if sid in old(tokens) then tokens == old(tokens) else fresh(tokens[sid]))
                && (forall s | s in old(tokens) && s != sid :: tokens[s].reason == old(tokens[s].reason))
                && life.store.tables == Announced(old(life.store.tables), sid)
    {
      hide WellKeyed, Leads, StatusOf, Announced, Refusals, Numbered;
      if sid in inFlight {
        return Joined(inFlight[sid].number);
      }
      if sid !in life.store.tables.sessions {
        return UnknownSession;
      }
      var session := life.store.tables.sessions[sid];
      if Idle(session.status) {
        return NothingToInterrupt;
      }
      var ok := Start(sid, why);
      answer := if ok then Started else NotRecorded;
    }

    method Start(sid: string, why: string) returns (ok: bool)
      requires Valid() && sid in life.store.tables.sessions && sid !in inFlight
      modifies this, tokens.Values, life`moves, life.store`tables, life.store`attempts
      ensures Valid() && old(life.moves) <= life.moves && results == old(results)
      ensures ok <==> life.store.Failures() == old(life.store.Failures())
      ensures old(life.store.attempts) <= life.store.attempts
      ensures !ok ==>
                && life.store.tables == old(life.store.tables) && life.moves == old(life.moves)
                && started == old(started)
                && inFlight == old(inFlight) && tokens == old(tokens)
                && forall s | s in tokens :: tokens[s].reason == old(tokens[s].reason)
      ensures ok ==>
                && inFlight == old(inFlight)[sid := Run(old(started), Draining)] && started == old(started) + 1
                && sid in tokens && tokens == old(tokens)[sid := tokens[sid]] && tokens[sid].IsCancelled()
                && (if sid in old(tokens) then tokens == old(tokens) else fresh(tokens[sid]))
                && (forall s | s in old(tokens) && s != sid :: tokens[s].reason == old(tokens[s].reason))
                && life.store.tables == Announced(old(life.store.tables), sid)
    {
      hide Valid, WellKeyed, Leads, StatusOf, Announced, Refusals, Numbered, Signalled;
      Facts();
      AnnouncedSessions(life.store.tables, sid);
      ok := Announce(sid);
      Together();
      if ok {
        Enlist(sid, why);
      }
    }

    /** The token is cancelled and the run is in flight. */
    method Enlist(sid: string, why: string)
      requires Valid() && sid in life.store.tables.sessions && sid !in inFlight
      modifies this`tokens, this`inFlight, this`started, tokens.Values
      ensures Valid()
      ensures inFlight == old(inFlight)[sid := Run(old(started), Draining)] && started == old(started) + 1
      ensures sid in tokens && tokens == old(tokens)[sid := tokens[sid]] && tokens[sid].IsCancelled()
      ensures if sid in old(tokens) then tokens == old(tokens) else fresh(tokens[sid])
      ensures forall s | s in old(tokens) && s != sid :: tokens[s].reason == old(tokens[s].reason)
    {
      hide Valid, WellKeyed, Leads, StatusOf, Numbered, Signalled;
      Facts();
      OneMoreRun(inFlight, started, results, sid);
      Signal(sid, why);
      OneMoreSignalled(tokens, inFlight, sid, Run(started, Draining));
      inFlight := inFlight[sid := Run(started, Draining)];
      started := started + 1;
      Together();
    }

    method Announce(sid: string) returns (ok: bool)
      requires WellKeyed(life.store.tables) && life.Journaled() && sid in life.store.tables.sessions
      modifies life`moves, life.store`tables, life.store`attempts
      ensures WellKeyed(life.store.tables) && life.Journaled() && old(life.moves) <= life.moves
      ensures ok <==> life.store.Failures() == old(life.store.Failures())
      ensures old(life.store.attempts) <= life.store.attempts
      ensures life.store.tables == if ok then Announced(old(life.store.tables), sid) else old(life.store.tables)
      ensures !ok ==> life.moves == old(life.moves)
    {
      hide WellKeyed, Leads, StatusOf, Refusals;
      ok := true;
      if life.store.tables.sessions[sid].status.SessionRunning? {
        ok := life.TransitionSession(sid, Interrupting);
      }
    }

    /** Cancels the token of this session, made on demand, and no other. */
    method Signal(sid: string, why: string)
      requires Signalled(tokens, inFlight)
      modifies this`tokens, tokens.Values
      ensures Signalled(tokens, inFlight)
      ensures sid in tokens && tokens == old(tokens)[sid := tokens[sid]] && tokens[sid].IsCancelled()
      ensures if sid in old(tokens) then tokens == old(tokens) else fresh(tokens[sid])
      ensures forall s | s in old(tokens) && s != sid :: tokens[s].reason == old(tokens[s].reason)
    {
      var token := TokenFor(sid);
      token.Cancel(why);
    }

    // ---- the sweep -------------------------------------------------------------------------------------

    method SweepTasks(plan: (string, string)) returns (ok: bool)
      requires WellKeyed(life.store.tables) && life.Journaled()
      modifies life`moves, life.store`tables, life.store`attempts
      ensures WellKeyed(life.store.tables) && life.Journaled() && old(life.moves) <= life.moves
      ensures ok <==> life.store.Failures() == old(life.store.Failures())
      ensures old(life.store.attempts) <= life.store.attempts
      ensures life.store.tables.sessions == old(life.store.tables).sessions
      ensures var t := old(life.store.tables);
              ok ==> life.store.tables == t.(tasks := TasksSwept(t.tasks, OpenTasks(t.tasks, plan)))
    {
      hide WellKeyed, Leads, StatusOf, Refusals;
      ghost var t := life.store.tables;
      var todo := OpenTasks(life.store.tables.tasks, plan);
      ghost var done: set<(string, string)> := {};
      assert TasksSwept(t.tasks, {}) == t.tasks;
      while todo != {}
        invariant WellKeyed(life.store.tables) && life.Journaled() && old(life.moves) <= life.moves
        invariant life.store.Failures() == old(life.store.Failures()) && old(life.store.attempts) <= life.store.attempts
        invariant todo + done == OpenTasks(t.tasks, plan) && todo !! done
        invariant life.store.tables == t.(tasks := TasksSwept(t.tasks, done))
        decreases todo
      {
        var k :| k in todo;
        ok := life.InterruptTask(k, UserInterrupt);
        if !ok { return; }
        assert TasksSwept(t.tasks, done)[k := InterruptedTask(t.tasks[k], UserInterrupt)]
               == TasksSwept(t.tasks, done + {k});
        todo, done := todo - {k}, done + {k};
      }
      assert done == OpenTasks(t.tasks, plan);
      ok := true;
    }

    method SweepPlan(c: ConversationRecord) returns (ok: bool)
      requires WellKeyed(life.store.tables) && life.Journaled()
      modifies life`moves, life.store`tables, life.store`attempts
      ensures WellKeyed(life.store.tables) && life.Journaled() && old(life.moves) <= life.moves
      ensures ok <==> life.store.Failures() == old(life.store.Failures())
      ensures old(life.store.attempts) <= life.store.attempts
      ensures life.store.tables.sessions == old(life.store.tables).sessions
      ensures ok ==> life.store.tables == PlanSwept(old(life.store.tables), c)
    {
      hide WellKeyed, Leads, StatusOf, Tally, TasksSwept, Refusals;
      ok := true;
      var plan := CurrentPlan(life.store.tables.plans, c);
      if plan.Some? && OpenPlan(life.store.tables.plans[plan.value].status) {
        ok := SweepTasks(plan.value);
        if !ok { return; }
        ok := life.InterruptPlan(plan.value, StoppedByUser);
      }
    }

    method SweepCycle(c: ConversationRecord) returns (ok: bool)
      requires WellKeyed(life.store.tables) && life.Journaled()
      modifies life`moves, life.store`tables, life.store`attempts
      ensures WellKeyed(life.store.tables) && life.Journaled() && old(life.moves) <= life.moves
      ensures ok <==> life.store.Failures() == old(life.store.Failures())
      ensures old(life.store.attempts) <= life.store.attempts
      ensures life.store.tables.sessions == old(life.store.tables).sessions
      ensures ok ==> life.store.tables == CycleSwept(old(life.store.tables), c)
    {
      hide WellKeyed, Leads, StatusOf, Refusals;
      ok := true;
      var cycle := CurrentCycle(life.store.tables.cycles, c);
      if cycle.Some? && life.store.tables.cycles[cycle.value].status.CycleRunning? {
        ok := life.InterruptCycle(cycle.value);
      }
    }

    /** The plan, the cycle and the conversation itself, each only if it is still open. */
    method SweepAll(c: ConversationRecord) returns (ok: bool)
      requires WellKeyed(life.store.tables) && life.Journaled()
      modifies life`moves, life.store`tables, life.store`attempts
      ensures WellKeyed(life.store.tables) && life.Journaled() && old(life.moves) <= life.moves
      ensures ok <==> life.store.Failures() == old(life.store.Failures())
      ensures old(life.store.attempts) <= life.store.attempts
      ensures life.store.tables.sessions == old(life.store.tables).sessions
      ensures ok ==> life.store.tables == AllSwept(old(life.store.tables), c)
    {
      hide WellKeyed, Leads, StatusOf, PlanSwept, CycleSwept, ConversationSwept, Refusals;
      ok := SweepPlan(c);
      if !ok { return; }
      ok := SweepCycle(c);
      if !ok { return; }
      ok := SweepConversation(c.conversationId);
    }

    method SweepConversation(id: string) returns (ok: bool)
      requires WellKeyed(life.store.tables) && life.Journaled()
      modifies life`moves, life.store`tables, life.store`attempts
      ensures WellKeyed(life.store.tables) && life.Journaled() && old(life.moves) <= life.moves
      ensures ok <==> life.store.Failures() == old(life.store.Failures())
      ensures old(life.store.attempts) <= life.store.attempts
      ensures life.store.tables.sessions == old(life.store.tables).sessions
      ensures ok ==> life.store.tables == ConversationSwept(old(life.store.tables), id)
    {
      hide WellKeyed, Leads, StatusOf, Refusals;
      ok := true;
      if id in life.store.tables.conversations && ConversationActive(life.store.tables.conversations[id].status) {
        KeyedConversation(life.store.tables, id);
        ok := life.TransitionConversation(id, life.store.tables.conversations[id].(status := ConversationInterrupted));
      }
    }

    method SweepSession(sid: string) returns (ok: bool)
      requires WellKeyed(life.store.tables) && life.Journaled() && sid in life.store.tables.sessions
      modifies life`moves, life.store`tables, life.store`attempts
      ensures WellKeyed(life.store.tables) && life.Journaled() && old(life.moves) <= life.moves
      ensures ok <==> life.store.Failures() == old(life.store.Failures())
      ensures old(life.store.attempts) <= life.store.attempts
      ensures life.store.tables.sessions == old(life.store.tables).sessions
      ensures ok ==> life.store.tables == Swept(old(life.store.tables), sid)
    {
      hide WellKeyed, Leads, StatusOf, AllSwept, Refusals;
      ok := true;
      var found := CurrentConversation(life.store.tables, sid);
      if found.Some? {
        ok := SweepAll(found.value);
        if !ok { return; }
        var parent := RotatingParent(life.store.tables.conversations, found.value);
        if parent.Some? {
          ok := SweepAll(parent.value);
        }
      }
    }

    /** From the first suspension to the second: the sweep of what the store holds now.  A refused write
        breaks the run off. */
    method Sweep(sid: string) returns (ok: bool)
      requires Valid() && sid in inFlight && inFlight[sid].await.Draining?
      modifies this`inFlight, this`results, life`moves, life.store`tables, life.store`attempts
      ensures old(life.store.attempts) <= life.store.attempts
      ensures Valid() && old(life.moves) <= life.moves && sid in old(life.store.tables).sessions
      ensures ok ==>
                && life.store.Failures() == old(life.store.Failures()) && results == old(results)
                && life.store.tables == Swept(old(life.store.tables), sid)
                && Ended(old(life.store.tables), AllInHand(old(life.store.tables), sid), life.store.tables)
                && life.store.tables.sessions == old(life.store.tables).sessions
                && inFlight == old(inFlight)[sid := Run(old(inFlight)[sid].number, Closing)]
      ensures !ok ==>
                && life.store.Failures() > old(life.store.Failures()) && inFlight == old(inFlight) - {sid}
                && results == old(results)[old(inFlight)[sid].number := Broken]
                && BrokenOff(old(life.store.tables).sessions, life.store.tables.sessions, sid)
    {
      hide WellKeyed, Leads, StatusOf, Swept, Refusals, Numbered, Ended, AllInHand;
      ghost var t := life.store.tables;
      ok := SweepSession(sid);
      if ok {
        SweepEndsWhatIsInHand(t, sid);
        NextAwait(inFlight, started, results, sid);
        inFlight := inFlight[sid := Run(inFlight[sid].number, Closing)];
      } else {
        ghost var refused := life.store.attempts;
        BreakOff(sid);
        RefusalsAddUp(life.store.faults, old(life.store.attempts), refused);
        RefusalsAddUp(life.store.faults, refused, life.store.attempts);
      }
    }

    /** After a refused write the session is failed, if its state allows it and the disk lets it: nothing runs
        in it before a recovery. */
    method BreakOff(sid: string)
      requires Valid() && sid in inFlight
      modifies this`inFlight, this`results, life`moves, life.store`tables, life.store`attempts
      ensures Valid() && old(life.moves) <= life.moves
      ensures old(life.store.attempts) <= life.store.attempts
      ensures inFlight == old(inFlight) - {sid} && results == old(results)[old(inFlight)[sid].number := Broken]
      ensures sid in old(life.store.tables).sessions
              && BrokenOff(old(life.store.tables).sessions, life.store.tables.sessions, sid)
      ensures life.store.Failures() == old(life.store.Failures())
              && SessionStep(old(life.store.tables).sessions[sid].status, SessionFailed) ==>
                life.store.tables.sessions[sid].status.SessionFailed?
    {
      hide Valid, WellKeyed, Leads, StatusOf, Numbered, SessionStep, Refusals, Signalled;
      Facts();
      if SessionStep(life.store.tables.sessions[sid].status, SessionFailed) {
        var _ := life.TransitionSession(sid, SessionFailed);
      }
      Together();
      End(sid, Broken);
    }

    // ---- the end ---------------------------------------------------------------------------------------

    /** After the second suspension: the session is `READY` under a fresh token, unless its state no longer
        allows it or the disk refuses; the run is over either way. */
    method Finish(sid: string) returns (outcome: Outcome)
      requires Valid() && sid in inFlight && inFlight[sid].await.Closing?
      modifies this, life`moves, life.store`tables, life.store`attempts
      ensures old(life.store.attempts) <= life.store.attempts
      ensures Valid() && old(life.moves) <= life.moves && started == old(started)
      ensures inFlight == old(inFlight) - {sid} && results == old(results)[old(inFlight)[sid].number := outcome]
      ensures sid in old(life.store.tables).sessions
      ensures var now := old(life.store.tables).sessions[sid];
              && (outcome.NotReady? <==> !Undone(now.status))
              && (outcome.BackToReady? <==> Undone(now.status) && life.store.Failures() == old(life.store.Failures()))
              && (outcome.Broken? || outcome.BackToReady? || outcome.NotReady?)
              && (outcome.BackToReady? ==>
                    && sid in tokens && fresh(tokens[sid]) && !tokens[sid].IsCancelled()
                    && tokens == old(tokens)[sid := tokens[sid]]
                    && life.store.tables == old(life.store.tables).(sessions :=
                         old(life.store.tables).sessions[sid := now.(status := Ready)]))
              && (!outcome.BackToReady? ==> tokens == old(tokens))
              && (outcome.NotReady? ==> life.store.tables == old(life.store.tables) && life.moves == old(life.moves))
              && (outcome.Broken? ==>
                    && life.store.Failures() > old(life.store.Failures())
                    && BrokenOff(old(life.store.tables).sessions, life.store.tables.sessions, sid))
    {
      hide Valid, WellKeyed, Leads, StatusOf, Numbered, Refusals, Signalled, BrokenOff;
      Facts();
      if !SessionStep(life.store.tables.sessions[sid].status, Ready) {
        End(sid, NotReady);
        return NotReady;
      }
      var ok := life.TransitionSession(sid, Ready);
      Together();
      if ok {
        Renew(sid);
        outcome := BackToReady;
      } else {
        ghost var refused := life.store.attempts;
        BreakOff(sid);
        RefusalsAddUp(life.store.faults, old(life.store.attempts), refused);
        RefusalsAddUp(life.store.faults, refused, life.store.attempts);
        outcome := Broken;
      }
    }

    /** The run is over, and whoever joined it learns how. */
    method End(sid: string, outcome: Outcome)
      requires Valid() && sid in inFlight && (outcome.BackToReady? || outcome.NotReady? || outcome.Broken?)
      modifies this`inFlight, this`results
      ensures Valid()
      ensures inFlight == old(inFlight) - {sid} && results == old(results)[old(inFlight)[sid].number := outcome]
    {
      hide Valid, WellKeyed, Leads, StatusOf, Numbered, Signalled;
      Facts();
      RunIsOver(inFlight, started, results, sid, outcome);
      OneLessSignalled(tokens, inFlight, sid);
      results, inFlight := results[inFlight[sid].number := outcome], inFlight - {sid};
      Together();
    }

    /** A fresh token for what comes next in this session. */
    method Renew(sid: string)
      requires Valid() && sid in inFlight
      modifies this`tokens, this`inFlight, this`results
      ensures Valid()
      ensures inFlight == old(inFlight) - {sid} && results == old(results)[old(inFlight)[sid].number := BackToReady]
      ensures sid in tokens && fresh(tokens[sid]) && !tokens[sid].IsCancelled()
              && tokens == old(tokens)[sid := tokens[sid]]
    {
      hide Valid, WellKeyed, Leads, StatusOf, Numbered, Signalled;
      End(sid, BackToReady);
      Facts();
      var token := new CancellationToken();
      FreshlySignalled(tokens, inFlight, sid, token);
      tokens := tokens[sid := token];
      assert inFlight - {sid} == inFlight;
      Together();
    }

    // ---- suspension --------------------------------------------------------------------------------------

    /** Any mix of writes of the other components, calls for this or another session, and other runs going
        on: this run stays where it is, its token stays the same and cancelled, and the store only moves
        along its tables; the session of this run moves only if one of the others writes it. */
    method Suspended(sid: string, others: seq<Interference>)
      requires Valid() && sid in inFlight
      modifies this, tokens.Values, life`moves, life.store`tables, life.store`attempts
      ensures old(life.store.attempts) <= life.store.attempts
      ensures Valid() && old(life.moves) <= life.moves
      ensures sid in inFlight && inFlight[sid] == old(inFlight[sid]) && old(started) <= started
      ensures sid in tokens && sid in old(tokens) && tokens[sid] == old(tokens)[sid] && tokens[sid].IsCancelled()
      ensures sid in life.store.tables.sessions && sid in old(life.store.tables).sessions
      ensures forall token | token in tokens.Values :: token in old(tokens.Values) || fresh(token)
      ensures forall r | r in old(results) :: r in results && results[r] == old(results)[r]
      ensures NobodyTouches(others, sid) ==> life.store.tables.sessions[sid] == old(life.store.tables).sessions[sid]
      ensures life.store.faults == {} ==> life.store.Failures() == old(life.store.Failures())
    {
      hide WellKeyed, Leads, StatusOf, Permitted, MovesOf, Numbered, Refusals;
      for i := 0 to |others|
        invariant Valid() && old(life.store.attempts) <= life.store.attempts && old(life.moves) <= life.moves
        invariant sid in inFlight && inFlight[sid] == old(inFlight[sid]) && old(started) <= started
        invariant tokens[sid] == old(tokens[sid])
        invariant forall token | token in tokens.Values :: token in old(tokens.Values) || fresh(token)
        invariant forall r | r in old(results) :: r in results && results[r] == old(results)[r]
        invariant NobodyTouches(others, sid) ==> life.store.tables.sessions[sid] == old(life.store.tables.sessions[sid])
      {
        Other(Some(sid), others[i]);
      }
      if life.store.faults == {} { NothingRefused(life.store.faults); }
    }

    /** This run is where it was, and its token the same. */
    predicate StillMine(sid: string, before: map<string, Run>, tokensThen: map<string, CancellationToken>)
      reads this
    {
      && sid in before && sid in inFlight && inFlight[sid] == before[sid]
      && sid in tokensThen && sid in tokens && tokens[sid] == tokensThen[sid]
    }

    /** One thing another component does; it may resume any run but `mine`. */
    method Other(mine: Option<string>, what: Interference)
      requires Valid() && (mine.Some? ==> mine.value in inFlight)
      modifies this, tokens.Values, life`moves, life.store`tables, life.store`attempts
      ensures old(life.store.attempts) <= life.store.attempts
      ensures Valid() && old(life.moves) <= life.moves && old(started) <= started
      ensures forall token | token in tokens.Values :: token in old(tokens.Values) || fresh(token)
      ensures forall r | r in old(results) :: r in results && results[r] == old(results)[r]
      ensures mine.Some? ==> StillMine(mine.value, old(inFlight), old(tokens))
      ensures mine.Some? && !Touches(what, mine.value) && mine.value in old(life.store.tables).sessions ==>
                mine.value in life.store.tables.sessions
                  && life.store.tables.sessions[mine.value] == old(life.store.tables).sessions[mine.value]
    {
      hide Valid, WellKeyed, Leads, StatusOf, Permitted, MovesOf, Numbered, Signalled, Refusals;
      Facts();
      match what {
        case TheirWrite(w) => Theirs(mine, w);
        case TheirCall(other) => Call(mine, other);
        case TheirToken(other) =>
          var _ := TokenFor(other);
          Together();
        case TheirResumption(other) =>
          if mine != Some(other) && other in inFlight {
            Resume(mine, other);
          }
      }
    }

    method Theirs(mine: Option<string>, w: Write)
      requires Valid() && (mine.Some? ==> mine.value in inFlight)
      modifies life`moves, life.store`tables
      ensures Valid() && old(life.moves) <= life.moves
      ensures mine.Some? && !Touches(TheirWrite(w), mine.value) && mine.value in old(life.store.tables).sessions ==>
                mine.value in life.store.tables.sessions
                  && life.store.tables.sessions[mine.value] == old(life.store.tables).sessions[mine.value]
    {
      hide Valid, WellKeyed, Leads, StatusOf, Permitted, MovesOf, Numbered, Signalled;
      Facts();
      if Permitted(life.store.tables, w) {
        SessionsRemain(life.store.tables, w);
        life.Save(w);
        Together();
      }
    }

    method Call(mine: Option<string>, other: string)
      requires Valid() && (mine.Some? ==> mine.value in inFlight)
      modifies this, tokens.Values, life`moves, life.store`tables, life.store`attempts
      ensures old(life.store.attempts) <= life.store.attempts
      ensures Valid() && old(life.moves) <= life.moves && old(started) <= started
      ensures forall token | token in tokens.Values :: token in old(tokens.Values) || fresh(token)
      ensures forall r | r in old(results) :: r in results && results[r] == old(results)[r]
      ensures mine.Some? ==> StillMine(mine.value, old(inFlight), old(tokens))
      ensures mine.Some? && mine.value in old(life.store.tables).sessions ==>
                mine.value in life.store.tables.sessions
                  && life.store.tables.sessions[mine.value] == old(life.store.tables).sessions[mine.value]
    {
      hide Valid, WellKeyed, Leads, StatusOf, Announced, Numbered, Signalled, Refusals, Idle;
      Facts();
      if other in life.store.tables.sessions { AnnouncedSessions(life.store.tables, other); }
      var _ := Begin(other, "user_interrupt");
    }

    method Resume(mine: Option<string>, other: string)
      requires Valid() && (mine.Some? ==> mine.value in inFlight) && mine != Some(other) && other in inFlight
      modifies this, tokens.Values, life`moves, life.store`tables, life.store`attempts
      ensures old(life.store.attempts) <= life.store.attempts
      ensures Valid() && old(life.moves) <= life.moves && old(started) <= started
      ensures forall token | token in tokens.Values :: token in old(tokens.Values) || fresh(token)
      ensures forall r | r in old(results) :: r in results && results[r] == old(results)[r]
      ensures mine.Some? ==> StillMine(mine.value, old(inFlight), old(tokens))
      ensures mine.Some? && mine.value in old(life.store.tables).sessions ==>
                mine.value in life.store.tables.sessions
                  && life.store.tables.sessions[mine.value] == old(life.store.tables).sessions[mine.value]
    {
      hide Valid, WellKeyed, Leads, StatusOf, Numbered, Signalled, Refusals, Swept, Undone, Ended, AllInHand;
      Facts();
      ResultIsNew(inFlight, started, results, other);
      if inFlight[other].await.Draining? {
        var _ := Sweep(other);
      } else {
        var _ := Finish(other);
      }
    }

    /** A caller that joined a run: while it waits anything may happen, the end of that run included. */
    method WaitFor(number: nat, others: seq<Interference>) returns (outcome: Outcome)
      requires Valid()
      modifies this, tokens.Values, life`moves, life.store`tables, life.store`attempts
      ensures old(life.store.attempts) <= life.store.attempts
      ensures Valid()
      ensures outcome == if number in results then results[number] else Waiting
      ensures forall r | r in old(results) :: r in results && results[r] == old(results)[r]
    {
      hide WellKeyed, Leads, StatusOf, Numbered, Refusals;
      for i := 0 to |others|
        invariant Valid() && old(life.store.attempts) <= life.store.attempts
        invariant forall token | token in tokens.Values :: token in old(tokens.Values) || fresh(token)
        invariant forall r | r in old(results) :: r in results && results[r] == old(results)[r]
      {
        Other(None, others[i]);
      }
      outcome := if number in results then results[number] else Waiting;
    }

    /** From the first suspension to the end.  `swept` is the store just before the sweep. */
    method Carry(sid: string, first: seq<Interference>, second: seq<Interference>)
      returns (outcome: Outcome, ghost swept: Tables)
      requires Valid() && sid in inFlight && inFlight[sid].await.Draining?
      requires sid in life.store.tables.sessions && Undone(life.store.tables.sessions[sid].status)
      modifies this, tokens.Values, life`moves, life.store`tables, life.store`attempts
      ensures Valid() && old(life.store.attempts) <= life.store.attempts
      ensures sid !in inFlight && old(inFlight)[sid].number in results && results[old(inFlight)[sid].number] == outcome
      ensures sid in tokens && sid in old(tokens) && old(tokens)[sid].IsCancelled()
      ensures match outcome
              case BackToReady =>
                && sid in life.store.tables.sessions && life.store.tables.sessions[sid].status.Ready?
                && fresh(tokens[sid]) && !tokens[sid].IsCancelled()
              case NotReady =>
                && sid in life.store.tables.sessions && !Undone(life.store.tables.sessions[sid].status)
                && !(NobodyTouches(first, sid) && NobodyTouches(second, sid)) && tokens[sid] == old(tokens)[sid]
              case Broken => life.store.Failures() > old(life.store.Failures()) && tokens[sid] == old(tokens)[sid]
              case _ => false
      ensures !outcome.Broken? ==>
                && WellKeyed(swept) && sid in swept.sessions
                && Reaches(StatusOf(old(life.store.tables)), StatusOf(swept))
                && Reaches(StatusOf(Swept(swept, sid)), StatusOf(life.store.tables))
    {
      hide Valid, WellKeyed, Leads, StatusOf, Swept, Reaches, Numbered, Refusals, Signalled, NobodyTouches, Undone,
           Ended, AllInHand;
      Facts();
      ghost var s, moves0, t0 := StatusOf(life.before), life.moves, life.store.tables;
      Suspended(sid, first);
      Facts();
      swept := life.store.tables;
      JournalGrew(s, moves0, StatusOf(t0), life.moves, StatusOf(swept));
      ghost var before := life.store.attempts;
      RefusalsAddUp(life.store.faults, old(life.store.attempts), before);
      var ok := Sweep(sid);
      if !ok {
        outcome := Broken;
        return;
      }
      Facts();
      ghost var moves1, t1 := life.moves, life.store.tables;
      Suspended(sid, second);
      before := life.store.attempts;
      RefusalsAddUp(life.store.faults, old(life.store.attempts), before);
      outcome := Finish(sid);
      Facts();
      JournalGrew(s, moves1, StatusOf(t1), life.moves, StatusOf(life.store.tables));
    }

    /** The whole procedure, with what the others do at its two suspensions.  `swept` is the store just before
        the sweep, `signalled` the token of the run. */
    method Interrupt(sid: string, why: string, first: seq<Interference>, second: seq<Interference>)
      returns (answer: Answer, outcome: Outcome, ghost swept: Tables, ghost signalled: CancellationToken?)
      requires Valid()
      modifies this, tokens.Values, life`moves, life.store`tables, life.store`attempts
      ensures Valid()
      ensures answer.Joined? <==> sid in old(inFlight)
      ensures answer.Joined? ==> answer.number == old(inFlight)[sid].number
      ensures answer.UnknownSession? <==> sid !in old(inFlight) && sid !in old(life.store.tables).sessions
      ensures answer.NothingToInterrupt? <==>
                && sid !in old(inFlight) && sid in old(life.store.tables).sessions
                && old(life.store.tables).sessions[sid].status in {Ready, SessionCompleted, SessionFailed}
      ensures answer.NotRecorded? ==> life.store.Failures() > old(life.store.Failures())
      ensures answer.UnknownSession? || answer.NothingToInterrupt? || answer.NotRecorded? ==>
                && outcome.NoRun? && life.store.tables == old(life.store.tables) && life.moves == old(life.moves)
                && tokens == old(tokens)
      ensures answer.Joined? ==> outcome == if answer.number in results then results[answer.number] else Waiting
      ensures answer.Started? ==>
                && old(started) in results && results[old(started)] == outcome && sid !in inFlight
                && signalled != null && signalled.IsCancelled()
                && (sid in old(tokens) ==> signalled == old(tokens)[sid])
                && match outcome
                   case BackToReady =>
                     && sid in life.store.tables.sessions && life.store.tables.sessions[sid].status.Ready?
                     && sid in tokens && fresh(tokens[sid]) && !tokens[sid].IsCancelled()
                   case NotReady =>
                     && sid in life.store.tables.sessions && !Undone(life.store.tables.sessions[sid].status)
                     && !(NobodyTouches(first, sid) && NobodyTouches(second, sid))
                     && sid in tokens && signalled == tokens[sid]
                   case Broken => life.store.Failures() > old(life.store.Failures()) && sid in tokens
                     && signalled == tokens[sid]
                   case _ => false
      ensures answer.Started? && !outcome.Broken? ==>
                && WellKeyed(swept) && sid in swept.sessions
                && Reaches(StatusOf(old(life.store.tables)), StatusOf(swept))
                && Reaches(StatusOf(Swept(swept, sid)), StatusOf(life.store.tables))
                && StaysEnded(swept, AllInHand(swept, sid), StatusOf(life.store.tables))
    {
      hide Valid, WellKeyed, Leads, StatusOf, Swept, Reaches, Numbered, Refusals, Signalled, Announced, NobodyTouches,
           Undone, AllInHand, StaysEnded;
      swept, signalled := life.store.tables, null;
      Facts();
      if sid in life.store.tables.sessions { AnnouncedSessions(life.store.tables, sid); }
      ghost var s, moves0, t0 := StatusOf(life.before), life.moves, life.store.tables;
      answer := Begin(sid, why);
      RefusalsAddUp(life.store.faults, old(life.store.attempts), life.store.attempts);
      if answer.Joined? {
        outcome := WaitFor(answer.number, first);
      } else if !answer.Started? {
        outcome := NoRun;
      } else {
        signalled := tokens[sid];
        Facts();
        JournalGrew(s, moves0, StatusOf(t0), life.moves, StatusOf(life.store.tables));
        ghost var t1 := StatusOf(life.store.tables);
        ghost var before := life.store.attempts;
        outcome, swept := Carry(sid, first, second);
        RefusalsAddUp(life.store.faults, old(life.store.attempts), before);
        if !outcome.Broken? {
          ReachesOn(StatusOf(t0), t1, StatusOf(swept));
          SweptForGood(swept, sid, StatusOf(life.store.tables));
        }
      }
    }
  }

  /** Runs are numbered in the order they start, each on one session, and have no result while they last. */
  predicate Numbered(inFlight: map<string, Run>, started: nat, results: map<nat, Outcome>) {
    && (forall s | s in inFlight :: inFlight[s].number < started && inFlight[s].number !in results)
    && (forall s, u | s in inFlight && u in inFlight && s != u :: inFlight[s].number != inFlight[u].number)
    && (forall r | r in results ::
         r < started && (results[r].BackToReady? || results[r].NotReady? || results[r].Broken?))
  }

  lemma OneMoreRun(inFlight: map<string, Run>, started: nat, results: map<nat, Outcome>, sid: string)
    requires Numbered(inFlight, started, results)
    ensures Numbered(inFlight[sid := Run(started, Draining)], started + 1, results)
  {
  }

  lemma NextAwait(inFlight: map<string, Run>, started: nat, results: map<nat, Outcome>, sid: string)
    requires Numbered(inFlight, started, results) && sid in inFlight
    ensures Numbered(inFlight[sid := Run(inFlight[sid].number, Closing)], started, results)
  {
  }

  lemma RunIsOver(inFlight: map<string, Run>, started: nat, results: map<nat, Outcome>, sid: string, outcome: Outcome)
    requires Numbered(inFlight, started, results) && sid in inFlight
    requires outcome.BackToReady? || outcome.NotReady? || outcome.Broken?
    ensures Numbered(inFlight - {sid}, started, results[inFlight[sid].number := outcome])
  {
  }

  lemma ResultIsNew(inFlight: map<string, Run>, started: nat, results: map<nat, Outcome>, sid: string)
    requires Numbered(inFlight, started, results) && sid in inFlight
    ensures inFlight[sid].number !in results
  {
  }

  /** No session moved but this one, and that one to `FAILED` if at all. */
  predicate BrokenOff(before: map<string, SessionRecord>, after: map<string, SessionRecord>, sid: string) {
    sid in before && (after == before || after == before[sid := before[sid].(status := SessionFailed)])
  }

  lemma SessionsRemain(t: Tables, w: Write)
    ensures t.sessions.Keys <= Apply(w, t).sessions.Keys
  {
  }
}

/**
 A restart after a rotation that was cut short: the child of a rotation never looks as if it waited on a
 request of the user or a result while its parent still rotates.
 */
module RotationRestart {
  import opened Options
  import opened States
  import opened Records
  import opened Lifecycle
  import opened Rotation
  import opened Recovery

  /** The last message of another conversation is the one it was. */
  lemma {:induction false} LastOfForeign(messages: seq<MessageRecord>, child: string, id: string)
    requires id != child
    ensures LastMessage(messages, id) == LastMessage(Foreign(messages, child), id)
  {
    if messages != [] {
      var n := |messages| - 1;
      LastOfForeign(messages[..n], child, id);
      ForeignLast(messages, child);
      var before, all := Foreign(messages[..n], child), Foreign(messages, child);
      if messages[n].conversationId == child {
        assert all == before;
      } else {
        assert all == before + [messages[n]] && all[|all| - 1] == messages[n] && all[..|all| - 1] == before;
      }
    }
  }

  lemma {:induction false} ForeignLast(messages: seq<MessageRecord>, child: string)
    requires messages != []
    ensures var n := |messages| - 1;
            Foreign(messages, child)
            == Foreign(messages[..n], child) + if messages[n].conversationId == child then [] else [messages[n]]
  {
    var n := |messages| - 1;
    if n > 0 {
      ForeignLast(messages[1..], child);
      assert messages[1..][..n - 1] == messages[..n][1..];
    }
  }

  lemma {:induction false} LastIsOne(messages: seq<MessageRecord>, id: string)
    ensures var last := LastMessage(messages, id);
            last.Some? ==> last.value in messages && last.value.conversationId == id
  {
    if messages != [] { LastIsOne(messages[..|messages| - 1], id); }
  }

  /** While the parent rotates, what the child sent last is at most the resume request. */
  lemma ChildNotMasked(p: Plan, t0: Tables, t: Tables, s: Stage)
    requires At(p, t0, t, s)
    ensures !Masked(t, p.child)
  {
    hide ParentAt, CycleAt, SessionAt, OthersAt, ChildAt, NoChildAt;
    if Masked(t, p.child) {
      LastIsOne(t.messages, p.child);
      var last := LastMessage(t.messages, p.child).value;
      assert OwnMessage(p, last, RequestProgress(s), ReplyProgress(s), CopyProgress(s));
      assert last == CopyRecord(p, CopyProgress(s).Confirmed?);
      ParentIsClosed(p, t0, t, s);
      assert false;
    }
  }

  lemma ParentIsClosed(p: Plan, t0: Tables, t: Tables, s: Stage)
    requires At(p, t0, t, s) && Rank(s) >= 15
    ensures p.child in t.conversations && t.conversations[p.child].parentId == Some(p.source)
    ensures p.source in t.conversations && t.conversations[p.source].status.Closed?
  {
    hide CycleAt, SessionAt, OthersAt, MessagesAt;
  }

  /** What a conversation other than the child waits on is what it waited on before the rotation. */
  lemma SamePending(p: Plan, t0: Tables, t: Tables, id: string)
    requires OthersAt(p, t0, t) && id != p.child
    ensures PendingOutbound(t, id) <==> PendingOutbound(t0, id)
  {
    LastOfForeign(t.messages, p.child, id);
    LastOfForeign(t0.messages, p.child, id);
  }

  /** The rotation is of the current conversation of its session, whose children are its session's. */
  predicate Settled(p: Plan, t0: Tables) {
    && p.sid in t0.sessions && t0.sessions[p.sid].currentConversationId == Some(p.source)
    && (forall id | id in t0.conversations && t0.conversations[id].parentId == Some(p.source) ::
          t0.conversations[id].sessionId == p.sid)
    && (forall id | id in t0.conversations :: t0.conversations[id].parentId != Some(p.child))
  }

  lemma SourceNotMasked(p: Plan, t0: Tables, t: Tables, s: Stage)
    requires At(p, t0, t, s) && !Masked(t0, p.source)
    ensures !Masked(t, p.source)
  {
    hide MessagesAt, CycleAt, LastMessage, WireBytes;
    SamePending(p, t0, t, p.source);
  }

  lemma CurrentConversation(p: Plan, t0: Tables, t: Tables, s: Stage)
    requires At(p, t0, t, s) && Settled(p, t0)
    ensures p.sid in t.sessions && t.sessions[p.sid].currentConversationId in {Some(p.source), Some(p.child)}
  {
    hide ParentAt, ChildAt, NoChildAt, CycleAt, MessagesAt, OthersAt;
  }

  lemma OtherNotMasked(p: Plan, t0: Tables, t: Tables, s: Stage, id: string)
    requires At(p, t0, t, s) && Settled(p, t0) && !Masked(t0, id) && id != p.child && id != p.source
    ensures !Masked(t, id)
  {
    hide ParentAt, ChildAt, NoChildAt, SessionAt, CycleAt, MessagesAt, PendingOutbound;
    SamePending(p, t0, t, id);
    CurrentConversation(p, t0, t, s);
  }

  /** Wherever a rotation stopped, it left no child waiting behind a rotating parent that was not there
      before. */
  lemma NobodyMasked(p: Plan, t0: Tables, t: Tables, s: Stage)
    requires At(p, t0, t, s) && Settled(p, t0)
    requires forall id | id in t0.conversations :: !Masked(t0, id)
    ensures forall id | id in t.conversations :: !Masked(t, id)
  {
    hide At, Masked;
    forall id | id in t.conversations ensures !Masked(t, id) {
      if id == p.child {
        ChildNotMasked(p, t0, t, s);
      } else if id == p.source {
        MaskedIsKnown(t0, id);
        SourceNotMasked(p, t0, t, s);
      } else {
        MaskedIsKnown(t0, id);
        OtherNotMasked(p, t0, t, s, id);
      }
    }
  }

  lemma MaskedIsKnown(t: Tables, id: string)
    ensures Masked(t, id) ==> id in t.conversations
  {
  }

  /** So a restart after a rotation that was cut short may itself be cut short anywhere, any number of times. */
  lemma RestartAfterRotation(p: Plan, t0: Tables, t: Tables, s: Stage, cut: Cut)
    requires At(p, t0, t, s) && Settled(p, t0) && Fits(t, cut)
    requires forall id | id in t0.conversations :: !Masked(t0, id)
    ensures Recovered(Interim(t, cut)) == Recovered(t)
    ensures forall id | id in Interim(t, cut).conversations :: !Masked(Interim(t, cut), id)
  {
    hide At, Masked, Recovered, Interim, Fits;
    NobodyMasked(p, t0, t, s);
    HoweverOften(t, cut);
  }

  // ---- a store that no rotation leaves ------------------------------------------------------------------------

  function Parent(status: ConversationState): ConversationRecord {
    ConversationRecord("p", "s", None, None, status, true, Saturated, 0, None, None, None)
  }

  /** A session whose current conversation waits on a request of the user while its parent still rotates. */
  function MaskedStore(): Tables {
    Tables(
      map["s" := SessionRecord("s", SessionRunning, Some("c"), true, 9, 1, 1)],
      map["p" := Parent(Rotating),
          "c" := Parent(WaitingModelResponse).(conversationId := "c", parentId := Some("p"))],
      map[], map[], map[],
      [MessageRecord("m", "s", "c", Outbound, UserRequest, 1, None, true, true, None)],
      map[])
  }

  /** Cut short after the parent, the recovery of this store resumes the child the next time, which it would
      have interrupted. */
  lemma MaskedStoreDiffers()
    ensures var t, cut := MaskedStore(), InConversations({"p"});
            && WellKeyed(t) && Fits(t, cut)
            && Recovered(t).conversations["c"].status.ConversationInterrupted?
            && Recovered(Interim(t, cut)).conversations["c"].status.WaitingModelResponse?
  {
    var t := MaskedStore();
    assert LastMessage(t.messages, "c") == Some(t.messages[0]);
    assert Masked(t, "c");
    assert !IsResumable(t, "p");
    assert Unmasked(t, {"p"}, "c");
    UnmaskedIsResumed(t, {"p"}, "c");
  }
}

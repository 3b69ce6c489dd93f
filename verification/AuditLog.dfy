/**
 The audit log itself: one chain per session in the store, a lazily filled cache of the last events, and
 the paged verification.
 */
module AuditTrail {
  import opened Options
  import opened AuditChain
  import opened AuditPages

  const TASK_OUTPUT := "task.output"

  /** Everything but the live output of tasks is audited. */
  predicate Audited(c: Content) {
    c.eventType != TASK_OUTPUT
  }

  function ChainOf(chains: map<string, seq<AuditEvent>>, sid: string): seq<AuditEvent> {
    if sid in chains then chains[sid] else []
  }

  function LastOf(chain: seq<AuditEvent>): Option<AuditEvent> {
    if chain == [] then None else Some(chain[|chain| - 1])
  }

  predicate IdUsed(chains: map<string, seq<AuditEvent>>, id: string) {
    exists s, e | s in chains && e in chains[s] :: e.body.eventId == id
  }

  predicate SequenceUsed(chain: seq<AuditEvent>, n: int) {
    exists e | e in chain :: e.body.sequence == n
  }

  /** What the store checks before it appends. */
  predicate Appendable(chains: map<string, seq<AuditEvent>>, e: AuditEvent) {
    var chain := ChainOf(chains, e.body.content.sessionId);
    && !SequenceUsed(chain, e.body.sequence)
    && !IdUsed(chains, e.body.eventId)
    && (chain != [] ==> e.body.sequence == chain[|chain| - 1].body.sequence + 1)
  }

  class AuditStore {
    var chains: map<string, seq<AuditEvent>>

    constructor ()
      ensures chains == map[]
    {
      chains := map[];
    }

    /** Append only; `fails`: the write guard refuses. */
    method Append(e: AuditEvent, fails: bool) returns (ok: bool)
      modifies this
      ensures ok <==>
                var chain := ChainOf(old(chains), e.body.content.sessionId);
                && !fails
                && (forall x | x in chain :: x.body.sequence != e.body.sequence)
                && (forall s, x | s in old(chains) && x in old(chains)[s] :: x.body.eventId != e.body.eventId)
                && (chain != [] ==> e.body.sequence == chain[|chain| - 1].body.sequence + 1)
      ensures var sid := e.body.content.sessionId;
              && (forall s :: ChainOf(chains, s) == if ok
                 && s == sid then ChainOf(old(chains), s) + [e] else ChainOf(old(chains), s))
    {
      if fails {
        return false;
      }
      var sid := e.body.content.sessionId;
      var chain := ChainOf(chains, sid);
      ok := Appendable(chains, e);
      chains := chains[sid := if ok then chain + [e] else chain];
    }

    method ListAuditEvents(sid: string, position: Option<int>, limit: nat) returns (page: seq<AuditEvent>)
      ensures page == Page(ChainOf(chains, sid), position, limit)
    {
      page := Page(ChainOf(chains, sid), position, limit);
    }
  }

  class AuditLog {
    const store: AuditStore
    const h: Hash
    var last: map<string, Option<AuditEvent>>

    /** A restart: the cache is empty, the store is the truth. */
    constructor (store: AuditStore, h: Hash)
      requires forall s :: Intact(h, ChainOf(store.chains, s), s)
      ensures this.store == store && this.h == h && Valid()
    {
      this.store, this.h := store, h;
      last := map[];
    }

    /** Every chain is intact, and what the cache says is what the store holds. */
    ghost predicate Valid()
      reads this, store
    {
      && (forall s :: Intact(h, ChainOf(store.chains, s), s))
      && (forall s | s in last :: last[s] == LastOf(ChainOf(store.chains, s)))
    }

    method Last(sid: string) returns (e: Option<AuditEvent>)
      requires Valid()
      modifies this`last
      ensures Valid() && e == LastOf(ChainOf(store.chains, sid))
    {
      if sid !in last {
        last := last[sid := LastOf(ChainOf(store.chains, sid))];
      }
      e := last[sid];
    }

    /** Chains one event.  An output event is not audited; an audited one is refused exactly when the disk
        fails or its identifier is taken, and then nothing is consumed: the next event takes the same
        place in the chain. */
    method Handle(c: Content, eventId: string, fails: bool) returns (ok: bool, audited: Option<AuditEvent>)
      requires Valid()
      modifies this`last, store
      ensures Valid()
      ensures c.eventType == "task.output" ==>
                ok && audited.None? && store.chains == old(store.chains) && last == old(last)
      ensures c.eventType != "task.output" ==> (ok <==> !fails && !IdUsed(old(store.chains), eventId))
      ensures c.eventType != "task.output" && ok ==>
                && audited.Some? && audited.value.body.content == c && audited.value.body.eventId == eventId
                && ChainOf(store.chains, c.sessionId) == ChainOf(old(store.chains), c.sessionId) + [audited.value]
      ensures c.eventType != "task.output" && ok ==>
                var chain, body := ChainOf(old(store.chains), c.sessionId), audited.value.body;
                && body.sequence == |chain| + 1 && audited.value.eventHash == h(body)
                && (chain != [] ==> body.previousHash == chain[|chain| - 1].eventHash)
                && (chain == [] ==> |body.previousHash| == 64 && forall d | d in body.previousHash :: d == '0')
      ensures forall s | !(c.eventType != "task.output" && ok && s == c.sessionId) ::
                ChainOf(store.chains, s) == ChainOf(old(store.chains), s)
    {
      if !Audited(c) {
        return true, None;
      }
      hide Intact, GenesisHash, Link, Linked, IdUsed, SequenceUsed;
      ghost var chain := ChainOf(store.chains, c.sessionId);
      var previous := Last(c.sessionId);
      var sequence := if previous.Some? then previous.value.body.sequence + 1 else 1;
      var previousHash := if previous.Some? then previous.value.eventHash else GenesisHash();
      var body := Body(eventId, sequence, previousHash, c);
      var e := AuditEvent(body, h(body));
      NextSequence(h, chain, c.sessionId);
      GenesisIsZeros();
      IntactGrows(h, chain, e, c.sessionId);
      ok := store.Append(e, fails);
      if !ok {
        return false, None;
      }
      last := last[c.sessionId := Some(e)];
      audited := Some(e);
    }

    /** One page of the walk. */
    method CheckPage(ghost chain: seq<AuditEvent>, page: seq<AuditEvent>, from: nat, hash: string)
      returns (broken: Option<Verdict>, checked: nat, previous: string)
      requires from + |page| <= |chain| && page == chain[from..from + |page|]
      requires Walked(h, chain, from, hash)
      ensures broken.Some? ==> Answers(h, chain, broken.value)
      ensures broken.None? ==> checked == from + |page| && Walked(h, chain, checked, previous)
    {
      hide GenesisHash, Link, CheckLink, Walked, HashBefore, Answers;
      broken, checked, previous := None, from, hash;
      for i := 0 to |page|
        invariant checked == from + i && Walked(h, chain, checked, previous)
      {
        var reason := CheckLink(h, page[i], checked + 1, previous);
        OneMoreChecked(h, chain, checked, previous);
        if reason.Some? {
          return Some(Verdict(false, checked, Some(page[i].body.sequence), reason)), checked, previous;
        }
        checked, previous := checked + 1, page[i].eventHash;
      }
    }

    /** The walk by pages: its verdict is that of one walk over what the pages show, whatever list the store
        holds. */
    method Verify(sid: string, pageSize: nat) returns (v: Verdict)
      requires pageSize >= 1
      ensures Answers(h, Shown(ChainOf(store.chains, sid), pageSize, 0), v)
    {
      hide GenesisHash, Linked, Link, After, Page, Shown, CheckLink, Answers, Walked, HashBefore, ChainOf;
      ghost var chain := ChainOf(store.chains, sid);
      ghost var rows, shown := chain, Shown(chain, pageSize, 0);
      EverythingAfter(chain, None);
      NothingChecked(h, shown);
      var previous, checked: nat, position: Option<int> := GenesisHash(), 0, None;
      var more := true;
      while more
        invariant checked <= |shown| && Walked(h, shown, checked, previous)
        invariant more ==>
                    && After(chain, position) == rows && Reached(chain, rows, checked)
                    && shown[checked..] == Shown(rows, pageSize, checked)
        invariant !more ==> checked == |shown|
        decreases |shown| - checked, more
      {
        PageShown(rows, pageSize, checked);
        var page := store.ListAuditEvents(sid, position, pageSize);
        PageOf(chain, position, pageSize);
        ghost var from := checked;
        PageInside(shown, from, page, Shown(rows, pageSize, from));
        var broken;
        broken, checked, previous := CheckPage(shown, page, checked, previous);
        if broken.Some? {
          return broken.value;
        }
        if |page| < pageSize {
          more := false;
        } else {
          position := Some(page[|page| - 1].body.sequence);
          PageSequences(h, shown, from, page, checked, previous);
          RowsAfterPage(chain, rows, from, pageSize);
          rows := After(rows[pageSize..], Some(checked));
        }
      }
      AllChecked(h, shown, previous);
      v := Verdict(true, checked, None, None);
    }
  }

  /** The first `n` events are intact and the last of them carries `previous`. */
  ghost predicate Walked(h: Hash, chain: seq<AuditEvent>, n: nat, previous: string) {
    n <= |chain| && previous == HashBefore(chain, n) && forall i: nat | i < n :: Link(h, chain, i)
  }

  lemma NothingChecked(h: Hash, chain: seq<AuditEvent>)
    ensures Walked(h, chain, 0, GenesisHash())
  {
  }

  lemma OneMoreChecked(h: Hash, chain: seq<AuditEvent>, n: nat, previous: string)
    requires Walked(h, chain, n, previous) && n < |chain|
    ensures var reason := CheckLink(h, chain[n], n + 1, previous);
            if reason.Some? then Answers(h, chain, Verdict(false, n, Some(chain[n].body.sequence), reason))
            else Walked(h, chain, n + 1, chain[n].eventHash)
  {
  }

  lemma AllChecked(h: Hash, chain: seq<AuditEvent>, previous: string)
    requires Walked(h, chain, |chain|, previous)
    ensures Answers(h, chain, Verdict(true, |chain|, None, None))
  {
  }

  /** The events of a page that was checked are numbered on. */
  lemma PageSequences(h: Hash, shown: seq<AuditEvent>, from: nat, page: seq<AuditEvent>, n: nat, previous: string)
    requires n == from + |page| && n <= |shown| && page == shown[from..n] && Walked(h, shown, n, previous)
    ensures forall i | 0 <= i < |page| :: page[i].body.sequence == from + i + 1
  {
    forall i | 0 <= i < |page| ensures page[i].body.sequence == from + i + 1 {
      assert Link(h, shown, from + i);
    }
  }

  lemma PageInside(shown: seq<AuditEvent>, from: nat, page: seq<AuditEvent>, rest: seq<AuditEvent>)
    requires from <= |shown| && shown[from..] == rest && page <= rest
    ensures from + |page| <= |shown| && page == shown[from..from + |page|]
    ensures shown[from + |page|..] == rest[|page|..]
  {
  }

  lemma NextSequence(h: Hash, chain: seq<AuditEvent>, sid: string)
    requires Intact(h, chain, sid)
    ensures !SequenceUsed(chain, |chain| + 1)
    ensures chain != [] ==> chain[|chain| - 1].body.sequence == |chain|
  {
    forall e | e in chain ensures e.body.sequence <= |chain| {
      var i: nat :| i < |chain| && chain[i] == e;
      assert Link(h, chain, i);
    }
    if chain != [] { assert Link(h, chain, |chain| - 1); }
  }

  /** Any history at all, from an empty store: events of any kind, refused writes, repeated identifiers,
      restarts.  Whatever the page size, every chain verifies, in full. */
  method AnyHistory(h: Hash, sid: string, pageSize: nat) returns (store: AuditStore, v: Verdict)
    requires pageSize >= 1
    ensures Intact(h, ChainOf(store.chains, sid), sid)
    ensures v == Verdict(true, |ChainOf(store.chains, sid)|, None, None)
  {
    store := new AuditStore();
    var log := new AuditLog(store, h);
    var steps: nat := *;
    while steps > 0
      invariant log.Valid() && log.store == store && log.h == h
      invariant fresh(store) && fresh(log)
      decreases steps
    {
      steps := steps - 1;
      if * {
        log := new AuditLog(store, h);
      } else {
        var c: Content := *;
        var id: string := *;
        var fails: bool := *;
        var _, _ := log.Handle(c, id, fails);
      }
    }
    v := log.Verify(sid, pageSize);
    LinkedIsShown(h, ChainOf(store.chains, sid), pageSize);
    OnlyOneAnswer(h, ChainOf(store.chains, sid), v, v);
  }
}

/**
 The audit chain of one session: what `verify` recomputes link by link, and what a chain that passes is
 worth.  The hash is any collision-free function of the hashed dictionary.
 */
module AuditChain {
  import opened Options

  /** What the first event of a chain points back to. */
  function GenesisHash(): string {
    seq(64, _ => '0')
  }

  lemma GenesisIsZeros()
    ensures |GenesisHash()| == 64 && forall d | d in GenesisHash() :: d == '0'
  {
  }

  /** The fields an event brings along. */
  datatype Content = Content(
    sessionId: string, conversationId: Option<string>, cycleId: Option<string>, planId: Option<string>,
    taskId: Option<string>, eventType: string, timestamp: int, payload: string)

  /** Everything that is hashed. */
  datatype Body = Body(eventId: string, sequence: int, previousHash: string, content: Content)

  datatype AuditEvent = AuditEvent(body: Body, eventHash: string)

  type Hash = Body -> string

  ghost predicate CollisionFree(h: Hash) {
    forall a, b {:trigger h(a), h(b)} :: h(a) == h(b) ==> a == b
  }

  datatype Reason = SequenceGap | PreviousHashMismatch | HashMismatch

  /** One link, checked in this order. */
  function CheckLink(h: Hash, e: AuditEvent, expectedSequence: int, previousHash: string): Option<Reason> {
    if e.body.sequence != expectedSequence then Some(SequenceGap)
    else if e.body.previousHash != previousHash then Some(PreviousHashMismatch)
    else if h(e.body) != e.eventHash then Some(HashMismatch)
    else None
  }

  function HashBefore(chain: seq<AuditEvent>, i: nat): string
    requires i <= |chain|
  {
    if i == 0 then GenesisHash() else chain[i - 1].eventHash
  }

  /** The chain of one session, its events numbered from 1. */
  predicate Numbered(chain: seq<AuditEvent>, sid: string) {
    forall i | 0 <= i < |chain| :: chain[i].body.sequence == i + 1 && chain[i].body.content.sessionId == sid
  }

  /** The event at `i` hangs on the one before it. */
  predicate Link(h: Hash, chain: seq<AuditEvent>, i: nat)
    requires i < |chain|
  {
    CheckLink(h, chain[i], i + 1, HashBefore(chain, i)).None?
  }

  predicate Linked(h: Hash, chain: seq<AuditEvent>) {
    forall i: nat | i < |chain| :: Link(h, chain, i)
  }

  /** A chain as the log grows it. */
  ghost predicate Intact(h: Hash, chain: seq<AuditEvent>, sid: string) {
    Linked(h, chain) && Numbered(chain, sid)
  }

  predicate Increasing(chain: seq<AuditEvent>) {
    forall i, j | 0 <= i < j < |chain| :: chain[i].body.sequence < chain[j].body.sequence
  }

  lemma LinkedIsIncreasing(h: Hash, chain: seq<AuditEvent>)
    requires Linked(h, chain)
    ensures Increasing(chain)
  {
    forall i, j | 0 <= i < j < |chain| ensures chain[i].body.sequence < chain[j].body.sequence {
      assert Link(h, chain, i) && Link(h, chain, j);
    }
  }

  lemma PrefixLinks(h: Hash, chain: seq<AuditEvent>, n: nat, i: nat)
    requires i < n <= |chain|
    ensures Link(h, chain[..n], i) == Link(h, chain, i)
  {
    assert HashBefore(chain[..n], i) == HashBefore(chain, i);
  }

  lemma OneMoreLink(h: Hash, chain: seq<AuditEvent>, e: AuditEvent)
    requires Linked(h, chain) && CheckLink(h, e, |chain| + 1, HashBefore(chain, |chain|)).None?
    ensures Linked(h, chain + [e])
  {
    var longer := chain + [e];
    forall i: nat | i < |longer| ensures Link(h, longer, i) {
      if i < |chain| {
        assert longer[..|chain|] == chain;
        PrefixLinks(h, longer, |chain|, i);
      } else {
        assert HashBefore(longer, i) == HashBefore(chain, i);
      }
    }
  }

  /** What the log builds keeps the chain intact. */
  lemma IntactGrows(h: Hash, chain: seq<AuditEvent>, e: AuditEvent, sid: string)
    requires Intact(h, chain, sid) && e.body.content.sessionId == sid
    requires e.body.sequence == |chain| + 1 && e.body.previousHash == HashBefore(chain, |chain|)
             && e.eventHash == h(e.body)
    ensures Intact(h, chain + [e], sid)
  {
    OneMoreLink(h, chain, e);
  }

  // ---- the verdict of a walk --------------------------------------------------------------------------

  datatype Verdict = Verdict(valid: bool, checked: nat, firstBroken: Option<int>, reason: Option<Reason>)

  /** `v` is the answer for this chain: everything before the first broken link is counted, and the break is
      named by the sequence the broken event carries. */
  predicate Answers(h: Hash, chain: seq<AuditEvent>, v: Verdict) {
    && v.checked <= |chain|
    && (forall i: nat | i < v.checked :: Link(h, chain, i))
    && (v.valid <==> v.checked == |chain|)
    && (v.valid ==> v.firstBroken.None? && v.reason.None?)
    && (!v.valid ==>
          && !Link(h, chain, v.checked)
          && v.firstBroken == Some(chain[v.checked].body.sequence)
          && v.reason == CheckLink(h, chain[v.checked], v.checked + 1, HashBefore(chain, v.checked)))
  }

  lemma OnlyOneAnswer(h: Hash, chain: seq<AuditEvent>, v: Verdict, w: Verdict)
    requires Answers(h, chain, v) && Answers(h, chain, w)
    ensures v == w && (v.valid <==> Linked(h, chain))
  {
    assert v.checked == w.checked;
  }

  // ---- what an intact chain is worth ----------------------------------------------------------------------

  /** A shared event commits to everything before it: two intact chains that hold the same hash, each at
      some place, hold it at the same place and agree up to there. */
  lemma {:induction false} SharedHashSharesThePast(h: Hash, c: seq<AuditEvent>, d: seq<AuditEvent>, i: nat, j: nat)
    requires CollisionFree(h) && Linked(h, c) && Linked(h, d)
    requires i < |c| && j < |d| && c[i].eventHash == d[j].eventHash
    ensures i == j && c[..i + 1] == d[..j + 1]
    decreases i
  {
    assert Link(h, c, i) && Link(h, d, j);
    assert h(c[i].body) == h(d[j].body);
    assert c[i] == d[j];
    if i > 0 {
      SharedHashSharesThePast(h, c, d, i - 1, j - 1);
      assert c[..i + 1] == c[..i] + [c[i]] && d[..j + 1] == d[..j] + [d[j]];
    }
  }

  /** Two intact chains ending in the same hash are equal event by event. */
  lemma SameTipSameChain(h: Hash, c: seq<AuditEvent>, d: seq<AuditEvent>)
    requires CollisionFree(h) && Linked(h, c) && Linked(h, d)
    requires c != [] && d != [] && c[|c| - 1].eventHash == d[|d| - 1].eventHash
    ensures c == d
  {
    SharedHashSharesThePast(h, c, d, |c| - 1, |d| - 1);
    assert c[..|c|] == c && d[..|d|] == d;
  }

  // ---- tampering, seen by one walk over the whole list ------------------------------------------

  /** Whatever was done to the past of an event that is still there, the walk stops at that event at the
      latest, and not before the first event that departs from the original. */
  lemma TamperedPastIsReported(h: Hash, c: seq<AuditEvent>, d: seq<AuditEvent>, i: nat, j: nat, k: nat, v: Verdict)
    requires CollisionFree(h) && Linked(h, c)
    requires i < |c| && j < |d| && d[j] == c[i] && d[..j] != c[..i]
    requires k <= |c| && k <= |d| && c[..k] == d[..k]
    requires Answers(h, d, v)
    ensures !v.valid && k <= v.checked <= j
  {
    var e := d[..j + 1];
    assert e[j] == d[j] && c[..i + 1][..i] == c[..i] && e[..j + 1][..j] == d[..j];
    if v.checked > j {
      PrefixAgrees(h, d, j + 1, v);
      SharedHashSharesThePast(h, c, e, i, j);
      assert false;
    }
    forall n: nat | n < k ensures Link(h, d, n) {
      PrefixLinks(h, c, k, n);
      PrefixLinks(h, d, k, n);
      assert Link(h, c, n);
    }
  }

  lemma PrefixAgrees(h: Hash, d: seq<AuditEvent>, n: nat, v: Verdict)
    requires Answers(h, d, v) && n <= v.checked
    ensures Linked(h, d[..n])
  {
    forall i: nat | i < n ensures Link(h, d[..n], i) { PrefixLinks(h, d, n, i); }
  }

  /** One event altered in place: unnoticed exactly when it is the last one and the forger recomputed its
      hash; otherwise reported on the event itself, or, when that hash was recomputed, on the next one. */
  lemma AlteredEvent(h: Hash, c: seq<AuditEvent>, k: nat, x: AuditEvent, v: Verdict)
    requires CollisionFree(h) && Linked(h, c) && k < |c| && x != c[k]
    requires Answers(h, c[k := x], v)
    ensures var forged := CheckLink(h, x, k + 1, HashBefore(c, k)).None?;
            && (v.valid <==> forged && k == |c| - 1)
            && (!v.valid ==> v.checked == if forged then k + 1 else k)
  {
    var d := c[k := x];
    assert d[..k] == c[..k];
    assert HashBefore(d, k) == HashBefore(c, k);
    assert Link(h, d, k) <==> CheckLink(h, x, k + 1, HashBefore(c, k)).None?;
    forall i: nat | i < k ensures Link(h, d, i) {
      PrefixLinks(h, c, k, i);
      PrefixLinks(h, d, k, i);
      assert Link(h, c, i);
    }
    if k + 1 < |c| {
      assert d[k + 1] == c[k + 1] && d[..k + 1][k] != c[..k + 1][k];
      TamperedPastIsReported(h, c, d, k + 1, k + 1, k, v);
    }
  }

  /** One event removed: unnoticed exactly when it was the last; otherwise its successor is reported, as a
      gap. */
  lemma RemovedEvent(h: Hash, c: seq<AuditEvent>, k: nat, v: Verdict)
    requires Linked(h, c) && k < |c|
    requires Answers(h, c[..k] + c[k + 1..], v)
    ensures v.valid <==> k == |c| - 1
    ensures !v.valid ==> v.checked == k && v.firstBroken == Some(k + 2) && v.reason == Some(SequenceGap)
  {
    var d := c[..k] + c[k + 1..];
    assert d[..k] == c[..k];
    forall i: nat | i < k ensures Link(h, d, i) {
      PrefixLinks(h, c, k, i);
      PrefixLinks(h, d, k, i);
      assert Link(h, c, i);
    }
    if k + 1 < |c| {
      assert d[k] == c[k + 1] && Link(h, c, k + 1);
      assert !Link(h, d, k);
    }
  }
}

/**
 The broker: one bounded queue per client, filled by the bus inside every publication, and emptied by the
 consumer, which first replays the store.  A client is suspended wherever it hands over a frame or waits
 for one, and anything may be published meanwhile.
 */
module SseBroker {
  import opened Options
  import opened AuditChain
  import opened AuditPages
  import opened AuditTrail
  import opened SseStream
  import opened EventId

  const REPLAY_PAGE_SIZE := 500

  datatype Client = Client(filter: Filter, queue: seq<Item>, active: bool)

  /** A frame offered to a client: queued, unless the queue is full; then the client is dropped, and learns
      it from the reserved slot. */
  function Offered(c: Client, x: Frame, queueSize: nat): Client {
    if !c.active || !Accepts(c.filter, x.content) then c
    else if |c.queue| >= queueSize then c.(active := false, queue := c.queue + [DroppedSignal])
    else c.(queue := c.queue + [Live(x)])
  }

  /** Up to which number everything accepted has been offered. */
  function OfferedUpTo(c: Client, x: Frame, queueSize: nat, offered: nat, length: nat): nat {
    if !c.active || c.filter.sessionId != x.content.sessionId
      || (Accepts(c.filter, x.content) && |c.queue| >= queueSize)
    then offered else length
  }

  /** A client in step with its chain: nothing is missing from its queue as long as it is registered. */
  ghost predicate InStep(c: Client, chain: seq<AuditEvent>, taken: nat, offered: nat, queueSize: nat, live: bool) {
    && InOrder(c.filter, chain, c.queue, taken, offered)
    && |c.queue| <= queueSize + (if c.active then 0 else 1)
    && (c.active ==> NoSignal(c.queue))
    && (c.active && live ==> offered == |chain|)
  }

  lemma AuditedKeepsInStep(c: Client, chain: seq<AuditEvent>, e: AuditEvent, taken: nat, offered: nat, queueSize: nat)
    requires InStep(c, chain, taken, offered, queueSize, true)
    requires Numbered(chain + [e], c.filter.sessionId)
    ensures var longer := chain + [e];
            var x := FrameOf(longer[|chain|]);
            InStep(Offered(c, x, queueSize), longer, taken, OfferedUpTo(c, x, queueSize, offered, |longer|), queueSize,
                   true)
  {
    var longer := chain + [e];
    var x := FrameOf(longer[|chain|]);
    ChainGrows(c.filter, chain, longer, c.queue, taken, offered);
    if c.active {
      if !Accepts(c.filter, x.content) {
        EventPassesBy(c.filter, longer, c.queue, taken, offered);
      } else if |c.queue| >= queueSize {
        SignalIsQueued(c.filter, longer, c.queue, taken, offered, DroppedSignal);
      } else {
        EventIsQueued(c.filter, longer, c.queue, taken, offered);
      }
    }
  }

  lemma OutputKeepsInStep(c: Client, chain: seq<AuditEvent>, x: Frame, taken: nat, offered: nat, queueSize: nat)
    requires InStep(c, chain, taken, offered, queueSize, true)
    requires x.sequence == |chain| && !AuditedFrame(x)
    ensures InStep(Offered(c, x, queueSize), chain, taken, OfferedUpTo(c, x, queueSize, offered, |chain|), queueSize,
                   true)
  {
    if c.active && Accepts(c.filter, x.content) {
      if |c.queue| >= queueSize {
        SignalIsQueued(c.filter, chain, c.queue, taken, offered, DroppedSignal);
      } else {
        OutputIsQueued(c.filter, chain, c.queue, taken, x);
      }
    }
  }

  lemma GrowthKeepsInStep(c: Client, chain: seq<AuditEvent>, longer: seq<AuditEvent>, taken: nat, offered: nat,
                          queueSize: nat)
    requires InStep(c, chain, taken, offered, queueSize, false) && chain <= longer
             && Numbered(longer, c.filter.sessionId)
    ensures InStep(c, longer, taken, offered, queueSize, false)
  {
    ChainGrows(c.filter, chain, longer, c.queue, taken, offered);
  }

  lemma ClosingKeepsInStep(c: Client, chain: seq<AuditEvent>, taken: nat, offered: nat, queueSize: nat, live: bool)
    requires InStep(c, chain, taken, offered, queueSize, live)
    ensures InStep(Ended(c), chain, taken, offered, queueSize, false)
  {
    if c.active { SignalIsQueued(c.filter, chain, c.queue, taken, offered, ClosedSignal); }
  }

  function Ended(c: Client): Client {
    if c.active then c.(active := false, queue := c.queue + [ClosedSignal]) else c
  }

  lemma TakingKeepsInStep(c: Client, chain: seq<AuditEvent>, taken: nat, offered: nat, queueSize: nat, live: bool)
    requires InStep(c, chain, taken, offered, queueSize, live) && c.queue != []
    ensures InStep(c.(queue := c.queue[1..]), chain, Passed(taken, c.queue[0]), offered, queueSize, live)
  {
    assert forall x | x in c.queue[1..] :: x in c.queue;
    if !c.queue[0].Live? { assert c.queue[1..] == []; }
  }

  lemma NewClientInStep(f: Filter, chain: seq<AuditEvent>, queueSize: nat, live: bool)
    requires Numbered(chain, f.sessionId)
    ensures InStep(Client(f, [], true), chain, |chain|, |chain|, queueSize, live)
  {
  }

  // ---- all clients together --------------------------------------------------------------------------------

  type Chains = map<string, seq<AuditEvent>>

  ghost predicate AllInStep(clients: map<nat, Client>, chains: Chains, taken: map<nat, nat>, offered: map<nat, nat>,
                            queueSize: nat, live: bool) {
    && taken.Keys == clients.Keys && offered.Keys == clients.Keys
    && forall k | k in clients ::
         InStep(clients[k], ChainOf(chains, clients[k].filter.sessionId), taken[k], offered[k], queueSize, live)
  }

  /** No chain but that of `sid` changed, and that one by growing. */
  ghost predicate Grew(chains: Chains, longer: Chains) {
    forall s :: ChainOf(chains, s) <= ChainOf(longer, s) && Numbered(ChainOf(longer, s), s)
  }

  function OfferAll(clients: map<nat, Client>, x: Frame, queueSize: nat): map<nat, Client> {
    map k | k in clients :: Offered(clients[k], x, queueSize)
  }

  function OfferedToAll(clients: map<nat, Client>, x: Frame, queueSize: nat, offered: map<nat, nat>,
                        length: nat): map<nat, nat>
    requires offered.Keys == clients.Keys
  {
    map k | k in clients :: OfferedUpTo(clients[k], x, queueSize, offered[k], length)
  }

  function EndAll(clients: map<nat, Client>): map<nat, Client> {
    map k | k in clients :: Ended(clients[k])
  }

  lemma AllGrow(clients: map<nat, Client>, chains: Chains, longer: Chains, taken: map<nat, nat>, offered: map<nat, nat>,
                queueSize: nat, live: bool)
    requires AllInStep(clients, chains, taken, offered, queueSize, live) && Grew(chains, longer)
    requires live ==> forall s :: ChainOf(longer, s) == ChainOf(chains, s)
    ensures AllInStep(clients, longer, taken, offered, queueSize, live)
  {
    forall k | k in clients
      ensures InStep(clients[k], ChainOf(longer, clients[k].filter.sessionId), taken[k], offered[k], queueSize, live)
    {
      var sid := clients[k].filter.sessionId;
      GrowthKeepsInStep(clients[k], ChainOf(chains, sid), ChainOf(longer, sid), taken[k], offered[k], queueSize);
    }
  }

  lemma AuditedReachesAll(clients: map<nat, Client>, chains: Chains, longer: Chains, e: AuditEvent,
                          taken: map<nat, nat>, offered: map<nat, nat>, queueSize: nat)
    requires AllInStep(clients, chains, taken, offered, queueSize, true) && Grew(chains, longer)
    requires var sid := e.body.content.sessionId;
             && ChainOf(longer, sid) == ChainOf(chains, sid) + [e]
             && forall s | s != sid :: ChainOf(longer, s) == ChainOf(chains, s)
    ensures var chain := ChainOf(longer, e.body.content.sessionId);
            && chain[|chain| - 1] == e && e.body.sequence == |chain|
            && AllInStep(OfferAll(clients, FrameOf(e), queueSize), longer, taken,
                         OfferedToAll(clients, FrameOf(e), queueSize, offered, |chain|), queueSize, true)
  {
    var chain := ChainOf(longer, e.body.content.sessionId);
    assert chain[|chain| - 1] == e && e.body.sequence == |chain|;
    forall k | k in clients
      ensures var c := Offered(clients[k], FrameOf(e), queueSize);
              InStep(c, ChainOf(longer, c.filter.sessionId), taken[k],
                     OfferedUpTo(clients[k], FrameOf(e), queueSize, offered[k], |chain|), queueSize, true)
    {
      var sid := clients[k].filter.sessionId;
      if sid == e.body.content.sessionId {
        AuditedKeepsInStep(clients[k], ChainOf(chains, sid), e, taken[k], offered[k], queueSize);
      }
    }
  }

  lemma OutputReachesAll(clients: map<nat, Client>, chains: Chains, x: Frame,
                         taken: map<nat, nat>, offered: map<nat, nat>, queueSize: nat)
    requires AllInStep(clients, chains, taken, offered, queueSize, true)
    requires x.sequence == |ChainOf(chains, x.content.sessionId)| && !AuditedFrame(x)
    ensures AllInStep(OfferAll(clients, x, queueSize), chains, taken,
                      OfferedToAll(clients, x, queueSize, offered, x.sequence), queueSize, true)
  {
    forall k | k in clients
      ensures var c := Offered(clients[k], x, queueSize);
              InStep(c, ChainOf(chains, c.filter.sessionId), taken[k],
                     OfferedUpTo(clients[k], x, queueSize, offered[k], x.sequence), queueSize, true)
    {
      if clients[k].filter.sessionId == x.content.sessionId {
        OutputKeepsInStep(clients[k], ChainOf(chains, x.content.sessionId), x, taken[k], offered[k], queueSize);
      }
    }
  }

  lemma AllEnd(clients: map<nat, Client>, chains: Chains, taken: map<nat, nat>, offered: map<nat, nat>, queueSize: nat,
               live: bool)
    requires AllInStep(clients, chains, taken, offered, queueSize, live)
    ensures AllInStep(EndAll(clients), chains, taken, offered, queueSize, false)
  {
    forall k | k in clients
      ensures InStep(Ended(clients[k]), ChainOf(chains, clients[k].filter.sessionId), taken[k], offered[k], queueSize,
                     false)
    {
      ClosingKeepsInStep(clients[k], ChainOf(chains, clients[k].filter.sessionId), taken[k], offered[k], queueSize,
                         live);
    }
  }

  /** One client replaced by another that is in step. */
  lemma OneReplaced(clients: map<nat, Client>, chains: Chains, taken: map<nat, nat>, offered: map<nat, nat>,
                    queueSize: nat, live: bool,
                    id: nat, c: Client, takenBy: nat, offeredTo: nat)
    requires AllInStep(clients, chains, taken, offered, queueSize, live)
    requires InStep(c, ChainOf(chains, c.filter.sessionId), takenBy, offeredTo, queueSize, live)
    ensures AllInStep(clients[id := c], chains, taken[id := takenBy], offered[id := offeredTo], queueSize, live)
  {
  }

  lemma OneTakes(clients: map<nat, Client>, chains: Chains, taken: map<nat, nat>, offered: map<nat, nat>,
                 queueSize: nat, live: bool, id: nat)
    requires AllInStep(clients, chains, taken, offered, queueSize, live)
    requires id in clients && clients[id].queue != []
    ensures var c := clients[id];
            id in taken && AllInStep(clients[id := c.(queue := c.queue[1..])], chains,
                                     taken[id := Passed(taken[id], c.queue[0])], offered, queueSize, live)
  {
    var c := clients[id];
    TakingKeepsInStep(c, ChainOf(chains, c.filter.sessionId), taken[id], offered[id], queueSize, live);
    assert offered[id := offered[id]] == offered;
    hide InStep;
    OneReplaced(clients, chains, taken, offered, queueSize, live, id, c.(queue := c.queue[1..]),
                Passed(taken[id], c.queue[0]), offered[id]);
  }

  lemma OneLeaves(clients: map<nat, Client>, chains: Chains, taken: map<nat, nat>, offered: map<nat, nat>,
                  queueSize: nat, live: bool, id: nat)
    requires AllInStep(clients, chains, taken, offered, queueSize, live) && id in clients
    ensures AllInStep(clients[id := clients[id].(active := false)], chains, taken, offered, queueSize, live)
  {
    var c := clients[id];
    assert InStep(c.(active := false), ChainOf(chains, c.filter.sessionId), taken[id], offered[id], queueSize, live);
    assert offered[id := offered[id]] == offered && taken[id := taken[id]] == taken;
    hide InStep;
    OneReplaced(clients, chains, taken, offered, queueSize, live, id, c.(active := false), taken[id], offered[id]);
  }

  /** The frame an event is delivered as, given the chains that already hold it: that of its audit event, or
      one numbered by the last audited event of its session. */
  predicate FrameFor(x: Frame, c: Content, chains: Chains) {
    var last := LastOf(ChainOf(chains, c.sessionId));
    && x.content == c
    && (Audited(c) ==> last.Some? && last.value.body.sequence >= 0 && x == FrameOf(last.value))
    && (!Audited(c) ==> x.sequence == |ChainOf(chains, c.sessionId)| && !AuditedFrame(x))
  }

  /** This frame finds the queue of a registered client full. */
  predicate Overflows(c: Client, x: Frame, queueSize: nat) {
    c.active && Accepts(c.filter, x.content) && |c.queue| >= queueSize
  }

  function Overflowing(clients: map<nat, Client>, x: Frame, queueSize: nat): set<nat> {
    set k | k in clients && Overflows(clients[k], x, queueSize)
  }

  /** A signal is found only in the queue of a dropped client, or once the broker is closed. */
  predicate SignalsFit(clients: map<nat, Client>, dropped: set<nat>, open: bool) {
    && dropped <= clients.Keys
    && (forall k | k in clients && DroppedSignal in clients[k].queue :: k in dropped)
    && (forall k | k in clients && ClosedSignal in clients[k].queue :: !open)
  }

  lemma SignalsAfterOffer(clients: map<nat, Client>, dropped: set<nat>, open: bool, x: Frame, queueSize: nat)
    requires SignalsFit(clients, dropped, open)
    ensures SignalsFit(OfferAll(clients, x, queueSize), dropped + Overflowing(clients, x, queueSize), open)
  {
  }

  lemma SignalsAfterEnd(clients: map<nat, Client>, dropped: set<nat>, open: bool)
    requires SignalsFit(clients, dropped, open)
    ensures SignalsFit(EndAll(clients), dropped, false)
  {
  }

  lemma SignalsAfterTake(clients: map<nat, Client>, dropped: set<nat>, open: bool, id: nat)
    requires SignalsFit(clients, dropped, open) && id in clients && clients[id].queue != []
    ensures SignalsFit(clients[id := clients[id].(queue := clients[id].queue[1..])], dropped, open)
    ensures clients[id].queue[0].DroppedSignal? ==> id in dropped
    ensures clients[id].queue[0].ClosedSignal? ==> !open
  {
    assert forall x | x in clients[id].queue[1..] :: x in clients[id].queue;
  }

  /** The client still hears from the broker, or finds a signal in its queue. */
  predicate Attended(c: Client) {
    c.active || !NoSignal(c.queue)
  }

  lemma StillAttended(c: Client, x: Frame, queueSize: nat)
    requires Attended(c)
    ensures Attended(Offered(c, x, queueSize))
  {
    if c.active { assert DroppedSignal in c.queue + [DroppedSignal]; }
  }

  lemma EndedAttended(c: Client)
    requires Attended(c)
    ensures Attended(Ended(c))
  {
    if c.active { assert ClosedSignal in c.queue + [ClosedSignal]; }
  }

  // ---- the broker ---------------------------------------------------------------------------------------------

  /** What may happen while one client is suspended. */
  datatype Interference =
    | Publication(content: Content, eventId: string, fails: bool)
    | Registration(filter: Filter)
    | Reading(other: nat)
    | Departure(other: nat)
    | Shutdown

  /** What happens at the suspensions of one client, in order; nothing at those past the end. */
  type Script = seq<seq<Interference>>

  function ActsAt(script: Script, i: nat): seq<Interference> {
    if i < |script| then script[i] else []
  }

  /** How many frames for this filter are published. */
  function Offers(f: Filter, acts: seq<Interference>): nat {
    if acts == [] then 0
    else
      var last := acts[|acts| - 1];
      Offers(f, acts[..|acts| - 1]) + if last.Publication? && Accepts(f, last.content) then 1 else 0
  }

  function Closings(acts: seq<Interference>): nat {
    if acts == [] then 0 else Closings(acts[..|acts| - 1]) + if acts[|acts| - 1].Shutdown? then 1 else 0
  }

  /** The same over the first `n` suspensions. */
  function OffersUpTo(f: Filter, script: Script, n: nat): nat {
    if n == 0 then 0 else OffersUpTo(f, script, n - 1) + Offers(f, ActsAt(script, n - 1))
  }

  function ClosingsUpTo(script: Script, n: nat): nat {
    if n == 0 then 0 else ClosingsUpTo(script, n - 1) + Closings(ActsAt(script, n - 1))
  }

  lemma {:induction false} CountsAddUp(f: Filter, script: Script, n: nat, m: nat)
    requires n <= m
    ensures OffersUpTo(f, script, n) <= OffersUpTo(f, script, m) && ClosingsUpTo(script, n) <= ClosingsUpTo(script, m)
  {
    if n < m { CountsAddUp(f, script, n, m - 1); }
  }

  /** What is in the queue came from that many offers; it was dropped only after one too many, and closed only
      by a closing. */
  predicate Earned(c: Client, offers: nat, closings: nat, queueSize: nat) {
    && (c.active ==> |c.queue| <= offers)
    && (DroppedSignal in c.queue ==> offers > queueSize)
    && (ClosedSignal in c.queue ==> closings > 0)
  }

  lemma OfferEarned(c: Client, x: Frame, offers: nat, closings: nat, queueSize: nat)
    requires Earned(c, offers, closings, queueSize)
    ensures Earned(Offered(c, x, queueSize), offers + (if Accepts(c.filter, x.content) then 1 else 0), closings,
                   queueSize)
  {
  }

  lemma EndEarned(c: Client, offers: nat, closings: nat, queueSize: nat)
    requires Earned(c, offers, closings, queueSize)
    ensures Earned(Ended(c), offers, closings + 1, queueSize)
  {
  }

  lemma TakeEarned(c: Client, offers: nat, closings: nat, queueSize: nat)
    requires Earned(c, offers, closings, queueSize) && c.queue != []
    ensures Earned(c.(queue := c.queue[1..]), offers, closings, queueSize)
  {
    assert forall x | x in c.queue[1..] :: x in c.queue;
  }

  lemma MoreEarned(c: Client, offers: nat, closings: nat, more: nat, later: nat, queueSize: nat)
    requires Earned(c, offers, closings, queueSize) && offers <= more && closings <= later
    ensures Earned(c, more, later, queueSize)
  {
  }

  datatype Ending = Stopped | DroppedByBroker | ClosedByBroker

  class Broker {
    const log: AuditLog
    const queueSize: nat
    var open: bool
    var registered: nat
    var clients: map<nat, Client>
    var tail: map<string, nat>
    // the clients that were dropped so far
    var dropped: set<nat>
    ghost var taken: map<nat, nat>
    ghost var offered: map<nat, nat>

    constructor (log: AuditLog, queueSize: nat)
      requires queueSize > 0 && log.Valid()
      ensures this.log == log && Valid() && open
    {
      this.log, this.queueSize := log, queueSize;
      open, registered, clients, tail, dropped := true, 0, map[], map[], {};
      taken, offered := map[], map[];
    }

    ghost predicate Valid()
      reads this, log, log.store
    {
      && queueSize > 0 && log.Valid() && AllInStep(clients, log.store.chains, taken, offered, queueSize, open)
      && (forall k | k in clients :: k < registered) && SignalsFit(clients, dropped, open)
    }

    /** The frame of an event: numbered by its place in the chain when audited, and otherwise by the last
        audited event and a counter. */
    method Advance(c: Content) returns (x: Frame)
      requires log.Valid()
      requires Audited(c) ==>
                 var last := LastOf(ChainOf(log.store.chains, c.sessionId));
                 last.Some? && last.value.body.content == c
      modifies this`tail, log`last
      ensures log.Valid()
      ensures x.content == c
      ensures Audited(c) ==>
                var last := LastOf(ChainOf(log.store.chains, c.sessionId));
                last.value.body.sequence >= 0 && x == FrameOf(last.value)
      ensures !Audited(c) ==> x.sequence == |ChainOf(log.store.chains, c.sessionId)| && !AuditedFrame(x)
    {
      hide Intact;
      ghost var chain := ChainOf(log.store.chains, c.sessionId);
      LastIsLength(log.h, chain, c.sessionId);
      var last := log.Last(c.sessionId);
      if !Audited(c) {
        var count := (if c.sessionId in tail then tail[c.sessionId] else 0) + 1;
        tail := tail[c.sessionId := count];
        x := Frame(if last.Some? then last.value.body.sequence else 0, count, None, c);
      } else {
        tail := tail[c.sessionId := 0];
        x := Frame(last.value.body.sequence, 0, Some(last.value.body.eventId), last.value.body.content);
      }
    }

    method FanOut(x: Frame, ghost length: nat)
      requires offered.Keys == clients.Keys
      modifies this`clients, this`offered, this`dropped
      ensures clients == OfferAll(old(clients), x, queueSize)
      ensures dropped == old(dropped) + Overflowing(old(clients), x, queueSize)
      ensures offered == OfferedToAll(old(clients), x, queueSize, old(offered), length)
    {
      var todo := clients.Keys;
      while todo != {}
        invariant todo <= old(clients).Keys && clients.Keys == old(clients).Keys && offered == old(offered)
        invariant forall k ::
                    k in dropped <==>
                      k in old(dropped) || (k in old(clients) && k !in todo && Overflows(old(clients)[k], x, queueSize))
        invariant forall k | k in clients ::
                    clients[k] == if k in todo then old(clients)[k] else Offered(old(clients)[k], x, queueSize)
        decreases todo
      {
        var k :| k in todo;
        if Overflows(clients[k], x, queueSize) {
          dropped := dropped + {k};
        }
        clients := clients[k := Offered(clients[k], x, queueSize)];
        todo := todo - {k};
      }
      offered := OfferedToAll(old(clients), x, queueSize, offered, length);
      assert clients == OfferAll(old(clients), x, queueSize);
    }

    /** The broker's turn in a publication: the event, if audited, is already the last of its chain. */
    method Handle(c: Content, ghost chains: Chains, ghost audited: Option<AuditEvent>) returns (x: Frame)
      requires log.Valid() && AllInStep(clients, chains, taken, offered, queueSize, true)
               && Grew(chains, log.store.chains)
      requires Audited(c) ==>
                 && audited.Some? && audited.value.body.content == c
                 && ChainOf(log.store.chains, c.sessionId) == ChainOf(chains, c.sessionId) + [audited.value]
      requires forall s | !(Audited(c) && s == c.sessionId) :: ChainOf(log.store.chains, s) == ChainOf(chains, s)
      modifies this`clients, this`tail, this`offered, this`dropped, log`last
      ensures dropped == old(dropped) + Overflowing(old(clients), x, queueSize)
      ensures log.Valid() && AllInStep(clients, log.store.chains, taken, offered, queueSize, true)
      ensures FrameFor(x, c, log.store.chains) && clients == OfferAll(old(clients), x, queueSize)
    {
      hide Intact, AllInStep, Grew, InStep;
      ghost var now := log.store.chains;
      if Audited(c) {
        AuditedReachesAll(clients, chains, now, audited.value, taken, offered, queueSize);
      }
      x := Advance(c);
      if !Audited(c) {
        AllGrow(clients, chains, now, taken, offered, queueSize, true);
        OutputReachesAll(clients, now, x, taken, offered, queueSize);
      }
      SameKeys(clients, chains, taken, offered, queueSize, true);
      FanOut(x, |ChainOf(now, c.sessionId)|);
    }

    /** One publication on the bus: the audit log first, whose refusal stops everything, then the clients. */
    method Publish(c: Content, eventId: string, fails: bool) returns (ok: bool, frame: Option<Frame>)
      requires Valid()
      modifies this`clients, this`tail, this`offered, this`dropped, log`last, log.store
      ensures Valid()
      ensures ok <==> c.eventType == "task.output" || (!fails && !IdUsed(old(log.store.chains), eventId))
      ensures ok && c.eventType != "task.output" ==>
                exists e :: ChainOf(log.store.chains, c.sessionId) == ChainOf(old(log.store.chains), c.sessionId) + [e]
                            && e.body.content == c && e.body.eventId == eventId
      ensures forall s | !(ok && c.eventType != "task.output" && s == c.sessionId) ::
                ChainOf(log.store.chains, s) == ChainOf(old(log.store.chains), s)
      ensures Grew(old(log.store.chains), log.store.chains)
      ensures taken == old(taken) && clients.Keys == old(clients).Keys && forall k | k in clients ::
                clients[k].filter == old(clients)[k].filter
      ensures frame.Some? <==> ok && open
      ensures frame.None? ==> clients == old(clients) && dropped == old(dropped)
      ensures frame.Some? ==>
                && FrameFor(frame.value, c, log.store.chains)
                && clients == OfferAll(old(clients), frame.value, queueSize)
                && dropped == old(dropped) + Overflowing(old(clients), frame.value, queueSize)
    {
      hide SignalsFit, Overflowing, IdUsed, Intact, AllInStep, Grew, InStep;
      ghost var chains := log.store.chains;
      var audited;
      ok, audited := log.Handle(c, eventId, fails);
      assert forall s :: ChainOf(chains, s) <= ChainOf(log.store.chains, s);
      GrewInTheLog(log, chains);
      if !ok || !open {
        AllGrow(clients, chains, log.store.chains, taken, offered, queueSize, open);
        frame := None;
      } else {
        ghost var offered := clients;
        var x := Handle(c, chains, audited);
        SignalsAfterOffer(offered, old(dropped), open, x, queueSize);
        frame := Some(x);
      }
    }

    // ---- the client's side -----------------------------------------------------------------------------

    method Register(f: Filter) returns (id: nat)
      requires Valid()
      modifies this`registered, this`clients, this`taken, this`offered
      ensures Valid()
      ensures id !in old(clients) && clients == old(clients)[id := Client(f, [], true)]
      ensures taken == old(taken)[id := |ChainOf(log.store.chains, f.sessionId)|]
    {
      hide InStep, AllInStep, Intact;
      ghost var chain := ChainOf(log.store.chains, f.sessionId);
      IntactNumbered(log);
      NewClientInStep(f, chain, queueSize, open);
      id := registered;
      OneReplaced(clients, log.store.chains, taken, offered, queueSize, open, id, Client(f, [], true), |chain|,
                  |chain|);
      registered := registered + 1;
      clients := clients[id := Client(f, [], true)];
      taken, offered := taken[id := |chain|], offered[id := |chain|];
    }

    method Take(id: nat) returns (item: Item)
      requires Valid() && id in clients && clients[id].queue != []
      modifies this`clients, this`taken
      ensures Valid()
      ensures item == old(clients)[id].queue[0]
      ensures (item.DroppedSignal? ==> id in dropped) && (item.ClosedSignal? ==> !open)
      ensures clients == old(clients)[id := old(clients)[id].(queue := old(clients)[id].queue[1..])]
      ensures id in old(taken) && taken == old(taken)[id := Passed(old(taken)[id], item)]
    {
      hide InStep, AllInStep, Intact, Passed;
      OneTakes(clients, log.store.chains, taken, offered, queueSize, open, id);
      SignalsAfterTake(clients, dropped, open, id);
      var c := clients[id];
      item := c.queue[0];
      clients := clients[id := c.(queue := c.queue[1..])];
      taken := taken[id := Passed(taken[id], item)];
    }

    method Forget(id: nat)
      requires Valid() && id in clients
      modifies this`clients
      ensures Valid() && clients == old(clients)[id := old(clients)[id].(active := false)]
    {
      hide InStep, AllInStep, Intact;
      OneLeaves(clients, log.store.chains, taken, offered, queueSize, open, id);
      clients := clients[id := clients[id].(active := false)];
    }

    /** Every open stream ends; nothing reaches the broker any more. */
    method Close()
      requires Valid()
      modifies this`clients, this`open
      ensures Valid() && !open && clients == EndAll(old(clients))
    {
      hide InStep, AllInStep, Intact;
      AllEnd(clients, log.store.chains, taken, offered, queueSize, open);
      SignalsAfterEnd(clients, dropped, open);
      clients := EndAll(clients);
      open := false;
    }

    /** While this client is suspended anything else may happen; its place in the queue does not move, and what
        comes into its queue was published meanwhile. */
    method Suspended(id: nat, acts: seq<Interference>, ghost offers: nat, ghost closings: nat)
      requires Valid() && id in clients && Earned(clients[id], offers, closings, queueSize)
      modifies this, log`last, log.store
      ensures Valid() && Grew(old(log.store.chains), log.store.chains)
      ensures id in clients && clients[id].filter == old(clients)[id].filter
      ensures id in taken && id in old(taken) && taken[id] == old(taken)[id]
      ensures Attended(old(clients)[id]) ==> Attended(clients[id])
      ensures Earned(clients[id], offers + Offers(clients[id].filter, acts), closings + Closings(acts), queueSize)
    {
      hide InStep, AllInStep, Intact, Grew, SignalsFit, Earned;
      SameKeys(clients, log.store.chains, taken, offered, queueSize, open);
      GrewSelf(log);
      ghost var f := clients[id].filter;
      assert acts[..0] == [];
      for i := 0 to |acts|
        invariant Valid() && Grew(old(log.store.chains), log.store.chains)
        invariant id in clients && clients[id].filter == f
        invariant id in taken && taken[id] == old(taken)[id]
        invariant Attended(old(clients)[id]) ==> Attended(clients[id])
        invariant Earned(clients[id], offers + Offers(f, acts[..i]), closings + Closings(acts[..i]), queueSize)
      {
        ghost var between := log.store.chains;
        assert acts[..i + 1][..i] == acts[..i] && acts[..i + 1][i] == acts[i];
        Other(id, acts[i], offers + Offers(f, acts[..i]), closings + Closings(acts[..i]));
        GrewTransitive(old(log.store.chains), between, log.store.chains);
      }
      assert acts[..|acts|] == acts;
    }

    method Other(id: nat, what: Interference, ghost offers: nat, ghost closings: nat)
      requires Valid() && id in clients && Earned(clients[id], offers, closings, queueSize)
      modifies this, log`last, log.store
      ensures Valid() && Grew(old(log.store.chains), log.store.chains)
      ensures id in clients && clients[id].filter == old(clients)[id].filter
      ensures id in taken && id in old(taken) && taken[id] == old(taken)[id]
      ensures Attended(old(clients)[id]) ==> Attended(clients[id])
      ensures Earned(clients[id],
                     offers + (if what.Publication? && Accepts(clients[id].filter, what.content) then 1 else 0),
                     closings + (if what.Shutdown? then 1 else 0), queueSize)
    {
      hide InStep, AllInStep, Intact, Grew, SignalsFit, Earned, Accepts;
      SameKeys(clients, log.store.chains, taken, offered, queueSize, open);
      GrewSelf(log);
      ghost var before := clients[id];
      match what {
        case Publication(c, eventId, fails) =>
          var _, frame := Publish(c, eventId, fails);
          if frame.Some? {
            OfferEarned(before, frame.value, offers, closings, queueSize);
            if Attended(before) { StillAttended(before, frame.value, queueSize); }
          } else {
            MoreEarned(before, offers, closings, offers + 1, closings, queueSize);
          }
        case Registration(f) =>
          var _ := Register(f);
        case Reading(other) =>
          if other != id && other in clients && clients[other].queue != [] {
            var _ := Take(other);
          }
        case Departure(other) =>
          if other != id && other in clients {
            Forget(other);
          }
        case Shutdown =>
          Close();
          EndEarned(before, offers, closings, queueSize);
          if Attended(before) { EndedAttended(before); }
      }
    }

    /** This client is known with this filter, has taken what `taken` numbers say, and the chains grew from `t`
        to what they are. */
    ghost predicate Followed(id: nat, f: Filter, t: Chains, d: nat)
      reads this, log, log.store
    {
      && Valid() && Grew(t, log.store.chains)
      && id in clients && clients[id].filter == f && id in taken && taken[id] == d
    }

    /** And it is still attended, after `n` suspensions. */
    ghost predicate Streaming(id: nat, f: Filter, t: Chains, d: nat, script: Script, n: nat)
      reads this, log, log.store
    {
      && Followed(id, f, t, d) && Attended(clients[id])
      && Earned(clients[id], OffersUpTo(f, script, n), ClosingsUpTo(script, n), queueSize)
    }

    lemma BeginStreaming(id: nat, f: Filter, t: Chains, d: nat, script: Script)
      requires Valid() && Grew(t, log.store.chains) && id in taken && taken[id] == d
      requires id in clients && clients[id] == Client(f, [], true)
      ensures Streaming(id, f, t, d, script, 0)
    {
    }

    lemma StreamingFacts(id: nat, f: Filter, t: Chains, d: nat, script: Script, n: nat)
      requires Streaming(id, f, t, d, script, n)
      ensures var chain := ChainOf(log.store.chains, f.sessionId);
              Intact(log.h, chain, f.sessionId) && Numbered(chain, f.sessionId) && d <= |chain|
      ensures Grew(log.store.chains, log.store.chains)
    {
      TakenWithin(clients, log.store.chains, taken, offered, queueSize, open, id);
      assert Intact(log.h, ChainOf(log.store.chains, f.sessionId), f.sessionId);
      IntactNumbered(log);
    }

    lemma StreamingLater(id: nat, f: Filter, t: Chains, d: nat, script: Script, n: nat, m: nat)
      requires Streaming(id, f, t, d, script, n) && n <= m
      ensures Streaming(id, f, t, d, script, m)
    {
      hide Attended, Earned;
      CountsAddUp(f, script, n, m);
      MoreEarned(clients[id], OffersUpTo(f, script, n), ClosingsUpTo(script, n), OffersUpTo(f, script, m),
                 ClosingsUpTo(script, m), queueSize);
    }

    /** The consumer holds a frame, or waits for one. */
    method Pause(id: nat, ghost f: Filter, ghost t: Chains, ghost d: nat, script: Script, n: nat)
      requires Streaming(id, f, t, d, script, n)
      modifies this, log`last, log.store
      ensures Streaming(id, f, t, d, script, n + 1) && Grew(old(log.store.chains), log.store.chains)
      ensures id in clients
    {
      hide InStep, AllInStep, Intact, Grew, SignalsFit, Attended, Earned;
      ghost var before := log.store.chains;
      Suspended(id, ActsAt(script, n), OffersUpTo(f, script, n), ClosingsUpTo(script, n));
      GrewTransitive(t, before, log.store.chains);
    }

    /** The frame just added is handed over; the replay is suspended meanwhile. */
    method HandOver(id: nat, ghost f: Filter, ghost t: Chains, ghost d: nat, script: Script,
                    frames: seq<Frame>, ghost position: Position, ghost from: nat, ghost replayed: nat)
      requires frames != [] && Streaming(id, f, t, d, script, |frames| - 1)
      requires Replayed(f, log.store.chains, frames, position, from, replayed, d)
      modifies this, log`last, log.store
      ensures Streaming(id, f, t, d, script, |frames|)
      ensures Replayed(f, log.store.chains, frames, position, from, replayed, d)
      ensures Grew(old(log.store.chains), log.store.chains)
    {
      hide Streaming, Replayed;
      ghost var before := log.store.chains;
      Pause(id, f, t, d, script, |frames| - 1);
      ReplayedGrows(f, before, log.store.chains, frames, position, from, replayed, d);
    }

    /** A consumer that takes `total + 1` frames stops with the last of them in hand. */
    predicate Handed(frames: nat, patience: nat, stopped: bool, total: nat) {
      if stopped then frames == total + 1 else frames + patience == total
    }

    /** One event of a page: handed over when accepted. */
    method ReplayOne(id: nat, f: Filter, ghost t: Chains, ghost d: nat, script: Script, ghost from: nat,
                     page: seq<AuditEvent>, ghost earlier: Chains, ghost at: nat, i: nat,
                     given: seq<Frame>, start: Position, budget: nat)
      returns (frames: seq<Frame>, position: Position, patience: nat, stopped: bool)
      requires Streaming(id, f, t, d, script, |given|) && Grew(earlier, log.store.chains)
      requires from <= at && i < |page| && IsPage(earlier, f, page, at)
      requires Replayed(f, log.store.chains, given, start, from, at + i, d)
      modifies this, log`last, log.store
      ensures Streaming(id, f, t, d, script, |frames|) && Grew(earlier, log.store.chains)
      ensures Replayed(f, log.store.chains, frames, position, from, at + i + 1, d)
      ensures Handed(|frames|, patience, stopped, |given| + budget)
      ensures patience < budget || (patience == budget
              && |ChainOf(log.store.chains, f.sessionId)| == |ChainOf(old(log.store.chains), f.sessionId)|)
    {
      hide Streaming, Grew, Replayed, IsPage, Accepts;
      OneReplayed(f, earlier, log.store.chains, given, start, from, at, at + i, page, i, d);
      frames, position, patience, stopped := given, start, budget, false;
      if Accepts(f, page[i].body.content) {
        position := Some((page[i].body.sequence, 0));
        frames := given + [FrameOf(page[i])];
        if patience == 0 {
          stopped := true;
          StreamingLater(id, f, t, d, script, |given|, |frames|);
          return;
        }
        patience := patience - 1;
        ghost var before := log.store.chains;
        HandOver(id, f, t, d, script, frames, position, from, at + i + 1);
        GrewTransitive(earlier, before, log.store.chains);
      }
    }

    /** The accepted events of one page, handed over one by one. `at` is the number before its first. */
    method ReplayPage(id: nat, f: Filter, ghost t: Chains, ghost d: nat, script: Script, ghost from: nat,
                      page: seq<AuditEvent>, ghost at: nat,
                      given: seq<Frame>, start: Position, budget: nat)
      returns (frames: seq<Frame>, position: Position, patience: nat, stopped: bool, ghost replayed: nat)
      requires Streaming(id, f, t, d, script, |given|) && from <= at && IsPage(log.store.chains, f, page, at)
      requires Replayed(f, log.store.chains, given, start, from, at, d)
      modifies this, log`last, log.store
      ensures Streaming(id, f, t, d, script, |frames|)
              && Replayed(f, log.store.chains, frames, position, from, replayed, d)
      ensures stopped || replayed == at + |page|
      ensures Handed(|frames|, patience, stopped, |given| + budget)
      ensures patience < budget || (patience == budget
              && |ChainOf(log.store.chains, f.sessionId)| == |ChainOf(old(log.store.chains), f.sessionId)|)
    {
      hide Streaming, Intact, Grew, Replayed, IsPage, Accepts, Numbered, ChainOf;
      StreamingFacts(id, f, t, d, script, |given|);
      ghost var earlier := log.store.chains;
      ghost var length := |ChainOf(earlier, f.sessionId)|;
      frames, position, patience, stopped, replayed := given, start, budget, false, at;
      for i := 0 to |page|
        invariant Streaming(id, f, t, d, script, |frames|) && Grew(earlier, log.store.chains)
                  && IsPage(earlier, f, page, at)
        invariant replayed == at + i && Replayed(f, log.store.chains, frames, position, from, at + i, d)
        invariant patience < budget || (patience == budget && |ChainOf(log.store.chains, f.sessionId)| == length)
        invariant Handed(|frames|, patience, false, |given| + budget)
      {
        frames, position, patience, stopped :=
            ReplayOne(id, f, t, d, script, from, page, earlier, at, i, frames, position, patience);
        replayed := at + i + 1;
        if stopped {
          return;
        }
      }
    }

    /** One page of the replay, from the cursor on. */
    method ReplayNextPage(id: nat, f: Filter, ghost t: Chains, ghost d: nat, script: Script, ghost from: nat,
                          ghost count: nat, cursor: nat, given: seq<Frame>, start: Position, budget: nat)
      returns (frames: seq<Frame>, position: Position, patience: nat, stopped: bool, more: bool, next: nat,
               ghost replayed: nat)
      requires Streaming(id, f, t, d, script, |given|)
               && AtCursor(f, log.store.chains, given, start, from, count, cursor, d)
      modifies this, log`last, log.store
      ensures Streaming(id, f, t, d, script, |frames|)
              && Replayed(f, log.store.chains, frames, position, from, replayed, d)
      ensures stopped || more || replayed >= d
      ensures Handed(|frames|, patience, stopped, |given| + budget)
      ensures more && !stopped ==>
                && AtCursor(f, log.store.chains, frames, position, from, count, next, d)
                && (patience < budget || (patience == budget
                   && Left(ChainOf(log.store.chains, f.sessionId),
                           next) < Left(ChainOf(old(log.store.chains), f.sessionId), cursor)))
      ensures patience <= budget
    {
      hide Streaming, Intact, Grew, Replayed, IsPage, Page, Numbered, ChainOf, AtCursor;
      StreamingFacts(id, f, t, d, script, |given|);
      PageAt(log.h, log.store.chains, f, cursor);
      CursorFacts(f, log.store.chains, given, start, from, count, cursor, d);
      ghost var length := |ChainOf(log.store.chains, f.sessionId)|;
      frames, position, patience, stopped, replayed := given, start, budget, false, Min(cursor, length);
      var page := log.store.ListAuditEvents(f.sessionId, Some(cursor), REPLAY_PAGE_SIZE);
      if page != [] {
        frames, position, patience, stopped, replayed :=
            ReplayPage(id, f, t, d, script, from, page, cursor, given, start, budget);
      }
      more := |page| >= REPLAY_PAGE_SIZE;
      next := cursor;
      if more && !stopped {
        next := page[|page| - 1].body.sequence;
        ReplayedIsAtCursor(f, log.store.chains, frames, position, from, count, replayed, d);
      }
    }

    /** The replay: pages of the store from the given number on, until one is not full. */
    method Replay(id: nat, f: Filter, ghost t: Chains, ghost d: nat, script: Script, from: nat, count: nat, budget: nat)
      returns (frames: seq<Frame>, position: Position, patience: nat, stopped: bool, ghost replayed: nat)
      requires Streaming(id, f, t, d, script, 0)
      modifies this, log`last, log.store
      ensures Streaming(id, f, t, d, script, |frames|)
              && Replayed(f, log.store.chains, frames, position, from, replayed, d)
      ensures stopped || replayed >= d
      ensures Handed(|frames|, patience, stopped, budget)
    {
      hide Streaming, Replayed, AtCursor, ChainOf, Left, Intact, Numbered, Grew;
      StreamingFacts(id, f, t, d, script, 0);
      StartIsAtCursor(f, log.store.chains, from, count, d);
      frames, position, patience, stopped, replayed := [], Some((from, count)), budget, false, 0;
      var cursor, more := from, true;
      while more
        invariant Streaming(id, f, t, d, script, |frames|) && !stopped && Handed(|frames|, patience, false, budget)
        invariant if more then AtCursor(f, log.store.chains, frames, position, from, count, cursor, d)
                  else Replayed(f, log.store.chains, frames, position, from, replayed, d) && replayed >= d
        decreases more, patience, Left(ChainOf(log.store.chains, f.sessionId), cursor)
      {
        frames, position, patience, stopped, more, cursor, replayed :=
          ReplayNextPage(id, f, t, d, script, from, count, cursor, frames, position, patience);
        if stopped {
          return;
        }
      }
    }

    /** One item taken from the queue. */
    method TakeNext(id: nat, ghost f: Filter, ghost t: Chains, ghost d: nat, ghost script: Script, ghost n: nat,
                    given: seq<Frame>, position: Position, ghost from: nat, ghost replayed: nat)
      returns (item: Item, frames: seq<Frame>, ghost taken': nat)
      requires Streaming(id, f, t, d, script, n) && clients[id].queue != []
      requires InProgress(f, log.store.chains, given, position, from, replayed, d)
      modifies this`clients, this`taken
      ensures Followed(id, f, t, taken') && id in clients && |clients[id].queue| < |old(clients)[id].queue|
      ensures if item.Live? then Streaming(id, f, t, taken', script, n) else clients[id].queue == []
      ensures taken' >= d && (item.DroppedSignal? ==> id in dropped && OffersUpTo(f, script, n) > queueSize)
      ensures item.ClosedSignal? ==> !open && ClosingsUpTo(script, n) > 0
      ensures InProgress(f, log.store.chains, frames, position, from, replayed, taken')
      ensures frames == if item.Live? && !Repeats(item.frame, position) then given + [item.frame] else given
    {
      hide InStep, AllInStep, Intact, Grew, InProgress;
      OneTaken(clients, log.store.chains, taken, offered, queueSize, open, id, given, position, from, replayed);
      SignalIsLast(clients, log.store.chains, taken, offered, queueSize, open, id);
      if clients[id].queue[0].Live? { StaysAttended(clients[id]); }
      TakeEarned(clients[id], OffersUpTo(f, script, n), ClosingsUpTo(script, n), queueSize);
      item := Take(id);
      taken' := taken[id];
      frames := if item.Live? && !Repeats(item.frame, position) then given + [item.frame] else given;
    }

    /** The consumer leaves, or the stream ends, between two frames: with an empty queue it has everything that
        was ever offered to it, and the whole chain if the broker is open and still attends to it. */
    ghost method Leave(id: nat, f: Filter, t: Chains, d: nat, frames: seq<Frame>, position: Position, from: nat,
                       replayed: nat)
      returns (upTo: nat)
      requires Followed(id, f, t, d) && InProgress(f, log.store.chains, frames, position, from, replayed, d)
      ensures Delivered(f, ChainOf(log.store.chains, f.sessionId), frames, from, upTo) && upTo >= d
      ensures id in clients && id in offered && (clients[id].queue == [] ==> upTo >= offered[id])
      ensures clients[id].queue == [] && open && Attended(clients[id])
              ==> upTo == |ChainOf(log.store.chains, f.sessionId)|
    {
      hide InStep, AllInStep, Intact, Grew, InProgress, Delivered;
      SameKeys(clients, log.store.chains, taken, offered, queueSize, open);
      if clients[id].queue == [] {
        upTo := NothingLeft(clients, log.store.chains, taken, offered, queueSize, open, id, frames, position, from,
                            replayed);
      } else {
        upTo := InProgressUpTo(f, log.store.chains, frames, position, from, replayed, d);
      }
    }

    /** The live phase: the queue, frame by frame, without what the replay already delivered.  The consumer
        leaves with its last frame, or having waited `idle` times in vain. */
    method GoLive(id: nat, ghost f: Filter, ghost t: Chains, ghost d: nat, script: Script, ghost from: nat,
                  given: seq<Frame>, position: Position,
                  budget: nat, idle: nat, ghost replayed: nat)
      returns (frames: seq<Frame>, ending: Ending, caughtUp: bool, ghost upTo: nat)
      requires Streaming(id, f, t, d, script, |given|)
               && InProgress(f, log.store.chains, given, position, from, replayed, d)
      modifies this, log`last, log.store
      ensures Valid() && Grew(t, log.store.chains) && id in clients && clients[id].filter == f && id in offered
      ensures Delivered(f, ChainOf(log.store.chains, f.sessionId), frames, from, upTo) && upTo >= d
      ensures caughtUp <==> ending.Stopped? && open && clients[id].queue == []
      ensures caughtUp ==> upTo == |ChainOf(log.store.chains, f.sessionId)|
      ensures ending.Stopped? ==> |frames| == |given| + budget + 1 || clients[id].queue == []
      ensures !ending.Stopped? ==> clients[id].queue == [] && upTo >= offered[id]
      ensures |frames| <= |given| + budget + 1
      ensures ending.DroppedByBroker? ==> id in dropped && OffersUpTo(f, script, |frames| + idle) > queueSize
      ensures ending.ClosedByBroker? ==> !open && ClosingsUpTo(script, |frames| + idle) > 0
    {
      hide Valid, OffersUpTo, ClosingsUpTo, Earned, Intact, Grew, InProgress, Delivered, Attended;
      assert id in clients;
      frames := given;
      var patience, waits, n: nat := budget, idle, |given|;
      ghost var d0, d := d, d;
      while true
        invariant Streaming(id, f, t, d, script, n) && id in clients && d >= d0 && n == |frames| + idle - waits
        invariant InProgress(f, log.store.chains, frames, position, from, replayed, d)
        invariant |frames| + patience == |given| + budget
        decreases patience + waits, |clients[id].queue|
      {
        var pause := false;
        if clients[id].queue == [] {
          if waits == 0 {
            upTo := Leave(id, f, t, d, frames, position, from, replayed);
            return frames, Stopped, open, upTo;
          }
          waits, pause := waits - 1, true;
        } else {
          var item;
          item, frames, d := TakeNext(id, f, t, d, script, n, frames, position, from, replayed);
          if !item.Live? {
            CountsAddUp(f, script, n, |frames| + idle);
            upTo := Leave(id, f, t, d, frames, position, from, replayed);
            return frames, if item.DroppedSignal? then DroppedByBroker else ClosedByBroker, false, upTo;
          }
          if !Repeats(item.frame, position) {
            if patience == 0 {
              upTo := Leave(id, f, t, d, frames, position, from, replayed);
              return frames, Stopped, open && clients[id].queue == [], upTo;
            }
            patience, pause := patience - 1, true;
          }
        }
        if pause {
          ghost var before := log.store.chains;
          Pause(id, f, t, d, script, n);
          n := n + 1;
          InProgressGrows(f, before, log.store.chains, frames, position, from, replayed, d);
        }
      }
    }

    /** A whole stream, from registration to the departure of the consumer or the end of the stream.  The
        audited frames delivered are exactly the accepted events after the position asked for, or after the
        registration when none was, up to some number: each once, in order, without a gap.  The consumer
        leaves with `budget + 1` frames in hand, or with nothing left to take after `idle` waits, and then it
        has everything up to the very last event; when the broker ends the stream it has everything that
        was offered before.  It is dropped only if more than a queue of accepted frames was published while it was
        suspended, and closed out only if the broker was closed then. */
    method Subscribe(f: Filter, lastEventId: Option<string>, budget: nat, idle: nat, script: Script)
      returns (id: nat, frames: seq<Frame>, ending: Ending, caughtUp: bool, ghost replayDone: bool, ghost from: nat,
               ghost upTo: nat)
      requires Valid()
      modifies this, log`last, log.store
      ensures Valid() && Grew(old(log.store.chains), log.store.chains)
      ensures id !in old(clients) && id in clients && clients[id].filter == f && !clients[id].active && id in offered
      ensures var start := if lastEventId.Some? then ParseEventId(lastEventId.value) else None;
              && from == (if start.Some? then start.value.0 else |ChainOf(old(log.store.chains), f.sessionId)|)
              && (start.None? ==> replayDone)
      ensures Delivered(f, ChainOf(log.store.chains, f.sessionId), frames, from, upTo)
      ensures JustTheWanted(f, ChainOf(log.store.chains, f.sessionId), frames, from, upTo)
      ensures replayDone ==> upTo >= |ChainOf(old(log.store.chains), f.sessionId)|
      ensures !replayDone ==> ending.Stopped? && |frames| == budget + 1
      ensures ending.Stopped? ==> |frames| == budget + 1 || (replayDone && clients[id].queue == [])
      ensures caughtUp <==> replayDone && ending.Stopped? && open && clients[id].queue == []
      ensures caughtUp ==> upTo == |ChainOf(log.store.chains, f.sessionId)|
      ensures !ending.Stopped? ==> clients[id].queue == [] && upTo >= offered[id]
      ensures |frames| <= budget + 1
      ensures ending.DroppedByBroker? ==> id in dropped && OffersUpTo(f, script, |frames| + idle) > queueSize
      ensures ending.ClosedByBroker? ==> !open && ClosingsUpTo(script, |frames| + idle) > 0
    {
      hide Streaming, InStep, AllInStep, Intact, Grew, Replayed, InProgress, Delivered, ParseEventId, SignalsFit,
           JustTheWanted;
      GrewSelf(log);
      ghost var t := log.store.chains;
      ghost var d := |ChainOf(t, f.sessionId)|;
      IntactNumbered(log);
      NoReplay(f, t);
      id := Register(f);
      BeginStreaming(id, f, t, d, script);
      var start: Position := if lastEventId.Some? then ParseEventId(lastEventId.value) else None;
      var position, patience := start, budget;
      frames, replayDone := [], true;
      from := if start.Some? then start.value.0 else d;
      ghost var replayed := d;
      if start.Some? {
        var stopped;
        frames, position, patience, stopped, replayed :=
            Replay(id, f, t, d, script, start.value.0, start.value.1, budget);
        if stopped {
          upTo := ReplayedUpTo(f, log.store.chains, frames, position, from, replayed, d);
          Depart(id, f, t, d, script, |frames|);
          DeliveredIsWanted(f, ChainOf(log.store.chains, f.sessionId), frames, from, upTo);
          return id, frames, Stopped, false, false, from, upTo;
        }
        ReplayDone(f, log.store.chains, frames, position, from, replayed, d);
      }
      frames, ending, caughtUp, upTo := GoLive(id, f, t, d, script, from, frames, position, patience, idle, replayed);
      Forget(id);
      DeliveredIsWanted(f, ChainOf(log.store.chains, f.sessionId), frames, from, upTo);
    }

    method Depart(id: nat, ghost f: Filter, ghost t: Chains, ghost d: nat, ghost script: Script, ghost n: nat)
      requires Streaming(id, f, t, d, script, n)
      modifies this`clients
      ensures Valid() && Grew(t, log.store.chains)
      ensures id in clients && id in offered && clients[id].filter == f && !clients[id].active
    {
      SameKeys(clients, log.store.chains, taken, offered, queueSize, open);
      Forget(id);
    }
  }

  function Min(a: nat, b: nat): nat {
    if a < b then a else b
  }

  function Left(chain: seq<AuditEvent>, cursor: nat): nat {
    if cursor <= |chain| then |chain| - cursor else 0
  }

  /** What the store answers for a page, in an intact chain. */
  lemma PageAt(h: Hash, chains: Chains, f: Filter, cursor: nat)
    requires Intact(h, ChainOf(chains, f.sessionId), f.sessionId)
    ensures var chain := ChainOf(chains, f.sessionId);
            var page := Page(chain, Some(cursor), REPLAY_PAGE_SIZE);
            && (cursor > |chain| ==> page == [])
            && (cursor <= |chain| ==> IsPage(chains, f, page, cursor))
            && (|page| < REPLAY_PAGE_SIZE ==> Min(cursor, |chain|) + |page| == |chain|)
            && (page != [] ==> page[|page| - 1].body.sequence == cursor + |page|)
  {
    var chain := ChainOf(chains, f.sessionId);
    LinkedIsIncreasing(h, chain);
    AfterIsSuffix(chain, Min(cursor, |chain|), cursor);
    PageIsSlice(chain, Some(cursor), REPLAY_PAGE_SIZE, Min(cursor, |chain|));
  }

  /** A replay about to read from a cursor: it went that far, or has just started. */
  ghost predicate AtCursor(f: Filter, chains: Chains, frames: seq<Frame>, position: Position, from: nat, count: nat,
                           cursor: nat, taken: nat) {
    && Numbered(ChainOf(chains, f.sessionId), f.sessionId) && from <= cursor
    && (|| Replayed(f, chains, frames, position, from, cursor, taken)
        || (cursor == from && frames == [] && position == Some((from, count))))
  }

  lemma CursorFacts(f: Filter, chains: Chains, frames: seq<Frame>, position: Position, from: nat, count: nat,
                    cursor: nat, taken: nat)
    requires AtCursor(f, chains, frames, position, from, count, cursor, taken)
    ensures from <= cursor
    ensures Replayed(f, chains, frames, position, from, Min(cursor, |ChainOf(chains, f.sessionId)|), taken)
  {
    if cursor == from && frames == [] && position == Some((from, count)) {
      ReplayFrom(f, chains, from, count, Min(from, |ChainOf(chains, f.sessionId)|), taken);
    }
  }

  lemma ReplayedIsAtCursor(f: Filter, chains: Chains, frames: seq<Frame>, position: Position, from: nat, count: nat,
                           replayed: nat, taken: nat)
    requires Replayed(f, chains, frames, position, from, replayed, taken) && from <= replayed
    ensures AtCursor(f, chains, frames, position, from, count, replayed, taken)
    ensures replayed <= |ChainOf(chains, f.sessionId)|
  {
  }

  lemma StartIsAtCursor(f: Filter, chains: Chains, from: nat, count: nat, taken: nat)
    requires Numbered(ChainOf(chains, f.sessionId), f.sessionId)
    ensures AtCursor(f, chains, [], Some((from, count)), from, count, from, taken)
  {
  }

  lemma TakenWithin(clients: map<nat, Client>, chains: Chains, taken: map<nat, nat>, offered: map<nat, nat>,
                    queueSize: nat, live: bool, id: nat)
    requires AllInStep(clients, chains, taken, offered, queueSize, live) && id in clients
    ensures id in taken && taken[id] <= |ChainOf(chains, clients[id].filter.sessionId)|
  {
  }

  /** A replay that starts at `from` has nothing to show for anything before. */
  lemma ReplayFrom(f: Filter, chains: Chains, from: nat, count: nat, k: nat, taken: nat)
    requires Numbered(ChainOf(chains, f.sessionId), f.sessionId) && k <= from && k <= |ChainOf(chains, f.sessionId)|
    ensures Replayed(f, chains, [], Some((from, count)), from, k, taken)
  {
  }

  /** A stream between two frames of the live phase. */
  ghost predicate InProgress(f: Filter, chains: Chains, frames: seq<Frame>, position: Position, from: nat,
                             replayed: nat, taken: nat) {
    var chain := ChainOf(chains, f.sessionId);
    Aligned(f, chain, position, from, replayed, taken) && Delivered(f, chain, frames, from, Max(replayed, taken))
  }

  lemma InProgressGrows(f: Filter, chains: Chains, longer: Chains, frames: seq<Frame>, position: Position, from: nat,
                        replayed: nat, taken: nat)
    requires InProgress(f, chains, frames, position, from, replayed, taken) && Grew(chains, longer)
    ensures InProgress(f, longer, frames, position, from, replayed, taken)
  {
    DeliveredGrows(f, ChainOf(chains, f.sessionId), ChainOf(longer, f.sessionId), frames, from, Max(replayed, taken));
    AlignedGrows(f, ChainOf(chains, f.sessionId), ChainOf(longer, f.sessionId), position, from, replayed, taken);
  }

  lemma NoReplay(f: Filter, chains: Chains)
    requires Numbered(ChainOf(chains, f.sessionId), f.sessionId)
    ensures var n := |ChainOf(chains, f.sessionId)|; InProgress(f, chains, [], None, n, n, n)
  {
  }

  lemma ReplayDone(f: Filter, chains: Chains, frames: seq<Frame>, position: Position, from: nat, replayed: nat,
                   taken: nat)
    requires Replayed(f, chains, frames, position, from, replayed, taken) && replayed >= taken
    ensures InProgress(f, chains, frames, position, from, replayed, taken)
  {
  }

  lemma ReplayedUpTo(f: Filter, chains: Chains, frames: seq<Frame>, position: Position, from: nat, replayed: nat,
                     taken: nat) returns (upTo: nat)
    requires Replayed(f, chains, frames, position, from, replayed, taken)
    ensures Delivered(f, ChainOf(chains, f.sessionId), frames, from, upTo)
  {
    upTo := replayed;
  }

  lemma InProgressUpTo(f: Filter, chains: Chains, frames: seq<Frame>, position: Position, from: nat, replayed: nat,
                       taken: nat) returns (upTo: nat)
    requires InProgress(f, chains, frames, position, from, replayed, taken)
    ensures Delivered(f, ChainOf(chains, f.sessionId), frames, from, upTo) && upTo >= taken
  {
    upTo := Max(replayed, taken);
  }

  lemma SignalIsLast(clients: map<nat, Client>, chains: Chains, taken: map<nat, nat>, offered: map<nat, nat>,
                     queueSize: nat, live: bool, id: nat)
    requires AllInStep(clients, chains, taken, offered, queueSize, live) && id in clients && clients[id].queue != []
    ensures !clients[id].queue[0].Live? ==> clients[id].queue[1..] == []
  {
  }

  lemma StaysAttended(c: Client)
    requires Attended(c) && c.queue != [] && c.queue[0].Live?
    ensures Attended(c.(queue := c.queue[1..]))
  {
    if x :| x in c.queue && !x.Live? { assert x in c.queue[1..]; }
  }

  /** The next item of the queue, and what it does to the stream. */
  lemma OneTaken(clients: map<nat, Client>, chains: Chains, taken: map<nat, nat>, offered: map<nat, nat>,
                 queueSize: nat, live: bool, id: nat,
                 frames: seq<Frame>, position: Position, from: nat, replayed: nat)
    requires AllInStep(clients, chains, taken, offered, queueSize, live) && id in clients && id in taken
             && clients[id].queue != []
    requires InProgress(clients[id].filter, chains, frames, position, from, replayed, taken[id])
    ensures var f, item := clients[id].filter, clients[id].queue[0];
            && (!item.Live? ==> InProgress(f, chains, frames, position, from, replayed, Passed(taken[id], item)))
            && (item.Live? ==>
                  InProgress(f, chains, if Repeats(item.frame, position) then frames else frames + [item.frame],
                             position, from, replayed,
                             Passed(taken[id], item)))
  {
    var c := clients[id];
    if c.queue[0].Live? {
      LiveStep(c.filter, ChainOf(chains, c.filter.sessionId), c.queue, taken[id], offered[id], frames, position, from,
               replayed);
    }
  }

  /** Nothing is left in the queue: the client has everything it was offered, which is the whole chain as long
      as the broker attends to it. */
  lemma NothingLeft(clients: map<nat, Client>, chains: Chains, taken: map<nat, nat>, offered: map<nat, nat>,
                    queueSize: nat, live: bool, id: nat,
                    frames: seq<Frame>, position: Position, from: nat, replayed: nat) returns (upTo: nat)
    requires AllInStep(clients, chains, taken, offered, queueSize, live) && id in clients && id in taken
             && clients[id].queue == []
    requires InProgress(clients[id].filter, chains, frames, position, from, replayed, taken[id])
    ensures id in offered && upTo >= offered[id] && upTo >= taken[id]
    ensures Delivered(clients[id].filter, ChainOf(chains, clients[id].filter.sessionId), frames, from, upTo)
    ensures live && Attended(clients[id]) ==> upTo == |ChainOf(chains, clients[id].filter.sessionId)|
  {
    var f := clients[id].filter;
    var chain := ChainOf(chains, f.sessionId);
    var w := Max(replayed, taken[id]);
    upTo := Max(w, offered[id]);
    if offered[id] > w {
      DeliveredFurther(f, chain, frames, from, taken[id], w, offered[id]);
    }
  }

  /** A page read at some moment: a stretch of the chain as it was then. */
  ghost predicate IsPage(chains: Chains, f: Filter, page: seq<AuditEvent>, at: nat) {
    var chain := ChainOf(chains, f.sessionId);
    at + |page| <= |chain| && page == chain[at..at + |page|]
  }

  /** The state of a replay that went through number `replayed`. */
  ghost predicate Replayed(f: Filter, chains: Chains, frames: seq<Frame>, position: Position, from: nat, replayed: nat,
                           taken: nat) {
    var chain := ChainOf(chains, f.sessionId);
    position.Some? && Delivered(f, chain, frames, from, replayed) && Aligned(f, chain, position, from, replayed, taken)
  }

  lemma ReplayedGrows(f: Filter, chains: Chains, longer: Chains, frames: seq<Frame>, position: Position, from: nat,
                      replayed: nat, taken: nat)
    requires Replayed(f, chains, frames, position, from, replayed, taken) && Grew(chains, longer)
    ensures Replayed(f, longer, frames, position, from, replayed, taken)
  {
    DeliveredGrows(f, ChainOf(chains, f.sessionId), ChainOf(longer, f.sessionId), frames, from, replayed);
    AlignedGrows(f, ChainOf(chains, f.sessionId), ChainOf(longer, f.sessionId), position, from, replayed, taken);
  }

  /** One more event of the page behind the replay. */
  lemma OneReplayed(f: Filter, earlier: Chains, now: Chains, frames: seq<Frame>, position: Position, from: nat, at: nat,
                    k: nat,
                    page: seq<AuditEvent>, i: nat, taken: nat)
    requires Grew(earlier, now) && from <= at && i < |page| && k == at + i
    requires IsPage(earlier, f, page, at)
    requires Replayed(f, now, frames, position, from, k, taken)
    ensures page[i].body.sequence == k + 1
    ensures Accepts(f, page[i].body.content) ==>
              Replayed(f, now, frames + [FrameOf(page[i])], Some((page[i].body.sequence, 0)), from, k + 1, taken)
    ensures !Accepts(f, page[i].body.content) ==> Replayed(f, now, frames, position, from, k + 1, taken)
  {
    var chain := ChainOf(now, f.sessionId);
    assert page[i] == ChainOf(earlier, f.sessionId)[k] == chain[k];
    ReplayStep(f, chain, frames, from, k);
    if !Accepts(f, chain[k].body.content) && position.value.0 <= k {
      SelectionSteps(f, chain, position.value.0, k);
    }
  }

  lemma GrewInTheLog(log: AuditLog, chains: Chains)
    requires log.Valid() && forall s :: ChainOf(chains, s) <= ChainOf(log.store.chains, s)
    ensures Grew(chains, log.store.chains)
  {
    IntactNumbered(log);
  }

  lemma GrewSelf(log: AuditLog)
    requires log.Valid()
    ensures Grew(log.store.chains, log.store.chains)
  {
    IntactNumbered(log);
  }

  lemma GrewTransitive(a: Chains, b: Chains, c: Chains)
    requires Grew(a, b) && Grew(b, c)
    ensures Grew(a, c)
  {
    forall s ensures ChainOf(a, s) <= ChainOf(c, s) {
      assert ChainOf(a, s) <= ChainOf(b, s) <= ChainOf(c, s);
    }
  }

  lemma SameKeys(clients: map<nat, Client>, chains: Chains, taken: map<nat, nat>, offered: map<nat, nat>,
                 queueSize: nat, live: bool)
    requires AllInStep(clients, chains, taken, offered, queueSize, live)
    ensures taken.Keys == clients.Keys && offered.Keys == clients.Keys
  {
  }

  lemma LastIsLength(h: Hash, chain: seq<AuditEvent>, sid: string)
    requires Intact(h, chain, sid)
    ensures chain != [] ==> chain[|chain| - 1].body.sequence == |chain|
  {
  }

  lemma IntactNumbered(log: AuditLog)
    requires log.Valid()
    ensures forall s :: Numbered(ChainOf(log.store.chains, s), s)
  {
    forall s ensures Numbered(ChainOf(log.store.chains, s), s) {
      assert Intact(log.h, ChainOf(log.store.chains, s), s);
    }
  }
}

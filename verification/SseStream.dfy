/**
 What a client of the event stream may see: the audited events of its session after a position, through
 its filters.  The queue of a client holds a stretch of them in order, with live output in between.
 */
module SseStream {
  import opened Options
  import opened AuditChain

  datatype Filter = Filter(sessionId: string, taskId: Option<string>, eventTypes: Option<set<string>>)

  predicate Accepts(f: Filter, c: Content) {
    && c.sessionId == f.sessionId
    && (f.taskId.Some? ==> c.taskId == f.taskId)
    && (f.eventTypes.Some? ==> c.eventType in f.eventTypes.value)
  }

  /** A frame is identified by `sequence` when it is audited, by `sequence.count` when it is not. */
  datatype Frame = Frame(sequence: nat, count: nat, eventId: Option<string>, content: Content)

  predicate AuditedFrame(f: Frame) {
    f.count == 0
  }

  function FrameOf(e: AuditEvent): Frame
    requires e.body.sequence >= 0
  {
    Frame(e.body.sequence, 0, Some(e.body.eventId), e.body.content)
  }

  datatype Item = Live(frame: Frame) | DroppedSignal | ClosedSignal

  /** The accepted events numbered in `(a, b]`, in order. */
  function Selection(f: Filter, chain: seq<AuditEvent>, a: nat, b: nat): seq<Frame>
    requires b <= |chain| && Numbered(chain, f.sessionId)
  {
    if b <= a then []
    else Selection(f, chain, a, b - 1) + (if Accepts(f, chain[b - 1].body.content) then [FrameOf(chain[b - 1])] else [])
  }

  // ---- the selection is what a resumed stream owes its client -----------------------------------------

  /** Exactly the accepted events after `a` and up to `b`, each once, in increasing order. */
  lemma {:induction false} SelectionIsExact(f: Filter, chain: seq<AuditEvent>, a: nat, b: nat)
    requires b <= |chain| && Numbered(chain, f.sessionId)
    ensures var s := Selection(f, chain, a, b);
            && (forall x | x in s ::
                  a < x.sequence <= b && x == FrameOf(chain[x.sequence - 1]) && Accepts(f, x.content))
            && (forall i | a <= i < b && Accepts(f, chain[i].body.content) :: FrameOf(chain[i]) in s)
            && (forall i, j | 0 <= i < j < |s| :: s[i].sequence < s[j].sequence)
  {
    if b > a { SelectionIsExact(f, chain, a, b - 1); }
  }

  lemma {:induction false} SelectionOfPrefix(f: Filter, chain: seq<AuditEvent>, longer: seq<AuditEvent>, a: nat, b: nat)
    requires chain <= longer && b <= |chain| && Numbered(longer, f.sessionId)
    ensures Numbered(chain, f.sessionId) && Selection(f, chain, a, b) == Selection(f, longer, a, b)
  {
    if b > a { SelectionOfPrefix(f, chain, longer, a, b - 1); }
  }

  lemma {:induction false} SelectionSplits(f: Filter, chain: seq<AuditEvent>, a: nat, m: nat, b: nat)
    requires a <= m <= b <= |chain| && Numbered(chain, f.sessionId)
    ensures Selection(f, chain, a, b) == Selection(f, chain, a, m) + Selection(f, chain, m, b)
  {
    if b > m { SelectionSplits(f, chain, a, m, b - 1); }
  }

  lemma SelectionSteps(f: Filter, chain: seq<AuditEvent>, a: nat, k: nat)
    requires a <= k < |chain| && Numbered(chain, f.sessionId)
    ensures Selection(f, chain, a, k + 1)
         == Selection(f, chain, a, k) + (if Accepts(f, chain[k].body.content) then [FrameOf(chain[k])] else [])
  {
  }

  /** Reconnecting with the number of the last frame received, audited or not, loses nothing and repeats
      nothing: any number `q` past which nothing of the first stretch was left out will do. */
  lemma ResumeLosesNothing(f: Filter, chain: seq<AuditEvent>, s: nat, m: nat, q: nat, b: nat)
    requires Numbered(chain, f.sessionId) && s <= q <= m <= b <= |chain|
    requires Selection(f, chain, q, m) == []
    ensures Selection(f, chain, s, m) + Selection(f, chain, q, b) == Selection(f, chain, s, b)
  {
    SelectionSplits(f, chain, s, m, b);
    SelectionSplits(f, chain, q, m, b);
  }

  /** The number of the last frame of a selection, or where it started. */
  function LastNumber(frames: seq<Frame>, s: nat): nat {
    if frames == [] then s else frames[|frames| - 1].sequence
  }

  lemma NothingSelected(f: Filter, chain: seq<AuditEvent>, a: nat, b: nat)
    requires b <= |chain| && b <= a && Numbered(chain, f.sessionId)
    ensures Selection(f, chain, a, b) == []
  {
  }

  /** The number of the last audited frame received is such a number. */
  lemma {:induction false} NothingAfterTheLast(f: Filter, chain: seq<AuditEvent>, s: nat, m: nat)
    requires Numbered(chain, f.sessionId) && m <= |chain|
    ensures var q := LastNumber(Selection(f, chain, s, m), s);
            s <= q && (q <= m || q == s) && Selection(f, chain, q, m) == []
  {
    hide Selection, Accepts;
    if m <= s {
      NothingSelected(f, chain, s, m);
    } else {
      NothingAfterTheLast(f, chain, s, m - 1);
      SelectionSteps(f, chain, s, m - 1);
      if Accepts(f, chain[m - 1].body.content) {
        NothingSelected(f, chain, m, m);
      } else {
        var q := LastNumber(Selection(f, chain, s, m - 1), s);
        SelectionSteps(f, chain, q, m - 1);
      }
    }
  }

  // ---- the queue -----------------------------------------------------------------------------------------

  /** Everything accepted up to this frame has been taken once the frame is. */
  function Passed(taken: nat, item: Item): nat {
    if item.Live? && item.frame.sequence > taken then item.frame.sequence else taken
  }

  /** From number `taken` on, the queue holds exactly the accepted events up to number `offered`; an output
      frame comes after every accepted event its own number covers; a signal is the last thing in it. */
  ghost predicate InOrder(f: Filter, chain: seq<AuditEvent>, queue: seq<Item>, taken: nat, offered: nat)
    decreases queue
  {
    && Numbered(chain, f.sessionId) && taken <= offered <= |chain|
    && if queue == [] then Selection(f, chain, taken, offered) == []
       else match queue[0]
         case Live(x) =>
           && x.sequence <= offered && Accepts(f, x.content)
           && (if AuditedFrame(x) then
                 && x.sequence > taken && x == FrameOf(chain[x.sequence - 1])
                 && Selection(f, chain, taken, x.sequence - 1) == []
               else x.sequence >= taken && Selection(f, chain, taken, x.sequence) == [])
           && InOrder(f, chain, queue[1..], Passed(taken, queue[0]), offered)
         case _ => |queue| == 1 && Selection(f, chain, taken, offered) == []
  }

  predicate NoSignal(queue: seq<Item>) {
    forall x | x in queue :: x.Live?
  }

  /** The chain grows behind a queue that no longer takes part. */
  lemma {:induction false} ChainGrows(f: Filter, chain: seq<AuditEvent>, longer: seq<AuditEvent>, queue: seq<Item>,
                                      taken: nat, offered: nat)
    requires InOrder(f, chain, queue, taken, offered) && chain <= longer && Numbered(longer, f.sessionId)
    ensures InOrder(f, longer, queue, taken, offered)
    decreases queue
  {
    SelectionOfPrefix(f, chain, longer, taken, offered);
    if queue != [] && queue[0].Live? {
      var x := queue[0].frame;
      SelectionOfPrefix(f, chain, longer, taken, x.sequence);
      if AuditedFrame(x) { SelectionOfPrefix(f, chain, longer, taken, x.sequence - 1); }
      ChainGrows(f, chain, longer, queue[1..], Passed(taken, queue[0]), offered);
    }
  }

  /** The event that follows is of no interest to this client. */
  lemma {:induction false} EventPassesBy(f: Filter, chain: seq<AuditEvent>, queue: seq<Item>, taken: nat, offered: nat)
    requires InOrder(f, chain, queue, taken, offered) && NoSignal(queue)
    requires offered < |chain| && !Accepts(f, chain[offered].body.content)
    ensures InOrder(f, chain, queue, taken, offered + 1)
    decreases queue
  {
    if queue != [] {
      assert queue[0] in queue && NoSignal(queue[1..]);
      EventPassesBy(f, chain, queue[1..], Passed(taken, queue[0]), offered);
    }
  }

  /** The event that follows is queued. */
  lemma {:induction false} EventIsQueued(f: Filter, chain: seq<AuditEvent>, queue: seq<Item>, taken: nat, offered: nat)
    requires InOrder(f, chain, queue, taken, offered) && NoSignal(queue)
    requires offered < |chain| && Accepts(f, chain[offered].body.content)
    ensures InOrder(f, chain, queue + [Live(FrameOf(chain[offered]))], taken, offered + 1)
    decreases queue
  {
    var x := Live(FrameOf(chain[offered]));
    if queue == [] {
      assert [x][1..] == [];
      assert Selection(f, chain, offered + 1, offered + 1) == [];
    } else {
      assert queue[0] in queue && NoSignal(queue[1..]);
      EventIsQueued(f, chain, queue[1..], Passed(taken, queue[0]), offered);
      assert (queue + [x])[1..] == queue[1..] + [x];
    }
  }

  /** A frame that is not audited is queued behind everything its number covers. */
  lemma {:induction false} OutputIsQueued(f: Filter, chain: seq<AuditEvent>, queue: seq<Item>, taken: nat, x: Frame)
    requires InOrder(f, chain, queue, taken, x.sequence) && NoSignal(queue) && !AuditedFrame(x)
    requires Accepts(f, x.content)
    ensures InOrder(f, chain, queue + [Live(x)], taken, x.sequence)
    decreases queue
  {
    if queue == [] {
      assert [Live(x)][1..] == [];
      assert Selection(f, chain, x.sequence, x.sequence) == [];
    } else {
      assert queue[0] in queue && NoSignal(queue[1..]);
      OutputIsQueued(f, chain, queue[1..], Passed(taken, queue[0]), x);
      assert (queue + [Live(x)])[1..] == queue[1..] + [Live(x)];
    }
  }

  lemma {:induction false} SignalIsQueued(f: Filter, chain: seq<AuditEvent>, queue: seq<Item>, taken: nat, offered: nat,
                                          signal: Item)
    requires InOrder(f, chain, queue, taken, offered) && NoSignal(queue) && !signal.Live?
    ensures InOrder(f, chain, queue + [signal], taken, offered)
    decreases queue
  {
    if queue != [] {
      assert queue[0] in queue && NoSignal(queue[1..]);
      SignalIsQueued(f, chain, queue[1..], Passed(taken, queue[0]), offered, signal);
      assert (queue + [signal])[1..] == queue[1..] + [signal];
    }
  }

  // ---- what the client has received ------------------------------------------------------------------------

  function AuditedOf(frames: seq<Frame>): seq<Frame> {
    if frames == [] then []
    else AuditedOf(frames[..|frames| - 1]) + (if AuditedFrame(frames[|frames| - 1]) then [frames[|frames| - 1]] else [])
  }

  lemma OneMoreFrame(frames: seq<Frame>, x: Frame)
    ensures AuditedOf(frames + [x]) == AuditedOf(frames) + (if AuditedFrame(x) then [x] else [])
  {
    assert (frames + [x])[..|frames|] == frames;
  }

  /** Every frame received is accepted, the audited ones are the accepted events in `(from, upTo]`, and past
      the number of the last frame, whatever its kind, nothing up to there was left out. */
  ghost predicate Delivered(f: Filter, chain: seq<AuditEvent>, frames: seq<Frame>, from: nat, upTo: nat) {
    && Numbered(chain, f.sessionId) && upTo <= |chain|
    && (forall x | x in frames :: Accepts(f, x.content))
    && AuditedOf(frames) == Selection(f, chain, from, upTo)
    && (frames != [] ==>
          var q := frames[|frames| - 1].sequence;
          from <= q <= upTo && Selection(f, chain, q, upTo) == [])
  }

  lemma DeliveredGrows(f: Filter, chain: seq<AuditEvent>, longer: seq<AuditEvent>, frames: seq<Frame>, from: nat,
                       upTo: nat)
    requires Delivered(f, chain, frames, from, upTo) && chain <= longer && Numbered(longer, f.sessionId)
    ensures Delivered(f, longer, frames, from, upTo)
  {
    SelectionOfPrefix(f, chain, longer, from, upTo);
    if frames != [] { SelectionOfPrefix(f, chain, longer, frames[|frames| - 1].sequence, upTo); }
  }

  /** Nothing is accepted in a stretch: what was received up to its beginning is complete up to its end. */
  lemma EmptyStretch(f: Filter, chain: seq<AuditEvent>, from: nat, d: nat, w: nat, k: nat)
    requires Numbered(chain, f.sessionId) && d <= w <= k <= |chain| && Selection(f, chain, d, k) == []
    ensures Selection(f, chain, from, k) == Selection(f, chain, from, w)
  {
    SelectionSplits(f, chain, d, w, k);
    if from <= w {
      SelectionSplits(f, chain, from, w, k);
    } else if from <= k {
      SelectionSplits(f, chain, w, from, k);
    }
  }

  lemma DeliveredFurther(f: Filter, chain: seq<AuditEvent>, frames: seq<Frame>, from: nat, d: nat, w: nat, k: nat)
    requires Delivered(f, chain, frames, from, w) && d <= w <= k <= |chain| && Selection(f, chain, d, k) == []
    ensures Delivered(f, chain, frames, from, k)
  {
    EmptyStretch(f, chain, from, d, w, k);
    if frames != [] { EmptyStretch(f, chain, frames[|frames| - 1].sequence, d, w, k); }
  }

  /** After a disconnection: the stream resumed from the number of the last frame completes the first one. */
  lemma ReconnectionCompletes(f: Filter, chain: seq<AuditEvent>, frames: seq<Frame>, from: nat, upTo: nat, b: nat)
    requires Delivered(f, chain, frames, from, upTo) && upTo <= b <= |chain|
    ensures var q := if frames == [] then from else frames[|frames| - 1].sequence;
            AuditedOf(frames) + Selection(f, chain, q, b) == Selection(f, chain, from, b)
  {
    if frames != [] {
      ResumeLosesNothing(f, chain, from, upTo, frames[|frames| - 1].sequence, b);
    } else if from <= upTo {
      SelectionSplits(f, chain, from, upTo, b);
    }
  }

  // ---- replay, then live -------------------------------------------------------------------------------------

  type Position = Option<(nat, nat)>

  /** The live frame is at or before the position: it was delivered by the replay. */
  predicate Repeats(x: Frame, position: Position) {
    position.Some? && (x.sequence < position.value.0 || (x.sequence == position.value.0 && x.count <= position.value.1))
  }

  /** The replay went through number `replayed`: the position is past every accepted event it met. */
  ghost predicate Aligned(f: Filter, chain: seq<AuditEvent>, position: Position, from: nat, replayed: nat, taken: nat) {
    && Numbered(chain, f.sessionId) && replayed <= |chain|
    && (position.None? ==> replayed <= from <= taken)
    && (position.Some? ==>
          && from <= position.value.0 && (position.value.0 <= replayed || position.value.0 == from)
          && Selection(f, chain, position.value.0, replayed) == [])
  }

  lemma AlignedGrows(f: Filter, chain: seq<AuditEvent>, longer: seq<AuditEvent>, position: Position, from: nat,
                     replayed: nat, taken: nat)
    requires Aligned(f, chain, position, from, replayed, taken) && chain <= longer && Numbered(longer, f.sessionId)
    ensures Aligned(f, longer, position, from, replayed, taken)
  {
    if position.Some? { SelectionOfPrefix(f, chain, longer, position.value.0, replayed); }
  }

  function Max(a: nat, b: nat): nat {
    if a < b then b else a
  }

  /** One accepted event replayed. */
  lemma ReplayStep(f: Filter, chain: seq<AuditEvent>, frames: seq<Frame>, from: nat, k: nat)
    requires Delivered(f, chain, frames, from, k) && from <= k < |chain|
    ensures Accepts(f, chain[k].body.content) ==> Delivered(f, chain, frames + [FrameOf(chain[k])], from, k + 1)
    ensures !Accepts(f, chain[k].body.content) ==> Delivered(f, chain, frames, from, k + 1)
  {
    OneMoreFrame(frames, FrameOf(chain[k]));
    if !Accepts(f, chain[k].body.content) {
      assert Selection(f, chain, k, k + 1) == [];
      DeliveredFurther(f, chain, frames, from, k, k, k + 1);
    }
  }

  /** One frame taken from the queue: skipped when it repeats the replay, delivered otherwise. */
  lemma LiveStep(f: Filter, chain: seq<AuditEvent>, queue: seq<Item>, taken: nat, offered: nat,
                 frames: seq<Frame>, position: Position, from: nat, replayed: nat)
    requires InOrder(f, chain, queue, taken, offered) && queue != [] && queue[0].Live?
    requires Aligned(f, chain, position, from, replayed, taken)
    requires Delivered(f, chain, frames, from, Max(replayed, taken))
    ensures var x := queue[0].frame;
            Delivered(f, chain, if Repeats(x, position) then frames else frames + [x], from,
                      Max(replayed, Passed(taken, queue[0])))
  {
    if AuditedFrame(queue[0].frame) {
      hide *;
      LiveAudited(f, chain, queue, taken, offered, frames, position, from, replayed);
    } else {
      hide *;
      LiveOutput(f, chain, queue, taken, offered, frames, position, from, replayed);
    }
  }

  /** An output frame changes nothing for the audited ones, and covers what its number says. */
  lemma LiveOutput(f: Filter, chain: seq<AuditEvent>, queue: seq<Item>, taken: nat, offered: nat,
                   frames: seq<Frame>, position: Position, from: nat, replayed: nat)
    requires InOrder(f, chain, queue, taken, offered) && queue != [] && queue[0].Live? && !AuditedFrame(queue[0].frame)
    requires Aligned(f, chain, position, from, replayed, taken)
    requires Delivered(f, chain, frames, from, Max(replayed, taken))
    ensures var x := queue[0].frame;
            Delivered(f, chain, if Repeats(x, position) then frames else frames + [x], from,
                      Max(replayed, Passed(taken, queue[0])))
  {
    hide Selection, Accepts, AuditedOf;
    var x := queue[0].frame;
    var k, w := x.sequence, Max(replayed, taken);
    HeadOutput(f, chain, queue, taken, offered);
    OneMoreFrame(frames, x);
    if w < k {
      DeliveredFurther(f, chain, frames, from, taken, w, k);
      NothingSelected(f, chain, k, k);
    } else if !Repeats(x, position) {
      if k < replayed {
        EmptyStretch(f, chain, k, position.value.0, k, replayed);
        NothingSelected(f, chain, k, k);
      } else {
        NothingSelected(f, chain, k, k);
      }
    }
  }

  lemma HeadOutput(f: Filter, chain: seq<AuditEvent>, queue: seq<Item>, taken: nat, offered: nat)
    requires InOrder(f, chain, queue, taken, offered) && queue != [] && queue[0].Live? && !AuditedFrame(queue[0].frame)
    ensures var k := queue[0].frame.sequence;
            && taken <= k <= offered <= |chain| && Passed(taken, queue[0]) == k && Selection(f, chain, taken, k) == []
            && Accepts(f, queue[0].frame.content)
  {
  }

  lemma LiveAudited(f: Filter, chain: seq<AuditEvent>, queue: seq<Item>, taken: nat, offered: nat,
                    frames: seq<Frame>, position: Position, from: nat, replayed: nat)
    requires InOrder(f, chain, queue, taken, offered) && queue != [] && queue[0].Live? && AuditedFrame(queue[0].frame)
    requires Aligned(f, chain, position, from, replayed, taken)
    requires Delivered(f, chain, frames, from, Max(replayed, taken))
    ensures var x := queue[0].frame;
            Delivered(f, chain, if Repeats(x, position) then frames else frames + [x], from,
                      Max(replayed, Passed(taken, queue[0])))
  {
    var x := queue[0].frame;
    var k, w := x.sequence, Max(replayed, taken);
    OneMoreFrame(frames, x);
    if k <= replayed {
      assert Repeats(x, position) by {
        if position.value.0 < k {
          SelectionIsExact(f, chain, position.value.0, replayed);
        }
      }
    } else {
      DeliveredFurther(f, chain, frames, from, taken, w, k - 1);
      if from >= k {
        assert frames == [];
      } else {
        assert Selection(f, chain, from, k) == Selection(f, chain, from, k - 1) + [x];
      }
    }
  }

  // ---- what the frames are -----------------------------------------------------------------------------------

  /** The client asked for this: its session, its task if it named one, a type it listed if it listed any. */
  ghost predicate Wanted(f: Filter, c: Content) {
    && c.sessionId == f.sessionId
    && (f.taskId == None || f.taskId == c.taskId)
    && (f.eventTypes == None || c.eventType in f.eventTypes.value)
  }

  /** The frames hold nothing the client did not ask for, and every event of its session in `(from, upTo]`
      that it asked for, each once and in the order of their numbers. */
  ghost predicate JustTheWanted(f: Filter, chain: seq<AuditEvent>, frames: seq<Frame>, from: nat, upTo: nat) {
    && upTo <= |chain| && (forall i | 0 <= i < |chain| :: chain[i].body.sequence == i + 1)
    && (forall x | x in frames :: Wanted(f, x.content))
    && (forall x | x in frames && x.count == 0 ::
          from < x.sequence <= upTo && x == FrameOf(chain[x.sequence - 1]))
    && (forall i | from <= i < upTo && Wanted(f, chain[i].body.content) :: FrameOf(chain[i]) in frames)
    && (forall i, j | 0 <= i < j < |frames| && frames[i].count == 0 && frames[j].count == 0 ::
          frames[i].sequence < frames[j].sequence)
  }

  lemma {:induction false} AuditedAre(frames: seq<Frame>)
    ensures forall x :: x in AuditedOf(frames) <==> x in frames && x.count == 0
  {
    if frames != [] {
      var n := |frames| - 1;
      AuditedAre(frames[..n]);
      assert frames == frames[..n] + [frames[n]];
    }
  }

  /** Frames whose audited ones come in order come in order themselves. */
  lemma {:induction false} AuditedInOrder(frames: seq<Frame>)
    requires forall i, j | 0 <= i < j < |AuditedOf(frames)| ::
               AuditedOf(frames)[i].sequence < AuditedOf(frames)[j].sequence
    ensures forall i, j | 0 <= i < j < |frames| && frames[i].count == 0 && frames[j].count == 0 ::
              frames[i].sequence < frames[j].sequence
  {
    if frames != [] {
      var n := |frames| - 1;
      var front, all := AuditedOf(frames[..n]), AuditedOf(frames);
      assert forall i | 0 <= i < |front| :: all[i] == front[i];
      AuditedInOrder(frames[..n]);
      AuditedAre(frames[..n]);
      forall i | 0 <= i < n && frames[i].count == 0 && frames[n].count == 0
        ensures frames[i].sequence < frames[n].sequence
      {
        assert frames[i] in frames[..n];
        var k :| 0 <= k < |front| && front[k] == frames[i];
        assert all[k].sequence < all[|front|].sequence;
      }
    }
  }

  lemma DeliveredIsWanted(f: Filter, chain: seq<AuditEvent>, frames: seq<Frame>, from: nat, upTo: nat)
    requires Delivered(f, chain, frames, from, upTo)
    ensures JustTheWanted(f, chain, frames, from, upTo)
  {
    hide Selection, AuditedOf;
    SelectionIsExact(f, chain, from, upTo);
    AuditedAre(frames);
    AuditedInOrder(frames);
  }
}

/**
 Output budgets on raw bytes: what is kept of the two streams of a command, and the stored streams served
 piece by piece.
 */
module PayloadGuard {
  import opened Options
  import opened Records

  type Bytes = seq<bv8>

  datatype TruncatedOutput = TruncatedOutput(
    stdoutKept: Bytes, stderrKept: Bytes, truncated: bool, originalSize: nat,
    stdoutTotal: nat, stderrTotal: nat, stdoutRange: (nat, nat), stderrRange: (nat, nat))

  function MinOf(a: int, b: int): int {
    if a < b then a else b
  }

  /** A negative budget is refused. */
  function Truncate(stdout: Bytes, stderr: Bytes, budget: int): Option<TruncatedOutput> {
    if budget < 0 then None else Some(Keep(stdout, stderr, budget))
  }

  function Keep(stdout: Bytes, stderr: Bytes, budget: nat): TruncatedOutput {
    var half := budget / 2;
    var stderrShare, stdoutShare := MinOf(|stderr|, half), MinOf(|stdout|, half);
    var spare := budget - stderrShare - stdoutShare;
    var taken := MinOf(spare, |stderr| - stderrShare);
    var stderrKeep := stderrShare + taken;
    var stdoutKeep := stdoutShare + MinOf(spare - taken, |stdout| - stdoutShare);
    TruncatedOutput(
      stdout[|stdout| - stdoutKeep..], stderr[|stderr| - stderrKeep..],
      stderrKeep < |stderr| || stdoutKeep < |stdout|, |stderr| + |stdout|,
      |stdout|, |stderr|, (|stdout| - stdoutKeep, |stdout|), (|stderr| - stderrKeep, |stderr|))
  }

  /** The whole budget is used and no more; each stream keeps its share; what is kept is the end of the
      stream, at the range reported; and standard error only ever loses bytes when standard output is down
      to its own share. */
  lemma TruncationIsFair(stdout: Bytes, stderr: Bytes, budget: int)
    ensures Truncate(stdout, stderr, budget).Some? <==> budget >= 0
    ensures budget >= 0 ==>
            var t := Truncate(stdout, stderr, budget).value;
            && |t.stdoutKept| + |t.stderrKept| == MinOf(budget, |stdout| + |stderr|)
            && |t.stdoutKept| >= MinOf(|stdout|, budget / 2) && |t.stderrKept| >= MinOf(|stderr|, budget / 2)
            && t.stdoutRange.0 <= t.stdoutRange.1 == |stdout|
            && t.stdoutKept == stdout[t.stdoutRange.0..t.stdoutRange.1]
            && t.stderrRange.0 <= t.stderrRange.1 == |stderr|
            && t.stderrKept == stderr[t.stderrRange.0..t.stderrRange.1]
            && (t.truncated <==> |stdout| + |stderr| > budget)
            && (t.stderrKept != stderr ==> |t.stdoutKept| == MinOf(|stdout|, budget / 2))
  {
    if budget >= 0 {
      var t := Keep(stdout, stderr, budget);
      assert |t.stderrKept| == |stderr| ==> t.stderrKept == stderr;
    }
  }

  // ---- chunk requests --------------------------------------------------------------------------------------

  datatype Chunk =
    | Served(data: Bytes, range: (nat, nat), total: nat, eof: bool)
    | RefNotFound
    | RangeInvalid

  /** The blob the store finds for a stream of a task of this session, if any. */
  predicate Holds(b: BlobRecord, sid: string, taskId: string, stream: OutputStream) {
    b.sessionId == sid && b.taskId == taskId && b.stream == stream
  }

  function ReadRange(content: Bytes, offset: nat, maxBytes: nat): Bytes {
    if offset >= |content| then []
    else if offset + maxBytes >= |content| then content[offset..]
    else content[offset..offset + maxBytes]
  }

  function ServeChunk(blob: Option<BlobRecord>, offset: int, maxBytes: int, hardMax: int): Chunk {
    if blob.None? then RefNotFound
    else
      var capped := MinOf(maxBytes, hardMax);
      if offset < 0 || offset >= blob.value.sizeBytes || capped <= 0 then RangeInvalid
      else
        var data := ReadRange(blob.value.content, offset, capped);
        Served(data, (offset, offset + |data|), blob.value.sizeBytes, offset + |data| >= blob.value.sizeBytes)
  }

  /** A chunk that is served is a stretch of the stored stream, never empty, never over the cap; it is the
      last one exactly when it ends with the stream. */
  lemma ChunkIsExact(b: BlobRecord, offset: int, maxBytes: int, hardMax: int)
    requires b.sizeBytes == |b.content|
    ensures var c := ServeChunk(Some(b), offset, maxBytes, hardMax);
            && (c.Served? || c.RangeInvalid?)
            && (c.Served? <==> 0 <= offset < |b.content| && maxBytes > 0 && hardMax > 0)
            && (c.Served? ==>
                  && c.range.0 == offset < c.range.1 <= |b.content| && c.data == b.content[c.range.0..c.range.1]
                  && |c.data| <= maxBytes && |c.data| <= hardMax && c.total == |b.content|
                  && (c.eof <==> c.range.1 == |b.content|)
                  && (!c.eof ==> |c.data| == MinOf(maxBytes, hardMax)))
    ensures ServeChunk(None, offset, maxBytes, hardMax) == RefNotFound
  {
  }

  /** Asking for one chunk after the other, each of any positive size, from where the previous one ended:
      it ends, and what was received is the stored stream. An empty stream has no valid chunk at all. */
  method ReadStream(b: BlobRecord, hardMax: int) returns (received: Bytes, answers: seq<Chunk>)
    requires b.sizeBytes == |b.content| && hardMax > 0
    ensures received == b.content
    ensures b.content == [] ==> answers == [RangeInvalid]
    ensures b.content != [] ==> forall c | c in answers :: c.Served?
  {
    hide ServeChunk;
    received, answers := [], [];
    var offset, more := 0, true;
    while more
      invariant 0 <= offset <= |b.content| && received == b.content[..offset]
      invariant more ==> offset < |b.content| || (offset == 0 && answers == [])
      invariant !more ==> offset == |b.content|
      invariant if !more && b.content == [] then answers == [RangeInvalid] else forall c | c in answers :: c.Served?
      decreases more, |b.content| - offset
    {
      var wanted: int :| wanted > 0;
      ChunkIsExact(b, offset, wanted, hardMax);
      var c := ServeChunk(Some(b), offset, wanted, hardMax);
      answers := answers + [c];
      if c.Served? {
        received := received + c.data;
        offset := c.range.1;
        more := !c.eof;
      } else {
        more := false;
      }
    }
    assert b.content[..|b.content|] == b.content;
  }
}

/**
 The re-truncation of a result message that is too big: as long as it does not fit, the longest output
 loses its first half, the standard outputs first.
 */
module PayloadFit {
  import opened Options
  import opened Records
  import opened MessageFit

  datatype Output = Output(text: Text, range: Option<(int, int)>, total: Option<int>)

  datatype TaskResult = TaskResult(taskId: string, stdout: Output, stderr: Output, truncated: bool)

  function Of(r: TaskResult, s: OutputStream): Output {
    match s case Stdout => r.stdout case Stderr => r.stderr
  }

  function With(r: TaskResult, s: OutputStream, o: Output): TaskResult {
    match s case Stdout => r.(stdout := o) case Stderr => r.(stderr := o)
  }

  /** A missing range is that of the whole text. */
  function RangeOf(o: Output): (int, int) {
    if o.range.Some? then o.range.value else (0, Size(o.text))
  }

  function TotalOf(o: Output): int {
    if o.total.Some? then o.total.value else RangeOf(o).1
  }

  function Cut(o: Output): Output {
    Output(Halved(o.text), Some((RangeOf(o).1 - Size(o.text) / 2, RangeOf(o).1)), Some(TotalOf(o)))
  }

  function Halve(r: TaskResult, s: OutputStream): TaskResult {
    With(r, s, Cut(Of(r, s))).(truncated := true)
  }

  predicate AllEmpty(results: seq<TaskResult>, s: OutputStream) {
    forall r | r in results :: Of(r, s).text == []
  }

  /** The longest output of a stream, the first one on ties. */
  predicate IsLongest(results: seq<TaskResult>, s: OutputStream, i: nat) {
    && i < |results| && Of(results[i], s).text != []
    && (forall j | 0 <= j < |results| :: Size(Of(results[j], s).text) <= Size(Of(results[i], s).text))
    && (forall j | 0 <= j < i :: Size(Of(results[j], s).text) < Size(Of(results[i], s).text))
  }

  /** Whose turn it is: standard errors are touched only once every standard output is gone. */
  predicate NextToCut(results: seq<TaskResult>, s: OutputStream, i: nat) {
    IsLongest(results, s, i) && (s.Stderr? ==> AllEmpty(results, Stdout))
  }

  method Longest(results: seq<TaskResult>, s: OutputStream) returns (best: Option<nat>)
    ensures best.None? ==> AllEmpty(results, s)
    ensures best.Some? ==> IsLongest(results, s, best.value)
  {
    best := None;
    var bestSize := 0;
    for i := 0 to |results|
      invariant best.None? ==> bestSize == 0 && forall j | 0 <= j < i :: Size(Of(results[j], s).text) == 0
      invariant best.Some? ==>
                  && best.value < i && bestSize == Size(Of(results[best.value], s).text) > 0
                  && (forall j | 0 <= j < i :: Size(Of(results[j], s).text) <= bestSize)
                  && (forall j | 0 <= j < best.value :: Size(Of(results[j], s).text) < bestSize)
    {
      var size := Size(Of(results[i], s).text);
      if size > bestSize {
        best, bestSize := Some(i), size;
      }
    }
    if best.None? {
      forall r | r in results ensures Of(r, s).text == [] {
        var j :| 0 <= j < |results| && results[j] == r;
        if Of(r, s).text != [] { NotEmptySize(Of(r, s).text); }
      }
    }
  }

  // ---- what a cut output still is ---------------------------------------------------------------------

  /** `o` is what is left of `first`: its end, on ASCII, at the range it reports. */
  predicate LeftOf(first: Output, o: Output) {
    var end := if first.range.Some? then first.range.value.1 else Size(first.text);
    || o == first
    || (&& o.range.Some? && o.range.value.1 == end
        && o.total == Some(if first.total.Some? then first.total.value else end)
        && (Ascii(first.text) ==>
              && |o.text| <= |first.text| && o.text == first.text[|first.text| - |o.text|..]
              && o.range.value.0 == end - |o.text|))
  }

  /** Nothing else of the result changes, and a result that was touched says so. */
  predicate LeftOfResult(first: TaskResult, r: TaskResult) {
    && r.taskId == first.taskId && LeftOf(first.stdout, r.stdout) && LeftOf(first.stderr, r.stderr)
    && (r == first || r.truncated)
  }

  lemma CutLeaves(first: Output, o: Output)
    requires LeftOf(first, o)
    ensures LeftOf(first, Cut(o))
  {
    if Ascii(first.text) {
      var n := |o.text|;
      AsciiStays(first.text, |first.text| - n);
      AsciiSize(o.text);
      AsciiSize(first.text);
      AsciiKept(o.text, n / 2);
      assert o.text[n - n / 2..] == first.text[|first.text| - n / 2..];
    }
  }

  lemma HalveLeaves(first: TaskResult, r: TaskResult, s: OutputStream)
    requires LeftOfResult(first, r)
    ensures LeftOfResult(first, Halve(r, s))
  {
    CutLeaves(Of(first, s), Of(r, s));
  }

  /** An output that came with the range of its own text in the stream still is the stream at its range. */
  lemma RangeIsExact(stream: Text, first: Output, o: Output)
    requires LeftOf(first, o) && Ascii(stream)
    requires var (a, b) := RangeOf(first); 0 <= a <= b <= |stream| && first.text == stream[a..b]
    ensures var (a, b) := RangeOf(o); 0 <= a <= b <= |stream| && o.text == stream[a..b]
  {
    var (a, b) := RangeOf(first);
    if o != first {
      assert Ascii(first.text) by { assert forall c | c in first.text :: c in stream; }
      assert o.text == stream[b - |o.text|..b];
    }
  }

  // ---- why it ends --------------------------------------------------------------------------------------

  function Rank(r: TaskResult, s: OutputStream): nat {
    2 * Weight(Of(r, s).text) + (if Halve(r, s) == r then 0 else 1)
  }

  function Total(results: seq<TaskResult>): nat {
    if results == [] then 0 else Rank(results[0], Stdout) + Rank(results[0], Stderr) + Total(results[1..])
  }

  lemma HalvingCostsRank(r: TaskResult, s: OutputStream)
    requires Halve(r, s) != r
    ensures Rank(Halve(r, s), s) < Rank(r, s)
    ensures forall u | u != s :: Rank(Halve(r, s), u) <= Rank(r, u)
  {
    HalvingSettles(Of(r, s).text);
    hide Halved, Weight, Size;
    var h := Halve(r, s);
    if Of(h, s).text == Of(r, s).text {
      assert Halve(h, s) == h;
    }
    var u := if s.Stdout? then Stderr else Stdout;
    assert Of(h, u) == Of(r, u);
    if Halve(r, u) == r {
      assert Halve(h, u) == h;
    }
  }

  lemma {:induction false} TotalDrops(results: seq<TaskResult>, i: nat, s: OutputStream)
    requires i < |results| && Halve(results[i], s) != results[i]
    ensures Total(results[i := Halve(results[i], s)]) < Total(results)
  {
    HalvingCostsRank(results[i], s);
    hide Rank, Halve;
    var after := results[i := Halve(results[i], s)];
    if i == 0 {
      assert after[1..] == results[1..];
    } else {
      assert after[1..] == results[1..][i - 1 := Halve(results[i], s)];
      TotalDrops(results[1..], i - 1, s);
    }
  }

  // ---- the procedure ---------------------------------------------------------------------------------------

  /** It ends in three ASCII characters, or is all ASCII. */
  predicate EndsPlainly(t: Text) {
    Ascii(t) || AsciiEnd(t)
  }

  predicate PlainOutputs(results: seq<TaskResult>) {
    forall r | r in results :: EndsPlainly(r.stdout.text) && EndsPlainly(r.stderr.text)
  }

  /** Some output ends in a character that is not ASCII. */
  predicate SomeOpenEnd(results: seq<TaskResult>) {
    exists r | r in results :: EndsBeyondAscii(r.stdout.text) || EndsBeyondAscii(r.stderr.text)
  }

  /** The next round would leave everything as it is, for ever. */
  ghost predicate GoesNowhere(results: seq<TaskResult>) {
    exists s: OutputStream, i: nat {:trigger NextToCut(results, s, i)} ::
        NextToCut(results, s, i) && Halve(results[i], s) == results[i]
  }

  /** Every output comes down to nothing when it is halved often enough. */
  predicate AllDrain(results: seq<TaskResult>) {
    forall r | r in results :: Drains(r.stdout.text) && Drains(r.stderr.text)
  }

  lemma HalvingKeepsDraining(r: TaskResult, s: OutputStream)
    requires Of(r, s).text != []
    ensures Halve(r, s) == r ==> !Drains(Of(r, s).text)
    ensures Halve(r, s) != r ==> forall u :: Drains(Of(Halve(r, s), u).text) <==> Drains(Of(r, u).text)
  {
    hide Halved, Stuck;
    HalvingSettles(Of(r, s).text);
    assert Of(Halve(r, s), s).text == Halved(Of(r, s).text);
  }

  lemma RoundKeepsDraining(results: seq<TaskResult>, s: OutputStream, i: nat)
    requires NextToCut(results, s, i)
    ensures Halve(results[i], s) == results[i] ==> !AllDrain(results)
    ensures Halve(results[i], s) != results[i] ==> (AllDrain(results[i := Halve(results[i], s)]) <==> AllDrain(results))
  {
    hide Halve, Drains;
    HalvingKeepsDraining(results[i], s);
    DrainEach(results[i], s);
    var now := Halve(results[i], s);
    DrainEach(now, s);
    var after := results[i := now];
    assert now in after by { assert after[i] == now; }
    assert results[i] in results;
    forall r | r in results && r != results[i] ensures r in after {
      var j :| 0 <= j < |results| && results[j] == r;
      assert after[j] == r;
    }
  }

  lemma DrainEach(r: TaskResult, s: OutputStream)
    ensures Drains(r.stdout.text) && Drains(r.stderr.text) <==> forall u :: Drains(Of(r, u).text)
    ensures !Drains(Of(r, s).text) ==> !(Drains(r.stdout.text) && Drains(r.stderr.text))
  {
    hide Drains;
    assert Of(r, Stdout) == r.stdout && Of(r, Stderr) == r.stderr;
  }

  lemma EmptyDrains(results: seq<TaskResult>)
    requires AllEmpty(results, Stdout) && AllEmpty(results, Stderr)
    ensures AllDrain(results)
  {
    forall r | r in results ensures Drains(r.stdout.text) && Drains(r.stderr.text) {
      assert Of(r, Stdout).text == [] && Of(r, Stderr).text == [];
    }
  }

  /** What the ends of the outputs tell. */
  lemma EndsTell(results: seq<TaskResult>)
    ensures PlainOutputs(results) ==> AllDrain(results)
    ensures SomeOpenEnd(results) ==> !AllDrain(results)
  {
    hide Drains, Ascii, AsciiEnd, EndsBeyondAscii;
    forall r | r in results
      ensures EndsPlainly(r.stdout.text) && EndsPlainly(r.stderr.text)
              ==> Drains(r.stdout.text) && Drains(r.stderr.text)
      ensures EndsBeyondAscii(r.stdout.text) || EndsBeyondAscii(r.stderr.text)
              ==> !(Drains(r.stdout.text) && Drains(r.stderr.text))
    {
      EndTells(r.stdout.text);
      EndTells(r.stderr.text);
    }
  }

  lemma EndTells(t: Text)
    ensures EndsPlainly(t) ==> Drains(t)
    ensures EndsBeyondAscii(t) ==> !Drains(t)
  {
    hide Drains, Ascii, AsciiEnd, EndsBeyondAscii;
    if EndsBeyondAscii(t) { EndDecides(t); }
    if AsciiEnd(t) { AsciiEndDrains(t); }
    if Ascii(t) { AsciiDrains(t); }
  }

  /** One round: the output whose turn it is loses its first half. */
  ghost predicate Round(before: seq<TaskResult>, after: seq<TaskResult>) {
    exists s: OutputStream, i: nat {:trigger NextToCut(before, s, i)} ::
      NextToCut(before, s, i) && after == before[i := Halve(before[i], s)]
  }

  /** The rounds of a run, each made on a message that was too big. */
  ghost predicate Rounds(content: seq<TaskResult>, size: seq<TaskResult> -> nat, maxMessageBytes: int,
                         states: seq<seq<TaskResult>>) {
    && states != [] && states[0] == content
    && forall k | 0 <= k < |states| - 1 :: size(states[k]) > maxMessageBytes && Round(states[k], states[k + 1])
  }

  lemma OneMoreRound(content: seq<TaskResult>, size: seq<TaskResult> -> nat, maxMessageBytes: int,
                     states: seq<seq<TaskResult>>,
                     s: OutputStream, i: nat)
    requires Rounds(content, size, maxMessageBytes, states)
    requires var last := states[|states| - 1]; size(last) > maxMessageBytes && NextToCut(last, s, i)
    ensures var last := states[|states| - 1];
            i < |last| && Rounds(content, size, maxMessageBytes, states + [last[i := Halve(last[i], s)]])
  {
    var last := states[|states| - 1];
    var next := last[i := Halve(last[i], s)];
    assert Round(last, next);
    var longer := states + [next];
    forall k | 0 <= k < |longer| - 1 ensures size(longer[k]) > maxMessageBytes && Round(longer[k], longer[k + 1]) {
      if k < |states| - 1 { assert longer[k] == states[k] && longer[k + 1] == states[k + 1]; }
    }
  }

  /** Cuts until the message fits.  `diverges` stands for the loop that never ends: it is answered only
      where the next round changes nothing at all.  Under a budget that is never met, that is exactly when
      some output does not drain: never when each ends in three ASCII characters or is all ASCII, and always
      when one ends in anything but ASCII. */
  method FitMessage(content: seq<TaskResult>, size: seq<TaskResult> -> nat, maxMessageBytes: int)
    returns (results: seq<TaskResult>, diverges: bool, ghost states: seq<seq<TaskResult>>)
    ensures Rounds(content, size, maxMessageBytes, states) && results == states[|states| - 1]
    ensures |results| == |content| && forall i | 0 <= i < |content| :: LeftOfResult(content[i], results[i])
    ensures !diverges ==> size(results) <= maxMessageBytes || (AllEmpty(results, Stdout) && AllEmpty(results, Stderr))
    ensures diverges ==> size(results) > maxMessageBytes && GoesNowhere(results)
    ensures diverges ==> !AllDrain(content)
    ensures !diverges ==> size(results) <= maxMessageBytes || AllDrain(content)
    ensures PlainOutputs(content) ==> !diverges
    ensures SomeOpenEnd(content) ==> diverges || size(results) <= maxMessageBytes
    ensures size(content) <= maxMessageBytes ==> results == content
    ensures (exists i | 0 <= i < |content| :: results[i].stderr != content[i].stderr) ==> AllEmpty(results, Stdout)
  {
    hide Halve, LeftOfResult, IsLongest, Total, Rounds, NextToCut, AllDrain, PlainOutputs, SomeOpenEnd;
    results, diverges := content, false;
    states := [content];
    NoRoundYet(content, size, maxMessageBytes);
    LeftAtFirst(content);
    ghost var errorsTouched := false;
    while size(results) > maxMessageBytes && !diverges
      invariant |results| == |content| && forall i | 0 <= i < |content| :: LeftOfResult(content[i], results[i])
      invariant Rounds(content, size, maxMessageBytes, states) && states != [] && results == states[|states| - 1]
      invariant diverges ==> size(results) > maxMessageBytes && GoesNowhere(results) && !AllDrain(content)
      invariant AllDrain(results) <==> AllDrain(content)
      invariant size(content) <= maxMessageBytes ==> results == content
      invariant errorsTouched ==> AllEmpty(results, Stdout)
      invariant !errorsTouched ==> forall i | 0 <= i < |content| :: results[i].stderr == content[i].stderr
      decreases !diverges, Total(results)
    {
      var s := Stdout;
      var index := Longest(results, Stdout);
      if index.None? {
        s := Stderr;
        index := Longest(results, Stderr);
        if index.None? {
          EmptyDrains(results);
          break;
        }
      }
      var i := index.value;
      LongestInRange(results, s, i);
      ItsTurn(results, s, i);
      RoundKeepsDraining(results, s, i);
      if Halve(results[i], s) == results[i] {
        diverges := true;
      } else {
        TotalDrops(results, i, s);
        HalveLeaves(content[i], results[i], s);
        HalveElsewhere(results, s, i);
        errorsTouched := errorsTouched || s.Stderr?;
        OneMoreRound(content, size, maxMessageBytes, states, s, i);
        states := states + [results[i := Halve(results[i], s)]];
        results := results[i := Halve(results[i], s)];
      }
    }
    EndsTell(content);
  }

  lemma LongestInRange(results: seq<TaskResult>, s: OutputStream, i: nat)
    requires IsLongest(results, s, i)
    ensures i < |results|
    ensures AllEmpty(results, Stdout) ==> s.Stderr?
  {
    if AllEmpty(results, Stdout) { assert results[i] in results; }
  }

  lemma ItsTurn(results: seq<TaskResult>, s: OutputStream, i: nat)
    requires IsLongest(results, s, i) && (s.Stderr? ==> AllEmpty(results, Stdout))
    ensures NextToCut(results, s, i)
  {
  }

  lemma NoRoundYet(content: seq<TaskResult>, size: seq<TaskResult> -> nat, maxMessageBytes: int)
    ensures Rounds(content, size, maxMessageBytes, [content])
  {
  }

  lemma LeftAtFirst(content: seq<TaskResult>)
    ensures forall i | 0 <= i < |content| :: LeftOfResult(content[i], content[i])
  {
  }

  lemma HalveElsewhere(results: seq<TaskResult>, s: OutputStream, i: nat)
    requires i < |results|
    ensures s.Stdout? ==> Halve(results[i], s).stderr == results[i].stderr
    ensures s.Stderr? && AllEmpty(results, Stdout) ==> AllEmpty(results[i := Halve(results[i], s)], Stdout)
  {
    var after := results[i := Halve(results[i], s)];
    if s.Stderr? && AllEmpty(results, Stdout) {
      forall r | r in after ensures r.stdout.text == [] {
        var j :| 0 <= j < |after| && after[j] == r;
        assert results[j] in results;
      }
    }
  }
}

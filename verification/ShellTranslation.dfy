/**
 One command line in the other shell: all of it or nothing, and what going back and forth preserves.
 */
module ShellTranslation {
  import opened Options
  import opened CommandScan
  import opened Strings
  import opened DialectRules
  import opened ShellMeaning

  // ---- the decision --------------------------------------------------------------------------------------

  function TakeWord(s: string): string {
    if s == [] || s[0] == ';' || s[0] in SPACES then [] else [s[0]] + TakeWord(s[1..])
  }

  function FirstWord(line: string): string {
    TakeWord(TrimLeft(line, SPACES))
  }

  /** The line opens with a program of the source shell. */
  predicate Recognises(source: Dialect, line: string) {
    var first := FirstWord(line);
    Known(source, ShellName(first)) || (source.Posix? && Assignment(first))
  }

  /** The line opens with this word: what follows the white space in front, up to a semicolon or white space. */
  ghost predicate OpensWith(line: string, word: string) {
    exists l, rest ::
      && line == l + word + rest && AllIn(l, SPACES)
      && (word + rest == "" || (word + rest)[0] !in SPACES)
      && (forall c | c in word :: c != ';' && c !in SPACES)
      && (rest == "" || rest[0] == ';' || rest[0] in SPACES)
  }

  lemma {:induction false} TakeWordIs(word: string, rest: string)
    requires forall c | c in word :: c != ';' && c !in SPACES
    requires rest == "" || rest[0] == ';' || rest[0] in SPACES
    ensures TakeWord(word + rest) == word
  {
    if word == "" {
      assert word + rest == rest;
    } else {
      assert word[0] in word && forall c | c in word[1..] :: c in word;
      assert (word + rest)[1..] == word[1..] + rest;
      TakeWordIs(word[1..], rest);
    }
  }

  lemma {:induction false} TakeWordCuts(s: string) returns (rest: string)
    ensures s == TakeWord(s) + rest && (rest == "" || rest[0] == ';' || rest[0] in SPACES)
    ensures forall c | c in TakeWord(s) :: c != ';' && c !in SPACES
  {
    if s == "" || s[0] == ';' || s[0] in SPACES {
      rest := s;
    } else {
      rest := TakeWordCuts(s[1..]);
      assert s == [s[0]] + s[1..];
    }
  }

  lemma OpensWithOne(line: string, word: string)
    ensures OpensWith(line, word) <==> word == FirstWord(line)
  {
    hide TakeWord;
    if OpensWith(line, word) {
      var l, rest :|
        && line == l + word + rest && AllIn(l, SPACES)
        && (word + rest == "" || (word + rest)[0] !in SPACES)
        && (forall c | c in word :: c != ';' && c !in SPACES)
        && (rest == "" || rest[0] == ';' || rest[0] in SPACES);
      assert line == l + (word + rest);
      TrimLeftSkips(l, word + rest, SPACES);
      TakeWordIs(word, rest);
    }
    var l := TrimLeftCuts(line, SPACES);
    var rest := TakeWordCuts(TrimLeft(line, SPACES));
    assert line == l + FirstWord(line) + rest;
  }

  /** The line opens with a program that this dialect knows, or with an assignment of POSIX. */
  ghost predicate Concerns(source: Dialect, line: string) {
    exists word, program ::
      && OpensWith(line, word) && Names(word, program)
      && (Known(source, program) || (source == Posix && SetsVariable(word)))
  }

  lemma RecognisesExactly(source: Dialect, line: string)
    ensures Recognises(source, line) <==> Concerns(source, line)
  {
    hide FirstWord, OpensWith, Names, ShellName, Known, Assignment, SetsVariable;
    var first := FirstWord(line);
    forall word ensures OpensWith(line, word) <==> word == first { OpensWithOne(line, word); }
    forall program ensures Names(first, program) <==> program == ShellName(first) { NamesOne(first, program); }
    SetsVariableExactly(first);
    assert OpensWith(line, first) && Names(first, ShellName(first));
  }

  predicate NonEmpty(segments: seq<seq<string>>) {
    forall g | g in segments :: g != []
  }

  lemma FrontNonEmpty(segments: seq<seq<string>>, n: nat)
    requires NonEmpty(segments) && n <= |segments|
    ensures NonEmpty(segments[..n])
    ensures forall i | 0 <= i < |segments| :: segments[i] != []
  {
    assert forall g | g in segments[..n] :: g in segments;
    assert forall i | 0 <= i < |segments| :: segments[i] in segments;
  }

  function TranslateAll(source: Dialect, segments: seq<seq<string>>): (out: Option<seq<seq<string>>>)
    requires NonEmpty(segments)
    ensures out.Some? ==> |out.value| == |segments|
  {
    if segments == [] then Some([])
    else
      var n := |segments| - 1;
      FrontNonEmpty(segments, n);
      var front, last := TranslateAll(source, segments[..n]), TranslateSegment(source, segments[n]);
      if front.None? || last.None? then None else Some(front.value + [last.value])
  }

  /** `NotAttempted`: the line is none of the translator's business. */
  datatype Decision = NotAttempted | Unchanged | Translated(executed: string)

  function Translate(source: Dialect, line: string): Decision {
    if !Recognises(source, line) then NotAttempted
    else
      var segments := Scan(line);
      if segments.None? then Unchanged
      else
        assert NonEmpty(segments.value) by { ScanIsClean(line); }
        var out := TranslateAll(source, segments.value);
        if out.None? then Unchanged else Translated(Print(out.value))
  }

  lemma ScanIsNonEmpty(line: string)
    requires Scan(line).Some?
    ensures NonEmpty(Scan(line).value)
  {
    ScanIsClean(line);
  }

  lemma OneMoreTranslated(source: Dialect, segments: seq<seq<string>>, n: nat)
    requires NonEmpty(segments) && n < |segments| && NonEmpty(segments[..n]) && NonEmpty(segments[..n + 1])
             && segments[n] != []
    ensures var front, last := TranslateAll(source, segments[..n]), TranslateSegment(source, segments[n]);
            TranslateAll(source, segments[..n + 1]) == if front.None?
              || last.None? then None else Some(front.value + [last.value])
    ensures segments[..|segments|] == segments
  {
    assert segments[..n + 1][..n] == segments[..n];
  }

  lemma NothingTranslated(source: Dialect, segments: seq<seq<string>>)
    requires NonEmpty(segments[..0])
    ensures TranslateAll(source, segments[..0]) == Some([])
  {
  }

  /** One counterpart for each command, in order. */
  ghost predicate Counterparts(source: Dialect, segments: seq<seq<string>>, outs: seq<seq<string>>) {
    |outs| == |segments| && forall i | 0 <= i < |segments| :: Means(source, segments[i], outs[i])
  }

  lemma {:induction false} TranslatedExactly(source: Dialect, segments: seq<seq<string>>, outs: seq<seq<string>>)
    requires NonEmpty(segments)
    ensures TranslateAll(source, segments) == Some(outs) <==> Counterparts(source, segments, outs)
  {
    hide TranslateSegment, Means;
    if segments != [] {
      var n := |segments| - 1;
      FrontNonEmpty(segments, n);
      if |outs| == |segments| {
        TranslatedExactly(source, segments[..n], outs[..n]);
        MeansExactly(source, segments[n], outs[n]);
        assert outs == outs[..n] + [outs[n]];
      }
    }
  }

  /** What the decision for a line is: none of its business, or the counterparts of all its commands, or the
      line as it is, when it cannot be read or some command has no counterpart. */
  lemma DecidedExactly(source: Dialect, line: string)
    ensures Translate(source, line).NotAttempted? <==> !Concerns(source, line)
    ensures forall executed ::
              Translate(source, line) == Translated(executed) <==>
                && Concerns(source, line) && Scan(line).Some?
                && exists outs :: Counterparts(source, Scan(line).value, outs) && executed == Print(outs)
  {
    hide Recognises, Scan, TranslateAll, Counterparts, Print, NonEmpty, Concerns;
    RecognisesExactly(source, line);
    if Scan(line).Some? {
      ScanIsNonEmpty(line);
      forall outs ensures TranslateAll(source, Scan(line).value) == Some(outs)
                          <==> Counterparts(source, Scan(line).value, outs)
      {
        TranslatedExactly(source, Scan(line).value, outs);
      }
    }
  }

  method TranslateLine(source: Dialect, line: string) returns (d: Decision)
    requires Readable(line)
    ensures d.NotAttempted? <==> !Concerns(source, line)
    ensures forall executed ::
              d == Translated(executed) <==>
                && Concerns(source, line) && Scan(line).Some?
                && exists outs :: Counterparts(source, Scan(line).value, outs) && executed == Print(outs)
    ensures d == Translate(source, line)
  {
    hide Recognises, Scan, TranslateSegment, TranslateAll, Print, NonEmpty, CleanSegments, Counterparts, Concerns;
    DecidedExactly(source, line);
    if !Recognises(source, line) {
      return NotAttempted;
    }
    var scanned := ScanLine(line);
    if scanned.None? {
      return Unchanged;
    }
    var segments := scanned.value;
    ScanIsNonEmpty(line);
    FrontNonEmpty(segments, 0);
    NothingTranslated(source, segments);
    var rewritten: seq<seq<string>> := [];
    for i := 0 to |segments|
      invariant NonEmpty(segments[..i]) && TranslateAll(source, segments[..i]) == Some(rewritten)
    {
      FrontNonEmpty(segments, i + 1);
      OneMoreTranslated(source, segments, i);
      var outcome := TranslateSegment(source, segments[i]);
      if outcome.None? {
        OneFails(source, segments, i + 1);
        return Unchanged;
      }
      rewritten := rewritten + [outcome.value];
    }
    assert segments[..|segments|] == segments;
    d := Translated(Print(rewritten));
  }

  lemma {:induction false} OneFails(source: Dialect, segments: seq<seq<string>>, n: nat)
    requires NonEmpty(segments) && n <= |segments| && NonEmpty(segments[..n])
             && TranslateAll(source, segments[..n]).None?
    ensures TranslateAll(source, segments).None?
    decreases |segments| - n
  {
    if n < |segments| {
      assert segments[..n + 1][..n] == segments[..n];
      FrontNonEmpty(segments, n + 1);
      OneFails(source, segments, n + 1);
    } else {
      assert segments[..n] == segments;
    }
  }

  // ---- the words the dictionary writes ----------------------------------------------------------------------

  predicate PlainChar(c: char) {
    Letter(c) || Digit(c) || c == '-' || c == ':'
  }

  predicate Plain(w: string) {
    w != [] && forall c | c in w :: PlainChar(c)
  }

  lemma {:induction false} PlainIsQuiet(w: string)
    requires forall c | c in w :: PlainChar(c)
    ensures Quoting(None, w) == Some(None)
  {
    if w != [] {
      assert w[|w| - 1] in w;
      assert forall c | c in w[..|w| - 1] :: c in w;
      PlainIsQuiet(w[..|w| - 1]);
    }
  }

  /** A program the translator writes, as opposed to what it copies. */
  predicate ReadingCommand(target: Dialect, w: string) {
    match target
    case PowerShell => w in {"Get-ChildItem", "Get-Content", "Get-Location", "Write-Output", "Get-Command"}
    case Posix => w in {"ls", "cat", "head", "tail", "pwd", "echo", "env", "command"}
  }

  function Other(d: Dialect): Dialect {
    if d.Posix? then PowerShell else Posix
  }

  lemma {:induction false} PosixListingCopies(tokens: seq<string>, i: nat, force: bool, paths: seq<string>)
    requires (forall t | t in tokens :: Clean(t)) && (forall p | p in paths :: Clean(p) && !Dashed(p))
    ensures var l := PosixListing(tokens, i, force, paths);
            l.Some? ==> forall p | p in l.value.1 :: Clean(p) && !Dashed(p)
    decreases |tokens| - i
  {
    if i < |tokens| {
      assert tokens[i] in tokens;
      if Dashed(tokens[i]) {
        PosixListingCopies(tokens, i + 1, force || ShowsHidden(tokens[i][1..]), paths);
      } else {
        PosixListingCopies(tokens, i + 1, force, paths + [tokens[i]]);
      }
    }
  }

  lemma {:induction false} PowerShellListingCopies(tokens: seq<string>, i: nat, force: bool, paths: seq<string>)
    requires (forall t | t in tokens :: Clean(t)) && (forall p | p in paths :: Clean(p))
    ensures var l := PowerShellListing(tokens, i, force, paths); l.Some? ==> forall p | p in l.value.1 :: Clean(p)
    decreases |tokens| - i
  {
    if i < |tokens| {
      assert tokens[i] in tokens;
      if Lower(tokens[i]) == "-force" {
        PowerShellListingCopies(tokens, i + 1, true, paths);
      } else if !Dashed(tokens[i]) {
        PowerShellListingCopies(tokens, i + 1, force, paths + [tokens[i]]);
      }
    }
  }

  lemma {:induction false} LinesAndFileCopies(tokens: seq<string>, i: nat, count: nat, file: Option<string>)
    requires (forall t | t in tokens :: Clean(t)) && (file.Some? ==> Clean(file.value) && !Dashed(file.value))
    ensures var l := LinesAndFile(tokens, i, count, file); l.Some? ==> Clean(l.value.1) && !Dashed(l.value.1)
    decreases |tokens| - i
  {
    if i < |tokens| {
      assert tokens[i] in tokens;
      if Dashed(tokens[i]) {
        match CountOf(tokens[i])
        case NotACount =>
        case InNextToken =>
          if i + 1 < |tokens| && IsDigits(tokens[i + 1]) { LinesAndFileCopies(tokens, i + 2, ParseNat(tokens[i + 1]),
            file); }
        case Attached(n) => LinesAndFileCopies(tokens, i + 1, n, file);
      } else if file.None? {
        LinesAndFileCopies(tokens, i + 1, count, Some(tokens[i]));
      }
    }
  }

  lemma {:induction false} ContentCopies(tokens: seq<string>, i: nat, file: Option<string>, mode: Mode, count: nat)
    requires (forall t | t in tokens :: Clean(t)) && (file.Some? ==> Clean(file.value))
    ensures var l := ContentOf(tokens, i, file, mode, count); l.Some? ==> Clean(l.value.0)
    decreases |tokens| - i
  {
    if i < |tokens| {
      assert tokens[i] in tokens;
      if !ModeOf(tokens[i]).Whole? {
        if i + 1 < |tokens| && IsDigits(tokens[i + 1]) {
          ContentCopies(tokens, i + 2, file, ModeOf(tokens[i]), ParseNat(tokens[i + 1]));
        }
      } else if !Dashed(tokens[i]) && file.None? {
        ContentCopies(tokens, i + 1, Some(tokens[i]), mode, count);
      }
    }
  }

  lemma PlainIsClean(w: string)
    requires Plain(w)
    ensures Clean(w)
  {
    PlainIsQuiet(w);
  }

  lemma PowerShellWordsAreClean()
    ensures Clean("Get-ChildItem") && Clean("Get-Content") && Clean("Get-Location") && Clean("Write-Output")
            && Clean("Get-Command")
  {
    PlainIsClean("Get-ChildItem");
    PlainIsClean("Get-Content");
    PlainIsClean("Get-Location");
    PlainIsClean("Write-Output");
    PlainIsClean("Get-Command");
  }

  lemma PowerShellParametersAreClean()
    ensures Clean("Env:") && Clean("-Force") && Clean("-TotalCount") && Clean("-Tail")
  {
    PlainIsClean("Env:");
    PlainIsClean("-Force");
    PlainIsClean("-TotalCount");
    PlainIsClean("-Tail");
  }

  lemma PosixWordsAreClean()
    ensures Clean("ls") && Clean("cat") && Clean("head") && Clean("tail") && Clean("pwd") && Clean("echo")
            && Clean("env")
    ensures Clean("command") && Clean("-a") && Clean("-n") && Clean("-v")
  {
    PlainIsClean("ls");
    PlainIsClean("cat");
    PlainIsClean("head");
    PlainIsClean("tail");
    PlainIsClean("pwd");
    PlainIsClean("echo");
    PlainIsClean("env");
    PlainIsClean("command");
    PlainIsClean("-a");
    PlainIsClean("-n");
    PlainIsClean("-v");
  }

  lemma NumberIsClean(n: nat)
    ensures Clean(PrintNat(n))
  {
    PlainIsClean(PrintNat(n));
  }

  lemma ListingOutput(segment: seq<string>)
    requires CleanSegment(segment) && PosixListDirectory(segment).Some? && Clean("Get-ChildItem") && Clean("-Force")
    ensures CleanSegment(PosixListDirectory(segment).value)
  {
    hide Clean;
    PosixListingCopies(segment, 1, false, []);
  }

  lemma LinesOutput(segment: seq<string>, parameter: string)
    requires CleanSegment(segment) && PosixLines(segment, parameter).Some? && Clean("Get-Content") && Clean(parameter)
    ensures CleanSegment(PosixLines(segment, parameter).value)
  {
    hide Clean, PrintNat;
    LinesAndFileCopies(segment, 1, 10, None);
    NumberIsClean(LinesAndFile(segment, 1, 10, None).value.0);
  }

  /** What a rule writes: a fixed reading command, and nothing the scan would stumble over. */
  lemma PosixOutput(segment: seq<string>)
    requires CleanSegment(segment) && TranslateSegment(Posix, segment).Some?
    ensures var out := TranslateSegment(Posix, segment).value;
            CleanSegment(out) && ReadingCommand(PowerShell, out[0])
  {
    hide ShellName, Clean, PosixRefused, Assignment;
    PowerShellWordsAreClean();
    PowerShellParametersAreClean();
    if PosixListDirectory(segment).Some? { ListingOutput(segment); }
    if PosixLines(segment, "-TotalCount").Some? { LinesOutput(segment, "-TotalCount"); }
    if PosixLines(segment, "-Tail").Some? { LinesOutput(segment, "-Tail"); }
  }

  lemma PowerShellListingOutput(segment: seq<string>)
    requires CleanSegment(segment) && PowerShellListDirectory(segment).Some? && Clean("ls") && Clean("-a")
    ensures CleanSegment(PowerShellListDirectory(segment).value)
  {
    hide Clean;
    PowerShellListingCopies(segment, 1, false, []);
  }

  lemma ContentOutput(segment: seq<string>)
    requires CleanSegment(segment) && PowerShellContent(segment).Some?
    requires Clean("cat") && Clean("head") && Clean("tail") && Clean("-n")
    ensures CleanSegment(PowerShellContent(segment).value)
  {
    hide Clean, PrintNat;
    ContentCopies(segment, 1, None, Whole, 0);
    NumberIsClean(ContentOf(segment, 1, None, Whole, 0).value.2);
  }

  lemma PowerShellOutput(segment: seq<string>)
    requires CleanSegment(segment) && TranslateSegment(PowerShell, segment).Some?
    ensures var out := TranslateSegment(PowerShell, segment).value;
            CleanSegment(out) && ReadingCommand(Posix, out[0])
  {
    hide ShellName, Clean, PowerShellRefused;
    PosixWordsAreClean();
    if PowerShellListDirectory(segment).Some? { PowerShellListingOutput(segment); }
    if PowerShellContent(segment).Some? { ContentOutput(segment); }
  }

  lemma SegmentOutput(source: Dialect, segment: seq<string>)
    requires CleanSegment(segment) && TranslateSegment(source, segment).Some?
    ensures var out := TranslateSegment(source, segment).value;
            CleanSegment(out) && ReadingCommand(Other(source), out[0])
  {
    if source.Posix? { PosixOutput(segment); } else { PowerShellOutput(segment); }
  }

  lemma {:induction false} TranslatedAll(source: Dialect, segments: seq<seq<string>>)
    requires NonEmpty(segments) && (forall g | g in segments :: CleanSegment(g)) && TranslateAll(source, segments).Some?
    ensures var outs := TranslateAll(source, segments).value;
            forall i | 0 <= i < |segments| ::
              segments[i] != [] && TranslateSegment(source, segments[i]) == Some(outs[i])
              && CleanSegment(outs[i]) && ReadingCommand(Other(source), outs[i][0])
  {
    hide TranslateSegment, ReadingCommand, CleanSegment, Other;
    if segments != [] {
      var n := |segments| - 1;
      FrontNonEmpty(segments, n);
      assert segments[n] in segments && forall g | g in segments[..n] :: g in segments;
      TranslatedAll(source, segments[..n]);
      SegmentOutput(source, segments[n]);
    }
  }

  /** All or nothing: a line that is rewritten scans, in its new form, to one output of a rule for each of
      its commands, in order, and each of them is a fixed command that only reads. */
  lemma AllOrNothing(source: Dialect, line: string)
    requires Translate(source, line).Translated?
    ensures Scan(line).Some? && Scan(Translate(source, line).executed).Some?
    ensures var segments, outs := Scan(line).value, Scan(Translate(source, line).executed).value;
            && |outs| == |segments| && NonEmpty(segments)
            && TranslateAll(source, segments) == Some(outs) && CleanSegments(outs)
            && forall i | 0 <= i < |segments| ::
                 && segments[i] != [] && outs[i] != [] && TranslateSegment(source, segments[i]) == Some(outs[i])
                 && Means(source, segments[i], outs[i]) && ReadingCommand(Other(source), outs[i][0])
  {
    hide Scan, TranslateSegment, ReadingCommand, Print, TranslateAll, Means;
    var segments := Scan(line).value;
    ScanIsClean(line);
    ScanIsNonEmpty(line);
    var outs := TranslateAll(source, segments).value;
    TranslatedAll(source, segments);
    TranslatedExactly(source, segments, outs);
    assert CleanSegments(outs) by {
      forall g | g in outs ensures CleanSegment(g) {
        var i :| 0 <= i < |outs| && outs[i] == g;
        assert CleanSegment(outs[i]);
      }
    }
    PrintThenScan(outs);
  }
}

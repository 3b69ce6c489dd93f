/**
 Splitting a command line into simple commands: quotes are respected and kept, and anything the two shells
 would not read alike ends the attempt.  Lines are ASCII and carry no `$`.
 */
module CommandScan {
  import opened Options

  predicate Readable(line: string) {
    forall c | c in line :: c as int < 128 && c != '$'
  }

  predicate RefusedCharacter(c: char) {
    c in {'|', '&', '>', '<', '`', '(', ')', '{', '}', '*', '?', '[', ']', '~', '\\', '#', '!', '\n', '\r'}
  }

  predicate IsQuote(c: char) {
    c == '\"' || c == '\''
  }

  /** The ASCII characters that count as white space. */
  predicate IsSpace(c: char) {
    var n := c as int;
    n == 32 || 9 <= n <= 13 || 28 <= n <= 31
  }

  datatype State = State(segments: seq<seq<string>>, tokens: seq<string>, token: string, quote: Option<char>)

  function EndToken(s: State): State {
    if s.token == [] then s else s.(tokens := s.tokens + [s.token], token := [])
  }

  function EndSegment(s: State): State {
    if s.tokens == [] then s else s.(segments := s.segments + [s.tokens], tokens := [])
  }

  /** One more character; nothing when it ends the attempt. */
  function Next(s: State, c: char): Option<State> {
    if s.quote.Some? then Some(s.(token := s.token + [c], quote := if c == s.quote.value then None else s.quote))
    else if IsQuote(c) then Some(s.(token := s.token + [c], quote := Some(c)))
    else if RefusedCharacter(c) then None
    else if c == ';' then Some(EndSegment(EndToken(s)))
    else if IsSpace(c) then Some(EndToken(s))
    else Some(s.(token := s.token + [c]))
  }

  function Read(s: State, line: string): Option<State> {
    if line == [] then Some(s)
    else
      var before := Read(s, line[..|line| - 1]);
      if before.None? then None else Next(before.value, line[|line| - 1])
  }

  const START := State([], [], [], None)

  /** The simple commands of a line, each a sequence of tokens. */
  function Scan(line: string): Option<seq<seq<string>>> {
    var end := Read(START, line);
    if end.None? || end.value.quote.Some? then None
    else
      var done := EndSegment(EndToken(end.value));
      if done.segments == [] then None else Some(done.segments)
  }

  method ScanLine(line: string) returns (segments: Option<seq<seq<string>>>)
    requires Readable(line)
    ensures segments == Scan(line)
  {
    var s := START;
    for index := 0 to |line|
      invariant Read(START, line[..index]) == Some(s)
    {
      var next := Next(s, line[index]);
      assert line[..index + 1][..index] == line[..index];
      if next.None? {
        RefusedForGood(line, index + 1);
        return None;
      }
      s := next.value;
    }
    assert line[..|line|] == line;
    if s.quote.Some? {
      return None;
    }
    s := EndSegment(EndToken(s));
    return if s.segments == [] then None else Some(s.segments);
  }

  lemma {:induction false} RefusedForGood(line: string, n: nat)
    requires n <= |line| && Read(START, line[..n]).None?
    ensures Read(START, line).None?
    decreases |line| - n
  {
    if n < |line| {
      assert line[..n + 1][..n] == line[..n];
      RefusedForGood(line, n + 1);
    } else {
      assert line[..n] == line;
    }
  }

  // ---- tokens that scan to themselves -------------------------------------------------------------------

  /** Whether a character read in this quoting state simply extends the token. */
  predicate Extends(quote: Option<char>, c: char) {
    quote.Some? || (!RefusedCharacter(c) && c != ';' && !IsSpace(c))
  }

  /** The quoting state after a stretch that stays inside one token, if it does. */
  function Quoting(quote: Option<char>, w: string): Option<Option<char>> {
    if w == [] then Some(quote)
    else
      var before := Quoting(quote, w[..|w| - 1]);
      var c := w[|w| - 1];
      if before.None? || !Extends(before.value, c) then None
      else if before.value.Some? then Some(if c == before.value.value then None else before.value)
      else if IsQuote(c) then Some(Some(c))
      else Some(None)
  }

  predicate Clean(token: string) {
    token != [] && Quoting(None, token) == Some(None)
  }

  predicate CleanSegment(segment: seq<string>) {
    segment != [] && forall t | t in segment :: Clean(t)
  }

  predicate CleanSegments(segments: seq<seq<string>>) {
    segments != [] && forall s | s in segments :: CleanSegment(s)
  }

  /** What the scan holds at any moment. */
  predicate Tidy(s: State) {
    && (forall g | g in s.segments :: CleanSegment(g)) && (forall t | t in s.tokens :: Clean(t))
    && Quoting(None, s.token) == Some(s.quote)
  }

  lemma NextStaysTidy(s: State, c: char)
    requires Tidy(s) && Next(s, c).Some?
    ensures Tidy(Next(s, c).value)
  {
    var longer := s.token + [c];
    assert longer[..|longer| - 1] == s.token;
    if s.quote.None? && (c == ';' || IsSpace(c)) {
      assert Quoting(None, []) == Some(None);
      EndsStayTidy(s);
    }
  }

  lemma EndsStayTidy(s: State)
    requires Tidy(s) && s.quote.None?
    ensures Tidy(EndToken(s)) && EndToken(s).token == [] && Tidy(EndSegment(EndToken(s)))
  {
    assert Quoting(None, []) == Some(None);
    if s.token != [] { assert Clean(s.token); }
  }

  lemma {:induction false} ReadStaysTidy(s: State, line: string)
    requires Tidy(s) && Read(s, line).Some?
    ensures Tidy(Read(s, line).value)
  {
    if line != [] {
      ReadStaysTidy(s, line[..|line| - 1]);
      NextStaysTidy(Read(s, line[..|line| - 1]).value, line[|line| - 1]);
    }
  }

  lemma ScanIsClean(line: string)
    requires Scan(line).Some?
    ensures CleanSegments(Scan(line).value)
  {
    assert Tidy(START);
    ReadStaysTidy(START, line);
    EndsStayTidy(Read(START, line).value);
  }

  // ---- printing, and scanning again ---------------------------------------------------------------------------

  function Join(parts: seq<string>, separator: string): string {
    if parts == [] then [] else if |parts| == 1 then parts[0]
      else Join(parts[..|parts| - 1], separator) + separator + parts[|parts| - 1]
  }

  function PrintAll(segments: seq<seq<string>>): seq<string> {
    if segments == [] then [] else PrintAll(segments[..|segments| - 1]) + [Join(segments[|segments| - 1], " ")]
  }

  function Print(segments: seq<seq<string>>): string {
    Join(PrintAll(segments), "; ")
  }

  lemma {:induction false} ReadConcat(s: State, a: string, b: string)
    requires Read(s, a).Some?
    ensures Read(s, a + b) == Read(Read(s, a).value, b)
  {
    if b == [] {
      assert a + b == a;
    } else {
      var n := |b| - 1;
      assert (a + b)[..|a + b| - 1] == a + b[..n];
      ReadConcat(s, a, b[..n]);
    }
  }

  /** A stretch that stays inside one token is only added to it. */
  lemma {:induction false} ReadInside(s: State, w: string)
    requires Quoting(s.quote, w).Some?
    ensures Read(s, w) == Some(s.(token := s.token + w, quote := Quoting(s.quote, w).value))
  {
    if w == [] {
      assert s.token + w == s.token;
    } else {
      ReadInside(s, w[..|w| - 1]);
      assert s.token + w == s.token + w[..|w| - 1] + [w[|w| - 1]];
    }
  }

  lemma ReadOne(s: State, c: char)
    ensures Read(s, [c]) == Next(s, c)
  {
    assert [c][..0] == [];
    assert Read(s, []) == Some(s);
  }

  lemma SpaceEnds(s: State)
    requires s.quote.None? && s.token != []
    ensures Next(s, ' ') == Some(s.(tokens := s.tokens + [s.token], token := []))
  {
  }

  /** The tokens of one segment, printed with spaces, are read back one by one. */
  lemma {:induction false} ReadTokens(s: State, tokens: seq<string>)
    requires CleanSegment(tokens) && s.token == [] && s.quote.None?
    ensures var last := tokens[|tokens| - 1];
            Read(s, Join(tokens, " ")) == Some(s.(tokens := s.tokens + tokens[..|tokens| - 1], token := last))
    decreases |tokens|
  {
    hide Quoting, Read, Next, RefusedCharacter, IsSpace, IsQuote;
    var n := |tokens| - 1;
    var last := tokens[n];
    assert Clean(last);
    if n == 0 {
      ReadInside(s, last);
      assert s.tokens + tokens[..0] == s.tokens && s.token + last == last;
    } else {
      var front := tokens[..n];
      assert CleanSegment(front) by { assert forall t | t in front :: t in tokens; }
      ReadTokens(s, front);
      var mid := Read(s, Join(front, " ")).value;
      assert Clean(front[n - 1]) by { assert front[n - 1] in tokens; }
      SpaceEnds(mid);
      ReadOne(mid, ' ');
      ReadConcat(s, Join(front, " "), " ");
      var spaced := Next(mid, ' ').value;
      assert s.tokens + front[..n - 1] + [front[n - 1]] == s.tokens + front;
      ReadInside(spaced, last);
      ReadConcat(s, Join(front, " ") + " ", last);
      assert spaced.token + last == last;
    }
  }

  /** The separator ends the segment and starts an empty one. */
  lemma SeparatorRead(text: string, segments: seq<seq<string>>)
    requires var end := Read(START, text);
             end.Some? && end.value.quote.None? && EndSegment(EndToken(end.value)) == State(segments, [], [], None)
    ensures Read(START, text + "; ") == Some(State(segments, [], [], None))
  {
    var mid, ended := Read(START, text).value, State(segments, [], [], None);
    ReadOne(mid, ';');
    ReadConcat(START, text, ";");
    assert Next(mid, ';') == Some(ended);
    ReadOne(ended, ' ');
    ReadConcat(START, text + ";", " ");
    assert text + ";" + " " == text + "; ";
  }

  lemma PrintSplits(segments: seq<seq<string>>)
    requires |segments| > 1
    ensures var n := |segments| - 1; Print(segments) == Print(segments[..n]) + "; " + Join(segments[n], " ")
  {
    var n := |segments| - 1;
    PrintAllLength(segments[..n]);
    assert PrintAll(segments)[..n] == PrintAll(segments[..n]);
  }

  /** Whole segments, printed with separators, are read back too. */
  lemma {:induction false} ReadSegments(segments: seq<seq<string>>)
    requires CleanSegments(segments)
    ensures var end := Read(START, Print(segments));
            && end.Some? && end.value.quote.None?
            && EndSegment(EndToken(end.value)) == State(segments, [], [], None)
    decreases |segments|
  {
    hide Read, Join, Clean, EndSegment, EndToken;
    var n := |segments| - 1;
    var last := segments[n];
    assert CleanSegment(last);
    if n == 0 {
      assert PrintAll(segments[..0]) == [];
      PrintOne(segments);
      ReadTokens(START, last);
      FinishSegment(START, last);
      assert [] + [last] == segments;
    } else {
      var front := segments[..n];
      assert CleanSegments(front) by { assert forall g | g in front :: g in segments; }
      ReadSegments(front);
      SeparatorRead(Print(front), front);
      var ended := State(front, [], [], None);
      ReadTokens(ended, last);
      ReadConcat(START, Print(front) + "; ", Join(last, " "));
      PrintSplits(segments);
      FinishSegment(ended, last);
      assert front + [last] == segments;
    }
  }

  lemma PrintOne(segments: seq<seq<string>>)
    requires |segments| == 1
    ensures Print(segments) == Join(segments[0], " ")
  {
    assert PrintAll(segments[..0]) == [];
    assert PrintAll(segments) == [Join(segments[0], " ")];
  }

  lemma {:induction false} PrintAllLength(segments: seq<seq<string>>)
    ensures |PrintAll(segments)| == |segments|
  {
    if segments != [] { PrintAllLength(segments[..|segments| - 1]); }
  }

  lemma FinishSegment(s: State, tokens: seq<string>)
    requires s.tokens == [] && CleanSegment(tokens)
    ensures var last := tokens[|tokens| - 1];
            var end := s.(tokens := s.tokens + tokens[..|tokens| - 1], token := last);
            EndSegment(EndToken(end)) == s.(segments := s.segments + [tokens], tokens := [], token := [])
  {
    var n := |tokens| - 1;
    assert Clean(tokens[n]);
    assert s.tokens + tokens[..n] + [tokens[n]] == tokens;
  }

  /** Scanning what was printed gives the same segments. */
  lemma PrintThenScan(segments: seq<seq<string>>)
    requires CleanSegments(segments)
    ensures Scan(Print(segments)) == Some(segments)
  {
    ReadSegments(segments);
  }

  /** Scan, print, scan: the identity on segments, for every line that scans. */
  lemma ScanPrintScan(line: string)
    requires Scan(line).Some?
    ensures Scan(Print(Scan(line).value)) == Scan(line)
  {
    ScanIsClean(line);
    PrintThenScan(Scan(line).value);
  }

  // ---- which lines scan, and what of them is kept -----------------------------------------------------------------

  /** The quote that is open in front of position `n`. */
  ghost function OpenQuote(line: string, n: nat): Option<char>
    requires n <= |line|
  {
    if n == 0 then None
    else
      var before, c := OpenQuote(line, n - 1), line[n - 1];
      if before == None then (if c == '\"' || c == '\'' then Some(c) else None)
      else if before == Some(c) then None
      else before
  }

  /** A character outside quotes that only separates: white space within a line, or a semicolon. */
  ghost predicate Separates(line: string, i: nat)
    requires i < |line|
  {
    OpenQuote(line, i) == None
    && line[i] in {' ', '\t', '\U{0B}', '\U{0C}', '\U{1C}', '\U{1D}', '\U{1E}', '\U{1F}', ';'}
  }

  /** A character outside quotes that the two shells do not read alike. */
  ghost predicate Ends(line: string, i: nat)
    requires i < |line|
  {
    && OpenQuote(line, i) == None
    && (|| line[i] == '|' || line[i] == '&' || line[i] == '>' || line[i] == '<' || line[i] == '`' || line[i] == '('
        || line[i] == ')' || line[i] == '{' || line[i] == '}' || line[i] == '*' || line[i] == '?' || line[i] == '['
        || line[i] == ']' || line[i] == '~' || line[i] == '\\' || line[i] == '#' || line[i] == '!'
        || line[i] == '\n' || line[i] == '\r')
  }

  /** What does not separate, up to position `n`. */
  ghost function Solid(line: string, n: nat): string
    requires n <= |line|
  {
    if n == 0 then [] else Solid(line, n - 1) + (if Separates(line, n - 1) then [] else [line[n - 1]])
  }

  ghost function Flat(tokens: seq<string>): string {
    if tokens == [] then [] else Flat(tokens[..|tokens| - 1]) + tokens[|tokens| - 1]
  }

  ghost function AllFlat(segments: seq<seq<string>>): string {
    if segments == [] then [] else AllFlat(segments[..|segments| - 1]) + Flat(segments[|segments| - 1])
  }

  ghost function Content(s: State): string {
    AllFlat(s.segments) + Flat(s.tokens) + s.token
  }

  lemma EndsKeepContent(s: State)
    ensures Content(EndToken(s)) == Content(s)
    ensures Content(EndSegment(EndToken(s))) == Content(s)
  {
    EndTokenKeeps(s);
    EndSegmentKeeps(EndToken(s));
  }

  lemma EndTokenKeeps(s: State)
    ensures Content(EndToken(s)) == Content(s)
  {
    if s.token != [] {
      var longer := s.tokens + [s.token];
      assert longer[..|longer| - 1] == s.tokens;
      assert Flat(longer) == Flat(s.tokens) + s.token;
    }
  }

  lemma EndSegmentKeeps(s: State)
    ensures Content(EndSegment(s)) == Content(s)
  {
    if s.tokens != [] {
      var longer := s.segments + [s.tokens];
      assert longer[..|longer| - 1] == s.segments;
      assert AllFlat(longer) == AllFlat(s.segments) + Flat(s.tokens);
    }
  }

  /** One character of the line. */
  lemma NextKeeps(s: State, line: string, i: nat)
    requires i < |line| && s.quote == OpenQuote(line, i)
    ensures Next(s, line[i]).None? <==> Ends(line, i)
    ensures Next(s, line[i]).Some? ==>
              && Next(s, line[i]).value.quote == OpenQuote(line, i + 1)
              && Content(Next(s, line[i]).value) == Content(s) + (if Separates(line, i) then [] else [line[i]])
  {
    EndsKeepContent(s);
    hide Content, EndToken, EndSegment;
    Extended(s, line[i]);
    EndsKeepQuote(s);
  }

  lemma Extended(s: State, c: char)
    ensures forall quote :: Content(s.(token := s.token + [c], quote := quote)) == Content(s) + [c]
  {
  }

  lemma EndsKeepQuote(s: State)
    ensures EndToken(s).quote == s.quote && EndSegment(EndToken(s)).quote == s.quote
  {
  }

  lemma {:induction false} ReadKeeps(line: string, n: nat)
    requires n <= |line|
    ensures var s := Read(START, line[..n]);
            && (s.None? <==> exists i: nat :: i < n && Ends(line, i))
            && (s.Some? ==> s.value.quote == OpenQuote(line, n) && Content(s.value) == Solid(line, n))
  {
    if n > 0 {
      hide Ends, Next, Content;
      ReadKeeps(line, n - 1);
      assert line[..n][..n - 1] == line[..n - 1];
      var before := Read(START, line[..n - 1]);
      if before.Some? { NextKeeps(before.value, line, n - 1); }
    }
  }

  lemma {:induction false} FlatOfClean(tokens: seq<string>)
    requires tokens != [] && forall t | t in tokens :: Clean(t)
    ensures Flat(tokens) != []
  {
    assert Clean(tokens[|tokens| - 1]);
  }

  /** A line scans exactly when its quotes are closed, nothing outside them ends the attempt, and something
      is left of it; its tokens, one after the other, are the line without what separates them. */
  lemma ScansExactly(line: string)
    ensures Scan(line).Some? <==>
              && OpenQuote(line, |line|) == None && Solid(line, |line|) != []
              && forall i: nat | i < |line| :: !Ends(line, i)
    ensures Scan(line).Some? ==> AllFlat(Scan(line).value) == Solid(line, |line|)
  {
    hide Read, OpenQuote, Solid, Ends, Quoting, Clean, Flat, EndToken, EndSegment;
    assert line[..|line|] == line;
    ReadKeeps(line, |line|);
    var end := Read(START, line);
    if end.Some? && end.value.quote.None? {
      EndsKeepContent(end.value);
      var done := EndSegment(EndToken(end.value));
      StartIsTidy();
      ReadStaysTidy(START, line);
      EndsStayTidy(end.value);
      DoneIsEmpty(end.value);
      NothingFlat(done);
    }
  }

  /** A tidy state at the end of a line holds something exactly when it holds a segment. */
  lemma NothingFlat(s: State)
    requires Tidy(s) && s.token == [] && s.tokens == []
    ensures Content(s) == AllFlat(s.segments) && (AllFlat(s.segments) == [] <==> s.segments == [])
  {
    if s.segments != [] {
      var last := s.segments[|s.segments| - 1];
      assert last in s.segments && CleanSegment(last);
      FlatOfClean(last);
    }
  }

  lemma StartIsTidy()
    ensures Tidy(START)
  {
  }

  lemma DoneIsEmpty(s: State)
    ensures EndSegment(EndToken(s)).token == [] && EndSegment(EndToken(s)).tokens == []
  {
  }
}

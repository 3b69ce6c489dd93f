/**
 From POSIX to PowerShell, back, and over again: which commands come back to their first PowerShell form.
 */
module ShellRoundTrip {
  import opened Options
  import opened CommandScan
  import opened Strings
  import opened DialectRules
  import opened ShellMeaning
  import opened ShellTranslation

  // ---- the names of the fixed commands ---------------------------------------------------------------------

  predicate NameChar(c: char) {
    Letter(c) || c == '-'
  }

  lemma {:induction false} NoSeparator(w: string)
    requires forall c | c in w :: NameChar(c)
    ensures LastPart(w) == w
  {
    if w != [] {
      assert w[|w| - 1] in w && NameChar(w[|w| - 1]);
      assert forall c | c in w[..|w| - 1] :: c in w;
      NoSeparator(w[..|w| - 1]);
      assert w == w[..|w| - 1] + [w[|w| - 1]];
    }
  }

  lemma NothingToTrim(w: string, chars: set<char>)
    requires w != [] && w[0] !in chars && w[|w| - 1] !in chars
    ensures TrimLeft(w, chars) == w && TrimRight(w, chars) == w
  {
  }

  lemma NoSuffix(w: string)
    requires forall c | c in w :: NameChar(c)
    ensures WithoutSuffix(Lower(w)) == Lower(w)
  {
    var l := Lower(w);
    if |l| > 4 {
      assert w[|w| - 4] in w && NameChar(w[|w| - 4]);
      assert l[|l| - 4..][0] == LowerChar(w[|w| - 4]) != '.';
    }
  }

  lemma NotInSets(c: char)
    requires NameChar(c)
    ensures c !in SPACES && c !in QUOTES
  {
  }

  /** A bare name is the program it names, in lower case. */
  lemma BareName(w: string)
    requires w != [] && forall c | c in w :: NameChar(c)
    ensures ShellName(w) == Lower(w)
  {
    hide TrimLeft, TrimRight, LastPart, WithoutSuffix, Lower, NameChar;
    assert w[0] in w && w[|w| - 1] in w;
    NotInSets(w[0]);
    NotInSets(w[|w| - 1]);
    NothingToTrim(w, SPACES);
    NothingToTrim(w, QUOTES);
    NoSeparator(w);
    NoSuffix(w);
  }

  lemma NoAssignment(w: string)
    requires forall c | c in w :: NameChar(c)
    ensures !Assignment(w)
  {
    forall n | 0 <= n < |w| ensures w[n] != '=' { assert w[n] in w && NameChar(w[n]); }
  }

  /** `lower` is the program named by the command `w`. */
  lemma Named(w: string, lower: string)
    requires w != [] && (forall c | c in w :: NameChar(c)) && |lower| == |w| && forall i | 0 <= i < |w| ::
               lower[i] == LowerChar(w[i])
    ensures ShellName(w) == lower && !Assignment(w)
  {
    BareName(w);
    NoAssignment(w);
    assert Lower(w) == lower;
  }

  lemma PowerShellNames()
    ensures ShellName("Get-ChildItem") == "get-childitem" && ShellName("Get-Content") == "get-content"
    ensures ShellName("Get-Location") == "get-location" && ShellName("Write-Output") == "write-output"
    ensures ShellName("Get-Command") == "get-command"
  {
    hide ShellName, Assignment, Lower;
    Named("Get-ChildItem", "get-childitem");
    Named("Get-Content", "get-content");
    Named("Get-Location", "get-location");
    Named("Write-Output", "write-output");
    Named("Get-Command", "get-command");
  }

  lemma PosixNames()
    ensures ShellName("ls") == "ls" && ShellName("cat") == "cat" && ShellName("head") == "head"
            && ShellName("tail") == "tail"
    ensures ShellName("pwd") == "pwd" && ShellName("echo") == "echo" && ShellName("env") == "env"
            && ShellName("command") == "command"
    ensures !Assignment("ls") && !Assignment("cat") && !Assignment("head") && !Assignment("tail")
    ensures !Assignment("pwd") && !Assignment("echo") && !Assignment("env") && !Assignment("command")
  {
    hide ShellName, Assignment, Lower;
    Named("ls", "ls");
    Named("cat", "cat");
    Named("head", "head");
    Named("tail", "tail");
    Named("pwd", "pwd");
    Named("echo", "echo");
    Named("env", "env");
    Named("command", "command");
  }

  // ---- there and back, command by command ------------------------------------------------------------------------

  /** The PowerShell form, taken to POSIX and back again, is there again. */
  predicate ComesBack(p: seq<string>)
    requires p != []
  {
    var q := TranslateSegment(PowerShell, p);
    q.Some? && q.value != [] && TranslateSegment(Posix, q.value) == Some(p)
  }

  lemma LowerKeepsDash(w: string)
    requires w != []
    ensures Lower(w) != [] && (Lower(w)[0] == '-' <==> Dashed(w))
  {
  }

  lemma NotAParameter(w: string)
    requires w != [] && !Dashed(w)
    ensures Lower(w) != "-force" && ModeOf(w).Whole?
  {
    LowerKeepsDash(w);
  }

  lemma EnvComesBack()
    ensures ComesBack(["Get-ChildItem", "Env:"])
  {
    hide ShellName, Lower, Assignment;
    PowerShellNames();
    PosixNames();
    EnvIsTheDrive();
    hide EnvironmentDrive;
  }

  lemma EnvIsTheDrive()
    ensures EnvironmentDrive("Env:")
  {
    assert Lower("Env:") == "env:";
  }

  lemma PwdComesBack()
    ensures ComesBack(["Get-Location"])
  {
    hide ShellName, Lower, Assignment;
    PowerShellNames();
    PosixNames();
  }

  /** A command with one operand comes back unless the operand is a lone dash, which PowerShell takes for a
      parameter. */
  lemma CatComesBack(x: string)
    requires x != [] && !IsOption(x)
    ensures ComesBack(["Get-Content", x]) <==> x != "-"
  {
    hide ShellName, Lower, Assignment;
    PowerShellNames();
    PosixNames();
    var p := ["Get-Content", x];
    if x == "-" {
      DashIsNoMode();
      assert ContentOf(p, 1, None, Whole, 0).None?;
    } else {
      NotAParameter(x);
      assert ContentOf(p, 2, Some(x), Whole, 0) == Some((x, Whole, 0));
      assert ContentOf(p, 1, None, Whole, 0) == Some((x, Whole, 0));
      assert TranslateSegment(PowerShell, p) == Some(["cat", x]);
      assert TranslateSegment(Posix, ["cat", x]) == Some(p);
    }
  }

  lemma DashIsNoMode()
    ensures ModeOf("-").Whole? && Lower("-") == "-"
  {
  }

  lemma EchoComesBack(x: string)
    requires x != [] && !IsOption(x)
    ensures ComesBack(["Write-Output", x]) <==> x != "-"
  {
    hide ShellName, Lower, Assignment;
    PowerShellNames();
    PosixNames();
    var p := ["Write-Output", x];
    if Dashed(x) {
      assert x == "-" && Dashed(p[1]);
    } else {
      assert TranslateSegment(PowerShell, p) == Some(["echo", x]);
      assert TranslateSegment(Posix, ["echo", x]) == Some(p);
    }
  }

  /** `which` never comes back: its POSIX form starts with a word the dictionary does not know. */
  lemma WhichDoesNot(x: string)
    ensures !ComesBack(["Get-Command", x])
  {
    hide ShellName, Lower, Assignment;
    PowerShellNames();
    PosixNames();
    var p := ["Get-Command", x];
    var q := TranslateSegment(PowerShell, p);
    if q.Some? {
      assert q == Some(["command", "-v", x]);
      assert TranslateSegment(Posix, q.value).None?;
    }
  }

  lemma LowerIs(w: string, lower: string)
    requires |lower| == |w| && forall i | 0 <= i < |w| :: lower[i] == LowerChar(w[i])
    ensures Lower(w) == lower
  {
  }

  lemma CountParameter()
    ensures ModeOf("-TotalCount").Head?
  {
    hide Lower;
    LowerIs("-TotalCount", "-totalcount");
  }

  lemma TailParameter()
    ensures ModeOf("-Tail").Tail?
  {
    hide Lower;
    LowerIs("-Tail", "-tail");
    assert "-tail"[1] == 't';
  }

  lemma ParametersAre()
    ensures ModeOf("-TotalCount").Head? && ModeOf("-Tail").Tail? && Lower("-Force") == "-force"
    ensures CountOf("-n").InNextToken?
  {
    hide Lower, ModeOf;
    CountParameter();
    TailParameter();
    LowerIs("-Force", "-force");
  }

  lemma ContentRead(x: string, parameter: string, digits: string)
    requires x != [] && !Dashed(x) && !ModeOf(parameter).Whole? && IsDigits(digits)
    ensures ContentOf(["Get-Content", x, parameter, digits], 1, None, Whole, 0)
            == Some((x, ModeOf(parameter), ParseNat(digits)))
  {
    hide ModeOf, ParseNat;
    NotAParameter(x);
    var p := ["Get-Content", x, parameter, digits];
    var mode, n := ModeOf(parameter), ParseNat(digits);
    assert ContentOf(p, 4, Some(x), mode, n) == Some((x, mode, n));
    assert ContentOf(p, 2, Some(x), Whole, 0) == Some((x, mode, n));
  }

  lemma LinesRead(command: string, x: string, digits: string)
    requires x != [] && !Dashed(x) && IsDigits(digits)
    ensures LinesAndFile([command, "-n", digits, x], 1, 10, None) == Some((ParseNat(digits), x))
  {
    hide CountOf, ParseNat, ModeOf, Lower;
    ParametersAre();
    var q := [command, "-n", digits, x];
    var n := ParseNat(digits);
    assert LinesAndFile(q, 4, n, Some(x)) == Some((n, x));
    assert LinesAndFile(q, 3, n, None) == Some((n, x));
  }

  /** So many lines of a file always come back, the number in its plain form. */
  lemma LinesComeBack(x: string, parameter: string, n: nat)
    requires x != [] && !Dashed(x) && (parameter == "-TotalCount" || parameter == "-Tail")
    ensures ComesBack(["Get-Content", x, parameter, PrintNat(n)])
  {
    hide ShellName, Lower, Assignment, ModeOf, CountOf, PrintNat, ContentOf, LinesAndFile;
    PowerShellNames();
    PosixNames();
    ParametersAre();
    var digits := PrintNat(n);
    ContentRead(x, parameter, digits);
    var command := if ModeOf(parameter).Head? then "head" else "tail";
    LinesRead(command, x, digits);
    assert TranslateSegment(PowerShell, ["Get-Content", x, parameter, digits]) == Some([command, "-n", digits, x]);
  }

  /** A listing comes back unless its path is the environment drive; that one comes back as the environment,
      so only when it was spelled that way and nothing hidden was asked for. */
  lemma ListingComesBack(force: bool, paths: seq<string>)
    requires |paths| <= 1 && forall x | x in paths :: x != [] && !Dashed(x)
    ensures ComesBack(["Get-ChildItem"] + ForceFlag(force) + paths)
       <==> (paths == [] || !EnvironmentDrive(paths[0]) || (paths[0] == "Env:" && !force))
  {
    hide ShellName, Lower, Assignment, EnvironmentDrive;
    var p := ["Get-ChildItem"] + ForceFlag(force) + paths;
    if paths != [] { assert paths[0] in paths; }
    PowerShellListingRead(force, paths);
    if paths != [] && EnvironmentDrive(paths[0]) {
      if force {
        ForcedEnvironmentIsRefused(paths[0]);
        assert p == ["Get-ChildItem", "-Force", paths[0]];
      } else {
        assert p == ["Get-ChildItem", paths[0]];
        EnvironmentComesBack(paths[0]);
      }
    } else {
      PlainListingComesBack(force, paths);
    }
  }

  lemma PowerShellListingRead(force: bool, paths: seq<string>)
    requires |paths| <= 1 && forall x | x in paths :: x != [] && !Dashed(x)
    ensures PowerShellListing(["Get-ChildItem"] + ForceFlag(force) + paths, 1, false, []) == Some((force, paths))
  {
    hide Lower;
    ParametersAre();
    var p := ["Get-ChildItem"] + ForceFlag(force) + paths;
    if paths != [] {
      assert paths[0] in paths;
      NotAParameter(paths[0]);
      var at := if force then 2 else 1;
      assert p[at] == paths[0] && paths == [] + [paths[0]];
      assert PowerShellListing(p, at + 1, force, paths) == Some((force, paths));
      assert PowerShellListing(p, at, force, []) == Some((force, paths));
    } else {
      assert PowerShellListing(p, |p|, force, []) == Some((force, []));
    }
  }

  lemma ForcedEnvironmentIsRefused(x: string)
    requires x != [] && !Dashed(x) && EnvironmentDrive(x)
    ensures !ComesBack(["Get-ChildItem", "-Force", x])
  {
    hide ShellName, Lower, Assignment, EnvironmentDrive;
    PowerShellNames();
    PowerShellListingRead(true, [x]);
    var p := ["Get-ChildItem", "-Force", x];
    assert p == ["Get-ChildItem"] + ForceFlag(true) + [x];
    assert Dashed(p[1]);
  }

  lemma EnvironmentComesBack(x: string)
    requires x != [] && !Dashed(x) && EnvironmentDrive(x)
    ensures ComesBack(["Get-ChildItem", x]) <==> x == "Env:"
  {
    hide ShellName, Lower, Assignment, EnvironmentDrive;
    PowerShellNames();
    PosixNames();
    var p := ["Get-ChildItem", x];
    assert NoParameter(p);
    assert TranslateSegment(PowerShell, p) == Some(["env"]);
    assert TranslateSegment(Posix, ["env"]) == Some(["Get-ChildItem", "Env:"]);
  }

  lemma PlainListingComesBack(force: bool, paths: seq<string>)
    requires |paths| <= 1 && forall x | x in paths :: x != [] && !Dashed(x)
    requires paths != [] ==> !EnvironmentDrive(paths[0])
    ensures ComesBack(["Get-ChildItem"] + ForceFlag(force) + paths)
  {
    hide ShellName, Lower, Assignment, EnvironmentDrive;
    PowerShellNames();
    PosixNames();
    PowerShellListingRead(force, paths);
    var p := ["Get-ChildItem"] + ForceFlag(force) + paths;
    var q := ["ls"] + (if force then ["-a"] else []) + paths;
    assert PowerShellEnvironment(p).None? by {
      if |p| == 2 { if force { assert Dashed(p[1]); } else { assert p[1] == paths[0]; } }
    }
    assert TranslateSegment(PowerShell, p) == Some(q);
    PosixListingRead(force, paths);
    assert TranslateSegment(Posix, q) == Some(p);
  }

  lemma PosixListingRead(force: bool, paths: seq<string>)
    requires |paths| <= 1 && forall x | x in paths :: x != [] && !Dashed(x)
    ensures PosixListing(["ls"] + (if force then ["-a"] else []) + paths, 1, false, []) == Some((force, paths))
  {
    var q := ["ls"] + (if force then ["-a"] else []) + paths;
    var at := if force then 2 else 1;
    if force {
      assert q[1] == "-a" && "-a"[1..] == ['a'];
    }
    if paths != [] {
      assert paths[0] in paths;
      assert q[at] == paths[0] && paths == [] + [paths[0]];
      assert PosixListing(q, at + 1, force, paths) == Some((force, paths));
    }
    assert PosixListing(q, at, force, []) == Some((force, paths));
  }

  // ---- all commands -----------------------------------------------------------------------------------------------

  /** What a POSIX command must avoid to come back. */
  predicate Reversible(segment: seq<string>)
    requires segment != []
  {
    var program := ShellName(segment[0]);
    if program == "which" then false
    else if program == "cat" || program == "echo" then |segment| != 2 || segment[1] != "-"
    else if program == "ls" then
      var listing := PosixListing(segment, 1, false, []);
      listing.Some? && |listing.value.1| > 0 ==>
        !EnvironmentDrive(listing.value.1[0]) || (listing.value.1[0] == "Env:" && !listing.value.0)
    else true
  }

  /** A command the dictionary translates comes back to its PowerShell form if and only if it is not a
      `which`, its operand is not a lone dash, and it does not list the environment drive other than as
      `ls Env:`. */
  lemma ReversibleCommands(segment: seq<string>)
    requires CleanSegment(segment) && TranslateSegment(Posix, segment).Some?
    ensures var p := TranslateSegment(Posix, segment).value; p != [] && (ComesBack(p) <==> Reversible(segment))
  {
    hide ShellName, Lower, Assignment, EnvironmentDrive, ComesBack, PosixRefused, Clean, CountOf;
    var program := ShellName(segment[0]);
    var p := TranslateSegment(Posix, segment).value;
    TokensAreNotEmpty(segment);
    if program == "env" || program == "printenv" {
      EnvComesBack();
    } else if program == "ls" {
      PosixListingCopies(segment, 1, false, []);
      var listing := PosixListing(segment, 1, false, []).value;
      TokensOf(listing.1);
      ListingComesBack(listing.0, listing.1);
    } else if program == "head" || program == "tail" {
      LinesAndFileCopies(segment, 1, 10, None);
      var parsed := LinesAndFile(segment, 1, 10, None).value;
      TokensOf([parsed.1]);
      LinesComeBack(parsed.1, if program == "head" then "-TotalCount" else "-Tail", parsed.0);
    } else if program == "cat" {
      CatComesBack(segment[1]);
    } else if program == "pwd" {
      PwdComesBack();
    } else if program == "echo" {
      EchoComesBack(segment[1]);
    } else {
      WhichDoesNot(segment[1]);
    }
  }

  lemma TokensAreNotEmpty(segment: seq<string>)
    requires CleanSegment(segment)
    ensures forall i | 0 <= i < |segment| :: segment[i] != []
  {
    assert forall i | 0 <= i < |segment| :: segment[i] in segment && Clean(segment[i]);
  }

  lemma TokensOf(tokens: seq<string>)
    requires forall t | t in tokens :: Clean(t)
    ensures forall t | t in tokens :: t != []
  {
  }

  // ---- and whole lines -----------------------------------------------------------------------

  lemma {:induction false} JoinStarts(parts: seq<string>, separator: string) returns (rest: string)
    requires parts != [] && separator != []
    ensures Join(parts, separator) == parts[0] + rest && (rest == [] || rest[0] == separator[0])
  {
    if |parts| == 1 {
      rest := [];
      assert parts[0] + rest == parts[0];
    } else {
      var n := |parts| - 1;
      var before := JoinStarts(parts[..n], separator);
      rest := before + separator + parts[n];
      assert Join(parts, separator) == parts[0] + rest;
    }
  }

  lemma {:induction false} FirstPrinted(segments: seq<seq<string>>)
    requires segments != []
    ensures PrintAll(segments) != [] && PrintAll(segments)[0] == Join(segments[0], " ")
  {
    if |segments| > 1 { FirstPrinted(segments[..|segments| - 1]); }
  }

  /** A printed line starts with the first token of its first command. */
  lemma PrintStarts(segments: seq<seq<string>>) returns (rest: string)
    requires segments != [] && segments[0] != []
    ensures Print(segments) == segments[0][0] + rest && (rest == [] || rest[0] == ' ' || rest[0] == ';')
  {
    FirstPrinted(segments);
    var tail := JoinStarts(PrintAll(segments), "; ");
    var first := JoinStarts(segments[0], " ");
    rest := first + tail;
    assert segments[0][0] + first + tail == segments[0][0] + rest;
  }

  lemma {:induction false} TakeName(w: string, rest: string)
    requires (forall c | c in w :: NameChar(c)) && (rest == [] || rest[0] == ' ' || rest[0] == ';')
    ensures TakeWord(w + rest) == w
  {
    if w == [] {
      assert w + rest == rest;
    } else {
      assert w[0] in w && NameChar(w[0]) && forall c | c in w[1..] :: c in w;
      TakeName(w[1..], rest);
      assert (w + rest)[1..] == w[1..] + rest;
    }
  }

  lemma ReadingCommandIsName(d: Dialect, w: string)
    requires ReadingCommand(d, w)
    ensures w != [] && forall c | c in w :: NameChar(c)
  {
  }

  lemma FirstWordOfPrint(d: Dialect, segments: seq<seq<string>>)
    requires segments != [] && segments[0] != [] && ReadingCommand(d, segments[0][0])
    ensures FirstWord(Print(segments)) == segments[0][0]
  {
    hide ReadingCommand, Print, TakeWord;
    var w := segments[0][0];
    ReadingCommandIsName(d, w);
    var rest := PrintStarts(segments);
    assert w[0] in w && NameChar(w[0]);
    NotInSets(w[0]);
    assert (w + rest)[0] == w[0];
    assert TrimLeft(w + rest, SPACES) == w + rest;
    TakeName(w, rest);
  }

  lemma PowerShellIsRecognised(w: string)
    requires ReadingCommand(PowerShell, w)
    ensures Known(PowerShell, ShellName(w))
  {
    hide ShellName;
    PowerShellNames();
  }

  lemma TranslatedIsKnown(segment: seq<string>)
    requires segment != [] && TranslateSegment(Posix, segment).Some?
    ensures Known(Posix, ShellName(segment[0]))
  {
    hide ShellName, PosixRefused, Assignment;
  }

  lemma {:induction false} AllTranslate(source: Dialect, segments: seq<seq<string>>, outs: seq<seq<string>>)
    requires NonEmpty(segments) && |outs| == |segments|
    requires forall i | 0 <= i < |segments| ::
               segments[i] != [] && TranslateSegment(source, segments[i]) == Some(outs[i])
    ensures TranslateAll(source, segments) == Some(outs)
  {
    hide TranslateSegment;
    if segments != [] {
      var n := |segments| - 1;
      FrontNonEmpty(segments, n);
      AllTranslate(source, segments[..n], outs[..n]);
      assert outs == outs[..n] + [outs[n]];
    }
  }

  predicate LineComesBack(p: string) {
    var q := Translate(PowerShell, p);
    q.Translated? && Translate(Posix, q.executed) == Translated(p)
  }

  /** A line of clean commands, recognised by its first word, translates when each command does. */
  lemma LineTranslates(source: Dialect, segments: seq<seq<string>>, outs: seq<seq<string>>)
    requires CleanSegments(segments) && NonEmpty(segments) && |outs| == |segments|
    requires forall i | 0 <= i < |segments| ::
               segments[i] != [] && TranslateSegment(source, segments[i]) == Some(outs[i])
    requires ReadingCommand(source, segments[0][0]) && Known(source, ShellName(segments[0][0]))
    ensures Translate(source, Print(segments)) == Translated(Print(outs))
  {
    hide Scan, TranslateSegment, TranslateAll, Print, FirstWord, ShellName, Known, Assignment, ReadingCommand;
    FirstWordOfPrint(source, segments);
    PrintThenScan(segments);
    AllTranslate(source, segments, outs);
  }

  lemma CommandsComeBack(outs: seq<seq<string>>)
    requires CleanSegments(outs) && NonEmpty(outs)
    requires forall i | 0 <= i < |outs| :: outs[i] != [] && ReadingCommand(PowerShell, outs[i][0]) && ComesBack(outs[i])
    ensures LineComesBack(Print(outs))
  {
    var qs := seq(|outs|, i requires 0 <= i < |outs| => TranslateSegment(PowerShell, outs[i]).value);
    assert forall i | 0 <= i < |outs| :: TranslateSegment(PowerShell, outs[i]) == Some(qs[i])
                                        && qs[i] != [] && TranslateSegment(Posix, qs[i]) == Some(outs[i]);
    hide Scan, TranslateSegment, TranslateAll, Print, FirstWord, ShellName, Known, Assignment, ReadingCommand,
         ComesBack, Recognises;
    PowerShellIsRecognised(outs[0][0]);
    LineTranslates(PowerShell, outs, qs);
    AllOrNothing(PowerShell, Print(outs));
    PrintThenScan(outs);
    AllTranslate(PowerShell, outs, qs);
    TranslatedIsKnown(qs[0]);
    QsNonEmpty(qs);
    LineTranslates(Posix, qs, outs);
  }

  lemma QsNonEmpty(qs: seq<seq<string>>)
    requires forall i | 0 <= i < |qs| :: qs[i] != []
    ensures NonEmpty(qs)
  {
  }

  lemma LineBackMeansCommandsBack(outs: seq<seq<string>>, i: nat)
    requires CleanSegments(outs) && LineComesBack(Print(outs)) && i < |outs| && outs[i] != []
    ensures ComesBack(outs[i])
  {
    hide Scan, TranslateSegment, TranslateAll, Print, FirstWord, ShellName, Known, Assignment, ReadingCommand,
         Recognises, Means;
    var p := Print(outs);
    PrintThenScan(outs);
    AllOrNothing(PowerShell, p);
    var q := Translate(PowerShell, p).executed;
    var qs := Scan(q).value;
    AllOrNothing(Posix, q);
    assert |qs| == |outs| && TranslateSegment(PowerShell, outs[i]) == Some(qs[i]);
    assert TranslateSegment(Posix, qs[i]) == Some(outs[i]);
  }

  /** A line that translates comes back to its first PowerShell form if and only if all of its commands do:
      none is a `which`, none has a lone dash for an operand, none lists the environment drive but as
      `ls Env:`. */
  lemma RoundTrip(line: string)
    requires Translate(Posix, line).Translated?
    ensures Scan(line).Some? && NonEmpty(Scan(line).value)
    ensures LineComesBack(Translate(Posix, line).executed) <==> forall g | g in Scan(line).value :: Reversible(g)
  {
    hide Scan, TranslateSegment, TranslateAll, Print, Recognises, ReadingCommand, ComesBack, Reversible, LineComesBack,
         Means, CleanSegment;
    AllOrNothing(Posix, line);
    var segments, outs := Scan(line).value, Scan(Translate(Posix, line).executed).value;
    ScanIsClean(line);
    assert Translate(Posix, line).executed == Print(outs);
    forall i | 0 <= i < |outs| ensures ComesBack(outs[i]) <==> Reversible(segments[i]) {
      assert segments[i] in segments && CleanSegment(segments[i]);
      ReversibleCommands(segments[i]);
    }
    if LineComesBack(Print(outs)) {
      forall i | 0 <= i < |outs| ensures Reversible(segments[i]) { LineBackMeansCommandsBack(outs, i); }
      forall g | g in segments ensures Reversible(g) {
        var i :| 0 <= i < |segments| && segments[i] == g;
      }
    }
    if forall g | g in segments :: Reversible(g) {
      assert forall i | 0 <= i < |segments| :: segments[i] in segments;
      QsNonEmpty(outs);
      CommandsComeBack(outs);
    }
  }
}

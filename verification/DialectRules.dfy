/**
 The dictionary between the two shells: for each program it reads, which token lists it covers and what
 it writes for them.  Every rule maps a command that only inspects the machine to another such command.
 */
module DialectRules {
  import opened Options
  import opened CommandScan
  import opened Strings

  datatype Dialect = Posix | PowerShell

  // ---- program names ----------------------------------------------------------------------------------

  const QUOTES: set<char> := {'\"', '\''}
  const SLASHES: set<char> := {'/', '\\'}

  /** What follows the last separator. */
  function LastPart(s: string): string {
    if s == [] || s[|s| - 1] in SLASHES then [] else LastPart(s[..|s| - 1]) + [s[|s| - 1]]
  }

  predicate EndsIn(s: string, suffix: string) {
    |s| > |suffix| && s[|s| - |suffix|..] == suffix
  }

  function WithoutSuffix(s: string): string {
    if EndsIn(s, ".exe") || EndsIn(s, ".cmd") || EndsIn(s, ".bat") || EndsIn(s, ".com") then s[..|s| - 4] else s
  }

  /** The program a word names: without quotes, directory, case or executable suffix. */
  function ShellName(word: string): string {
    var bare := TrimRight(TrimLeft(TrimRight(TrimLeft(word, SPACES), SPACES), QUOTES), QUOTES);
    WithoutSuffix(Lower(LastPart(bare)))
  }

  // ---- rules from POSIX ---------------------------------------------------------------------------------------

  predicate Dashed(token: string) {
    token != [] && token[0] == '-'
  }

  predicate IsOption(token: string) {
    Dashed(token) && |token| > 1
  }

  function SingleOperand(tokens: seq<string>): Option<string> {
    if |tokens| != 2 || IsOption(tokens[1]) then None else Some(tokens[1])
  }

  /** Only the letters `a`, `A` and `l`, and at least one of them. */
  predicate ListingLetters(letters: string) {
    letters != [] && forall c | c in letters :: c in {'a', 'A', 'l'}
  }

  predicate ShowsHidden(letters: string) {
    'a' in letters || 'A' in letters
  }

  /** The listing options and paths, from token `i` on. */
  function PosixListing(tokens: seq<string>, i: nat, force: bool, paths: seq<string>): Option<(bool, seq<string>)>
    decreases |tokens| - i
  {
    if i >= |tokens| then Some((force, paths))
    else if Dashed(tokens[i]) then
      if !ListingLetters(tokens[i][1..]) then None
      else PosixListing(tokens, i + 1, force || ShowsHidden(tokens[i][1..]), paths)
    else PosixListing(tokens, i + 1, force, paths + [tokens[i]])
  }

  /** What is not an option, in order. */
  function Operands(tokens: seq<string>): seq<string> {
    if tokens == [] then [] else (if Dashed(tokens[0]) then [] else [tokens[0]]) + Operands(tokens[1..])
  }

  /** A dash that is not followed by letters of `ls`, `a`, `A` and `l`, and by one of them at least. */
  ghost predicate ForeignOption(t: string) {
    t != "" && t[0] == '-' && (t == "-" || exists c :: c in t[1..] && c != 'a' && c != 'A' && c != 'l')
  }

  ghost predicate HiddenOption(t: string) {
    t != "" && t[0] == '-' && exists c :: c in t[1..] && (c == 'a' || c == 'A')
  }

  /** A listing of `ls` is refused exactly when some option has another letter; hidden files are shown exactly
      when some option says so; the paths are the other tokens, in order. */
  ghost predicate PosixListingOf(rest: seq<string>, listing: Option<(bool, seq<string>)>) {
    && (listing.None? <==> exists t | t in rest :: ForeignOption(t))
    && (listing.Some? ==>
          && (listing.value.0 <==> exists t | t in rest :: HiddenOption(t))
          && listing.value.1 == Operands(rest))
  }

  lemma ListingOption(t: string)
    ensures ForeignOption(t) <==> Dashed(t) && !ListingLetters(t[1..])
    ensures HiddenOption(t) <==> Dashed(t) && ShowsHidden(t[1..])
    ensures IsOption(t) || t == "-" <==> Dashed(t)
  {
    if Dashed(t) {
      assert t == "-" <==> t[1..] == [];
    }
  }

  lemma {:induction false} PosixListingFrom(tokens: seq<string>, i: nat, force: bool, paths: seq<string>)
    requires i <= |tokens|
    ensures var rest, listing := tokens[i..], PosixListing(tokens, i, force, paths);
            && (listing.None? <==> exists t | t in rest :: ForeignOption(t))
            && (listing.Some? ==>
                  && (listing.value.0 <==> force || exists t | t in rest :: HiddenOption(t))
                  && listing.value.1 == paths + Operands(rest))
    decreases |tokens| - i
  {
    if i < |tokens| {
      hide ListingLetters, ShowsHidden, Dashed, ForeignOption, HiddenOption;
      var t := tokens[i];
      ListingOption(t);
      assert tokens[i..] == [t] + tokens[i + 1..];
      if Dashed(t) {
        if ListingLetters(t[1..]) { PosixListingFrom(tokens, i + 1, force || ShowsHidden(t[1..]), paths); }
      } else {
        PosixListingFrom(tokens, i + 1, force, paths + [t]);
      }
    }
  }

  method ReadPosixListing(tokens: seq<string>) returns (listing: Option<(bool, seq<string>)>)
    requires tokens != []
    ensures listing == PosixListing(tokens, 1, false, []) && PosixListingOf(tokens[1..], listing)
  {
    var force, paths := false, [];
    PosixListingFrom(tokens, 1, force, paths);
    var i := 1;
    while i < |tokens|
      invariant 1 <= i <= |tokens|
      invariant PosixListing(tokens, i, force, paths) == PosixListing(tokens, 1, false, [])
    {
      if Dashed(tokens[i]) {
        if !ListingLetters(tokens[i][1..]) {
          return None;
        }
        force := force || ShowsHidden(tokens[i][1..]);
      } else {
        paths := paths + [tokens[i]];
      }
      i := i + 1;
    }
    listing := Some((force, paths));
  }

  function ForceFlag(force: bool): seq<string> {
    if force then ["-Force"] else []
  }

  function PosixListDirectory(tokens: seq<string>): Option<seq<string>> {
    var listing := PosixListing(tokens, 1, false, []);
    if listing.None? || |listing.value.1| > 1 then None
    else Some(["Get-ChildItem"] + ForceFlag(listing.value.0) + listing.value.1)
  }

  datatype CountOption = NotACount | InNextToken | Attached(count: nat)

  /** `-n`, `-nN` or `-N`. */
  function CountOf(token: string): CountOption {
    if !Dashed(token) then NotACount
    else if token == "-n" then InNextToken
    else if |token| > 2 && token[1] == 'n' && IsDigits(token[2..]) then Attached(ParseNat(token[2..]))
    else if IsDigits(token[1..]) then Attached(ParseNat(token[1..]))
    else NotACount
  }

  /** The number of lines and the one file, from token `i` on. */
  function LinesAndFile(tokens: seq<string>, i: nat, count: nat, file: Option<string>): Option<(nat, string)>
    decreases |tokens| - i
  {
    if i >= |tokens| then
      if file.None? then None else Some((count, file.value))
    else if Dashed(tokens[i]) then
      match CountOf(tokens[i])
      case NotACount => None
      case InNextToken =>
        if i + 1 >= |tokens| || !IsDigits(tokens[i + 1]) then None
        else LinesAndFile(tokens, i + 2, ParseNat(tokens[i + 1]), file)
      case Attached(n) => LinesAndFile(tokens, i + 1, n, file)
    else if file.None? then LinesAndFile(tokens, i + 1, count, Some(tokens[i]))
    else None
  }

  /** One argument of `head` or `tail`, as it is written. */
  datatype LineArgument =
    | CountNext(digits: string) | CountAttached(digits: string) | CountPlain(digits: string) | FileName(name: string)

  /** A count is a decimal number, and a file does not look like an option. */
  predicate Proper(a: LineArgument) {
    match a
    case CountNext(digits) => IsDigits(digits)
    case CountAttached(digits) => IsDigits(digits)
    case CountPlain(digits) => IsDigits(digits)
    case FileName(name) => name == "" || name[0] != '-'
  }

  function Spelled(args: seq<LineArgument>): seq<string> {
    if args == [] then []
    else (match args[0]
          case CountNext(digits) => ["-n", digits]
          case CountAttached(digits) => ["-n" + digits]
          case CountPlain(digits) => ["-" + digits]
          case FileName(name) => [name]) + Spelled(args[1..])
  }

  function FilesOf(args: seq<LineArgument>): seq<string> {
    if args == [] then [] else (if args[0].FileName? then [args[0].name] else []) + FilesOf(args[1..])
  }

  /** The last count wins. */
  function LastCount(args: seq<LineArgument>, count: nat): nat
    requires forall a | a in args :: Proper(a)
  {
    if args == [] then count
    else
      assert Proper(args[0]);
      LastCount(args[1..], match args[0]
                           case CountNext(digits) => ParseNat(digits)
                           case CountAttached(digits) => ParseNat(digits)
                           case CountPlain(digits) => ParseNat(digits)
                           case FileName(_) => count)
  }

  ghost predicate Writes(args: seq<LineArgument>, rest: seq<string>) {
    (forall a | a in args :: Proper(a)) && Spelled(args) == rest
  }

  /** The tokens are properly written arguments, one of them a file. */
  ghost predicate LinesMean(rest: seq<string>, count: nat, file: string) {
    exists args :: Writes(args, rest) && FilesOf(args) == [file] && LastCount(args, 10) == count
  }

  function Listed(file: Option<string>): seq<string> {
    if file.Some? then [file.value] else []
  }

  /** One more argument in front. */
  lemma LineCons(a: LineArgument, args: seq<LineArgument>, count: nat)
    requires Proper(a) && forall b | b in args :: Proper(b)
    ensures forall b | b in [a] + args :: Proper(b)
    ensures Spelled([a] + args) == Spelled([a]) + Spelled(args) && FilesOf([a] + args) == FilesOf([a]) + FilesOf(args)
    ensures LastCount([a] + args, count) == LastCount(args, LastCount([a], count))
  {
    assert ([a] + args)[1..] == args && [a][1..] == [];
  }

  lemma {:induction false} LinesRead(tokens: seq<string>, i: nat, count: nat, file: Option<string>)
    returns (args: seq<LineArgument>)
    requires i <= |tokens| && LinesAndFile(tokens, i, count, file).Some?
    ensures Writes(args, tokens[i..])
    ensures |Listed(file) + FilesOf(args)| == 1
    ensures LinesAndFile(tokens, i, count, file) == Some((LastCount(args, count), (Listed(file) + FilesOf(args))[0]))
    decreases |tokens| - i
  {
    hide ParseNat, CountOf, Spelled, FilesOf, LastCount, Proper;
    if i == |tokens| {
      args := [];
      NoArgument(count);
    } else {
      var rest, first;
      if Dashed(tokens[i]) && CountOf(tokens[i]).InNextToken? {
        rest := LinesRead(tokens, i + 2, ParseNat(tokens[i + 1]), file);
        NextTokenIsN(tokens[i]);
        first := CountNext(tokens[i + 1]);
        assert tokens[i..] == ["-n", tokens[i + 1]] + tokens[i + 2..];
      } else if Dashed(tokens[i]) {
        first := CountRead(tokens[i], count);
        rest := LinesRead(tokens, i + 1, CountOf(tokens[i]).count, file);
        assert tokens[i..] == [tokens[i]] + tokens[i + 1..];
      } else {
        rest := LinesRead(tokens, i + 1, count, Some(tokens[i]));
        first := FileName(tokens[i]);
        assert tokens[i..] == [tokens[i]] + tokens[i + 1..];
      }
      OneArgument(first, count);
      LineCons(first, rest, count);
      args := [first] + rest;
    }
  }

  lemma NoArgument(count: nat)
    ensures Spelled([]) == [] && FilesOf([]) == [] && LastCount([], count) == count
  {
  }

  /** What one argument is, and how it is written. */
  lemma OneArgument(a: LineArgument, count: nat)
    ensures a.CountNext? && IsDigits(a.digits) ==>
              && Proper(a) && Spelled([a]) == ["-n", a.digits] && FilesOf([a]) == []
              && LastCount([a], count) == ParseNat(a.digits)
    ensures a.FileName? && !Dashed(a.name) ==>
              Proper(a) && Spelled([a]) == [a.name] && FilesOf([a]) == [a.name] && LastCount([a], count) == count
  {
  }

  lemma NextTokenIsN(token: string)
    ensures CountOf(token).InNextToken? <==> token == "-n"
  {
  }

  /** How an option with its count inside is written. */
  lemma CountRead(token: string, count: nat) returns (a: LineArgument)
    requires CountOf(token).Attached?
    ensures Proper(a) && (a.CountAttached? || a.CountPlain?)
    ensures Spelled([a]) == [token] && FilesOf([a]) == [] && LastCount([a], count) == CountOf(token).count
  {
    if |token| > 2 && token[1] == 'n' && IsDigits(token[2..]) {
      a := CountAttached(token[2..]);
      assert "-n" + token[2..] == token;
    } else {
      a := CountPlain(token[1..]);
      assert "-" + token[1..] == token;
    }
  }

  lemma AttachedCount(digits: string)
    requires IsDigits(digits)
    ensures CountOf("-n" + digits) == Attached(ParseNat(digits)) && CountOf("-" + digits) == Attached(ParseNat(digits))
    ensures Dashed("-n" + digits) && Dashed("-" + digits)
  {
    assert ("-n" + digits)[2..] == digits && ("-" + digits)[1..] == digits;
    assert digits[0] in digits;
  }

  lemma {:induction false} LinesAccepted(tokens: seq<string>, i: nat, count: nat, file: Option<string>,
                                         args: seq<LineArgument>)
    requires i <= |tokens| && Writes(args, tokens[i..]) && |Listed(file) + FilesOf(args)| == 1
    ensures LinesAndFile(tokens, i, count, file) == Some((LastCount(args, count), (Listed(file) + FilesOf(args))[0]))
    decreases |args|
  {
    if args != [] {
      hide IsDigits, ParseNat, CountOf;
      var rest := args[1..];
      assert args == [args[0]] + rest && Proper(args[0]) && forall a | a in rest :: a in args;
      match args[0] {
        case CountNext(digits) =>
          NextTokenIsN("-n");
          assert tokens[i] == tokens[i..][0] == "-n" && tokens[i + 1] == tokens[i..][1] == digits;
          assert tokens[i + 2..] == tokens[i..][2..] == Spelled(rest);
          LinesAccepted(tokens, i + 2, ParseNat(digits), file, rest);
        case CountAttached(digits) =>
          assert tokens[i] == tokens[i..][0] == "-n" + digits && tokens[i + 1..] == tokens[i..][1..] == Spelled(rest);
          AttachedCount(digits);
          LinesAccepted(tokens, i + 1, ParseNat(digits), file, rest);
        case CountPlain(digits) =>
          assert tokens[i] == tokens[i..][0] == "-" + digits && tokens[i + 1..] == tokens[i..][1..] == Spelled(rest);
          AttachedCount(digits);
          LinesAccepted(tokens, i + 1, ParseNat(digits), file, rest);
        case FileName(name) =>
          assert tokens[i] == tokens[i..][0] == name && tokens[i + 1..] == tokens[i..][1..] == Spelled(rest);
          LinesAccepted(tokens, i + 1, count, Some(name), rest);
      }
    } else {
      assert tokens[i..] == [];
    }
  }

  lemma LinesAreMeant(tokens: seq<string>, count: nat, file: string)
    requires tokens != []
    ensures LinesAndFile(tokens, 1, 10, None) == Some((count, file)) <==> LinesMean(tokens[1..], count, file)
  {
    hide LinesAndFile, Spelled, Proper;
    if LinesAndFile(tokens, 1, 10, None) == Some((count, file)) {
      var args := LinesRead(tokens, 1, 10, None);
      assert Listed(None) + FilesOf(args) == FilesOf(args);
      assert FilesOf(args) == [file];
    }
    if LinesMean(tokens[1..], count, file) {
      var args :| Writes(args, tokens[1..]) && FilesOf(args) == [file] && LastCount(args, 10) == count;
      assert Listed(None) + FilesOf(args) == FilesOf(args);
      LinesAccepted(tokens, 1, 10, None, args);
    }
  }

  method ReadLinesAndFile(tokens: seq<string>) returns (parsed: Option<(nat, string)>)
    requires tokens != []
    ensures parsed == LinesAndFile(tokens, 1, 10, None)
    ensures forall count: nat, file :: parsed == Some((count, file)) <==> LinesMean(tokens[1..], count, file)
  {
    forall count: nat, file
      ensures LinesAndFile(tokens, 1, 10, None) == Some((count, file)) <==> LinesMean(tokens[1..], count, file)
    {
      LinesAreMeant(tokens, count, file);
    }
    hide LinesMean;
    var count: nat, file: Option<string>, i := 10, None, 1;
    while i < |tokens|
      invariant 1 <= i <= |tokens|
      invariant LinesAndFile(tokens, i, count, file) == LinesAndFile(tokens, 1, 10, None)
    {
      if Dashed(tokens[i]) {
        var option := CountOf(tokens[i]);
        if option.NotACount? {
          return None;
        }
        if option.InNextToken? {
          i := i + 1;
          if i >= |tokens| || !IsDigits(tokens[i]) {
            return None;
          }
          count := ParseNat(tokens[i]);
        } else {
          count := option.count;
        }
      } else if file.None? {
        file := Some(tokens[i]);
      } else {
        return None;
      }
      i := i + 1;
    }
    parsed := if file.None? then None else Some((count, file.value));
  }

  function PosixLines(tokens: seq<string>, parameter: string): Option<seq<string>> {
    var parsed := LinesAndFile(tokens, 1, 10, None);
    if parsed.None? then None else Some(["Get-Content", parsed.value.1, parameter, PrintNat(parsed.value.0)])
  }

  function PosixOperand(tokens: seq<string>, command: string): Option<seq<string>> {
    var operand := SingleOperand(tokens);
    if operand.None? then None else Some([command, operand.value])
  }

  function FromPosix(program: string, tokens: seq<string>): Option<seq<string>> {
    if program == "env" || program == "printenv" then (if |tokens| == 1 then Some(["Get-ChildItem", "Env:"]) else None)
    else if program == "ls" then PosixListDirectory(tokens)
    else if program == "head" then PosixLines(tokens, "-TotalCount")
    else if program == "tail" then PosixLines(tokens, "-Tail")
    else if program == "cat" then PosixOperand(tokens, "Get-Content")
    else if program == "pwd" then (if |tokens| == 1 then Some(["Get-Location"]) else None)
    else if program == "echo" then PosixOperand(tokens, "Write-Output")
    else if program == "which" then PosixOperand(tokens, "Get-Command")
    else None
  }

  // ---- rules from PowerShell -------------------------------------------------------------------------------------

  predicate EnvironmentDrive(path: string) {
    TrimRight(Lower(path), SLASHES) == "env:"
  }

  predicate NoParameter(tokens: seq<string>) {
    forall i | 1 <= i < |tokens| :: !Dashed(tokens[i])
  }

  function PowerShellListing(tokens: seq<string>, i: nat, force: bool, paths: seq<string>): Option<(bool, seq<string>)>
    decreases |tokens| - i
  {
    if i >= |tokens| then Some((force, paths))
    else if Lower(tokens[i]) == "-force" then PowerShellListing(tokens, i + 1, true, paths)
    else if Dashed(tokens[i]) then None
    else PowerShellListing(tokens, i + 1, force, paths + [tokens[i]])
  }

  predicate IsForce(token: string) {
    Lower(token) == "-force"
  }

  /** The same for `Get-ChildItem`, whose one parameter is `-Force`, in any case. */
  ghost predicate PowerShellListingOf(rest: seq<string>, listing: Option<(bool, seq<string>)>) {
    && (listing.None? <==> exists t | t in rest :: Dashed(t) && !IsForce(t))
    && (listing.Some? ==>
          && (listing.value.0 <==> exists t | t in rest :: IsForce(t))
          && listing.value.1 == Operands(rest))
  }

  lemma ForceIsDashed(token: string)
    requires IsForce(token)
    ensures Dashed(token)
  {
    assert Lower(token)[0] == LowerChar(token[0]);
  }

  lemma {:induction false} PowerShellListingFrom(tokens: seq<string>, i: nat, force: bool, paths: seq<string>)
    requires i <= |tokens|
    ensures var rest, listing := tokens[i..], PowerShellListing(tokens, i, force, paths);
            && (listing.None? <==> exists t | t in rest :: Dashed(t) && !IsForce(t))
            && (listing.Some? ==>
                  && (listing.value.0 <==> force || exists t | t in rest :: IsForce(t))
                  && listing.value.1 == paths + Operands(rest))
    decreases |tokens| - i
  {
    if i < |tokens| {
      var t := tokens[i];
      assert tokens[i..] == [t] + tokens[i + 1..];
      assert IsForce(t) <==> Lower(t) == "-force";
      if IsForce(t) { ForceIsDashed(t); }
      hide IsForce, Dashed, Lower;
      if IsForce(t) {
        PowerShellListingFrom(tokens, i + 1, true, paths);
      } else if !Dashed(t) {
        PowerShellListingFrom(tokens, i + 1, force, paths + [t]);
      }
    }
  }

  method ReadPowerShellListing(tokens: seq<string>) returns (listing: Option<(bool, seq<string>)>)
    requires tokens != []
    ensures listing == PowerShellListing(tokens, 1, false, []) && PowerShellListingOf(tokens[1..], listing)
  {
    var force, paths := false, [];
    PowerShellListingFrom(tokens, 1, force, paths);
    var i := 1;
    while i < |tokens|
      invariant 1 <= i <= |tokens|
      invariant PowerShellListing(tokens, i, force, paths) == PowerShellListing(tokens, 1, false, [])
    {
      if Lower(tokens[i]) == "-force" {
        force := true;
      } else if Dashed(tokens[i]) {
        return None;
      } else {
        paths := paths + [tokens[i]];
      }
      i := i + 1;
    }
    listing := Some((force, paths));
  }

  function PowerShellListDirectory(tokens: seq<string>): Option<seq<string>> {
    var listing := PowerShellListing(tokens, 1, false, []);
    if listing.None? || |listing.value.1| > 1
      || (listing.value.1 != [] && EnvironmentDrive(listing.value.1[0])) then None
    else Some(["ls"] + (if listing.value.0 then ["-a"] else []) + listing.value.1)
  }

  datatype Mode = Whole | Head | Tail

  function ModeOf(token: string): Mode {
    var lowered := Lower(token);
    if lowered in {"-totalcount", "-head", "-first"} then Head
    else if lowered in {"-tail", "-last"} then Tail
    else Whole
  }

  /** The file, which end of it and how many lines, from token `i` on. */
  function ContentOf(tokens: seq<string>, i: nat, file: Option<string>, mode: Mode, count: nat)
    : Option<(string, Mode, nat)>
    decreases |tokens| - i
  {
    if i >= |tokens| then
      if file.None? then None else Some((file.value, mode, count))
    else if !ModeOf(tokens[i]).Whole? then
      if !mode.Whole? || i + 1 >= |tokens| || !IsDigits(tokens[i + 1]) then None
      else ContentOf(tokens, i + 2, file, ModeOf(tokens[i]), ParseNat(tokens[i + 1]))
    else if Dashed(tokens[i]) || file.Some? then None
    else ContentOf(tokens, i + 1, Some(tokens[i]), mode, count)
  }

  /** One argument of `Get-Content`, as it is written. */
  datatype ContentArgument = Limit(end: Mode, option: string, digits: string) | PathName(name: string)

  /** Which words limit the reading to the head or the tail; a file does not look like a parameter. */
  predicate ProperContent(a: ContentArgument) {
    match a
    case Limit(end, option, digits) =>
      && IsDigits(digits)
      && (match end
          case Head =>
            Lower(option) == "-totalcount" || Lower(option) == "-head" || Lower(option) == "-first"
          case Tail => Lower(option) == "-tail" || Lower(option) == "-last"
          case Whole => false)
    case PathName(name) => name == "" || name[0] != '-'
  }

  lemma LimitMode(end: Mode, option: string, digits: string)
    ensures ProperContent(Limit(end, option, digits)) <==> !end.Whole? && ModeOf(option) == end && IsDigits(digits)
  {
  }

  function ContentSpelled(args: seq<ContentArgument>): seq<string> {
    if args == [] then []
    else (match args[0]
          case Limit(_, option, digits) => [option, digits]
          case PathName(name) => [name]) + ContentSpelled(args[1..])
  }

  function PathsOf(args: seq<ContentArgument>): seq<string> {
    if args == [] then [] else (if args[0].PathName? then [args[0].name] else []) + PathsOf(args[1..])
  }

  function LimitsOf(args: seq<ContentArgument>): seq<(Mode, nat)>
    requires forall a | a in args :: ProperContent(a)
  {
    if args == [] then []
    else
      assert ProperContent(args[0]);
      (if args[0].Limit? then [(args[0].end, ParseNat(args[0].digits))] else []) + LimitsOf(args[1..])
  }

  ghost predicate WritesContent(args: seq<ContentArgument>, rest: seq<string>) {
    (forall a | a in args :: ProperContent(a)) && ContentSpelled(args) == rest
  }

  /** The tokens are properly written arguments: one file, and one limit at most. */
  ghost predicate ContentMeans(rest: seq<string>, file: string, mode: Mode, count: nat) {
    && (mode.Whole? ==> count == 0)
    && exists args ::
         && WritesContent(args, rest) && PathsOf(args) == [file]
         && LimitsOf(args) == if mode.Whole? then [] else [(mode, count)]
  }

  function Limited(mode: Mode, count: nat): seq<(Mode, nat)> {
    if mode.Whole? then [] else [(mode, count)]
  }

  lemma ModeIsDashed(token: string)
    requires !ModeOf(token).Whole?
    ensures Dashed(token)
  {
    assert Lower(token)[0] == LowerChar(token[0]);
  }

  lemma {:induction false} ContentRead(tokens: seq<string>, i: nat, file: Option<string>, mode: Mode, count: nat)
    returns (args: seq<ContentArgument>)
    requires i <= |tokens| && ContentOf(tokens, i, file, mode, count).Some?
    ensures WritesContent(args, tokens[i..])
    ensures var (f, m, c) := ContentOf(tokens, i, file, mode, count).value;
            && Listed(file) + PathsOf(args) == [f]
            && Limited(mode, count) + LimitsOf(args) == Limited(m, c) && (m.Whole? ==> c == count)
    decreases |tokens| - i
  {
    if i == |tokens| {
      args := [];
    } else {
      hide IsDigits, ParseNat, ModeOf, Lower;
      var rest, first;
      if !ModeOf(tokens[i]).Whole? {
        rest := ContentRead(tokens, i + 2, file, ModeOf(tokens[i]), ParseNat(tokens[i + 1]));
        first := Limit(ModeOf(tokens[i]), tokens[i], tokens[i + 1]);
        LimitMode(ModeOf(tokens[i]), tokens[i], tokens[i + 1]);
        assert tokens[i..] == [tokens[i], tokens[i + 1]] + tokens[i + 2..];
      } else {
        rest := ContentRead(tokens, i + 1, Some(tokens[i]), mode, count);
        first := PathName(tokens[i]);
        assert tokens[i..] == [tokens[i]] + tokens[i + 1..];
      }
      args := [first] + rest;
      assert args[1..] == rest;
    }
  }

  lemma {:induction false} ContentAccepted(tokens: seq<string>, i: nat, file: Option<string>, mode: Mode, count: nat,
                                           args: seq<ContentArgument>)
    requires i <= |tokens| && WritesContent(args, tokens[i..])
    requires |Listed(file) + PathsOf(args)| == 1 && |Limited(mode, count) + LimitsOf(args)| <= 1
    ensures var limits := Limited(mode, count) + LimitsOf(args);
            ContentOf(tokens, i, file, mode, count)
            == Some(((Listed(file) + PathsOf(args))[0], if limits == [] then Whole else limits[0].0,
                     if limits == [] then count else limits[0].1))
    decreases |args|
  {
    if args != [] {
      hide IsDigits, ParseNat, ModeOf, Lower;
      var rest := args[1..];
      assert ProperContent(args[0]) && forall a | a in rest :: a in args;
      match args[0] {
        case Limit(end, option, digits) =>
          LimitMode(end, option, digits);
          assert tokens[i] == tokens[i..][0] == option && tokens[i + 1] == tokens[i..][1] == digits;
          assert tokens[i + 2..] == tokens[i..][2..] == ContentSpelled(rest);
          ContentAccepted(tokens, i + 2, file, ModeOf(option), ParseNat(digits), rest);
        case PathName(name) =>
          assert tokens[i] == tokens[i..][0] == name && tokens[i + 1..] == tokens[i..][1..] == ContentSpelled(rest);
          if !ModeOf(name).Whole? { ModeIsDashed(name); }
          ContentAccepted(tokens, i + 1, Some(name), mode, count, rest);
      }
    } else {
      assert tokens[i..] == [];
    }
  }

  lemma ContentIsMeant(tokens: seq<string>, file: string, mode: Mode, count: nat)
    requires tokens != []
    ensures ContentOf(tokens, 1, None, Whole, 0) == Some((file, mode, count))
            <==> ContentMeans(tokens[1..], file, mode, count)
  {
    hide ContentOf, ContentSpelled, ProperContent;
    if ContentOf(tokens, 1, None, Whole, 0) == Some((file, mode, count)) {
      var args := ContentRead(tokens, 1, None, Whole, 0);
      assert Listed(None) + PathsOf(args) == PathsOf(args);
      assert Limited(Whole, 0) + LimitsOf(args) == LimitsOf(args);
      assert PathsOf(args) == [file];
    }
    if ContentMeans(tokens[1..], file, mode, count) {
      var args :| WritesContent(args, tokens[1..]) && PathsOf(args) == [file]
                  && LimitsOf(args) == if mode.Whole? then [] else [(mode, count)];
      assert Listed(None) + PathsOf(args) == PathsOf(args);
      assert Limited(Whole, 0) + LimitsOf(args) == LimitsOf(args);
      ContentAccepted(tokens, 1, None, Whole, 0, args);
    }
  }

  method ReadContent(tokens: seq<string>) returns (parsed: Option<(string, Mode, nat)>)
    requires tokens != []
    ensures parsed == ContentOf(tokens, 1, None, Whole, 0)
    ensures forall file, mode: Mode, count: nat ::
              parsed == Some((file, mode, count)) <==> ContentMeans(tokens[1..], file, mode, count)
  {
    forall file, mode: Mode, count: nat
      ensures ContentOf(tokens, 1, None, Whole, 0) == Some((file, mode, count))
              <==> ContentMeans(tokens[1..], file, mode, count)
    {
      ContentIsMeant(tokens, file, mode, count);
    }
    hide ContentMeans;
    var file: Option<string>, mode, count: nat, i := None, Whole, 0, 1;
    while i < |tokens|
      invariant 1 <= i <= |tokens|
      invariant ContentOf(tokens, i, file, mode, count) == ContentOf(tokens, 1, None, Whole, 0)
    {
      var option := ModeOf(tokens[i]);
      if !option.Whole? {
        if !mode.Whole? || i + 1 >= |tokens| || !IsDigits(tokens[i + 1]) {
          return None;
        }
        mode, count := option, ParseNat(tokens[i + 1]);
        i := i + 2;
        continue;
      }
      if Dashed(tokens[i]) || file.Some? {
        return None;
      }
      file, i := Some(tokens[i]), i + 1;
    }
    parsed := if file.None? then None else Some((file.value, mode, count));
  }

  function PowerShellContent(tokens: seq<string>): Option<seq<string>> {
    var parsed := ContentOf(tokens, 1, None, Whole, 0);
    if parsed.None? then None
    else match parsed.value.1
      case Whole => Some(["cat", parsed.value.0])
      case Head => Some(["head", "-n", PrintNat(parsed.value.2), parsed.value.0])
      case Tail => Some(["tail", "-n", PrintNat(parsed.value.2), parsed.value.0])
  }

  function PowerShellEnvironment(tokens: seq<string>): Option<seq<string>> {
    if NoParameter(tokens) && |tokens| == 2 && EnvironmentDrive(tokens[1]) then Some(["env"]) else None
  }

  function FromPowerShell(program: string, tokens: seq<string>): Option<seq<string>> {
    if program == "get-childitem" || program == "gci" then
      if PowerShellEnvironment(tokens).Some? then PowerShellEnvironment(tokens) else PowerShellListDirectory(tokens)
    else if program == "get-content" || program == "gc" then PowerShellContent(tokens)
    else if program == "get-location" || program == "gl" then (if |tokens| == 1 then Some(["pwd"]) else None)
    else if program == "write-output"
      then (if NoParameter(tokens) && |tokens| == 2 then Some(["echo", tokens[1]]) else None)
    else if program == "get-command"
      then (if NoParameter(tokens) && |tokens| == 2 then Some(["command", "-v", tokens[1]]) else None)
    else None
  }

  // ---- which programs are known -------------------------------------------------------------------------------------

  predicate PosixProgram(program: string) {
    program in {"env", "printenv", "ls", "head", "tail", "cat", "pwd", "echo", "which"}
  }
  predicate PowerShellProgram(program: string) {
    program in {"get-childitem", "gci", "get-content", "gc", "get-location", "gl", "write-output", "get-command"}
  }

  /** Programs recognised and deliberately left alone. */
  predicate PosixRefused(program: string) {
    program in {"rm", "rmdir", "mv", "cp", "ln", "mkdir", "touch", "chmod", "chown", "dd", "truncate", "tee", "install",
                "kill", "pkill", "killall", "grep", "egrep", "fgrep", "sed", "awk", "find", "cut", "tr", "sort", "uniq",
                "xargs", "wc", "test", "uname", "df", "du", "ps", "stat", "date", "export", "source", "basename",
                "dirname", "readlink"}
  }
  predicate PowerShellRefused(program: string) {
    program in {"remove-item", "move-item", "copy-item", "rename-item", "new-item", "set-content", "add-content",
                "clear-content", "out-file", "set-itemproperty", "stop-process", "select-string", "where-object",
                "foreach-object", "sort-object", "select-object", "measure-object", "group-object", "compare-object",
                "test-path", "get-process", "get-service", "get-date", "start-sleep", "get-ciminstance",
                "get-wmiobject", "get-computerinfo", "get-acl", "get-item", "get-member"}
  }

  predicate Known(source: Dialect, program: string) {
    match source
    case Posix => PosixProgram(program) || PosixRefused(program)
    case PowerShell => PowerShellProgram(program) || PowerShellRefused(program)
  }

  predicate Letter(c: char) {
    'a' <= c <= 'z' || 'A' <= c <= 'Z' || c == '_'
  }

  /** A name, then `=`. */
  predicate Assignment(word: string) {
    exists n | 1 <= n < |word| :: word[n] == '=' && Letter(word[0]) && forall i | 0 <= i < n ::
        Letter(word[i]) || Digit(word[i])
  }

  /** One simple command in the other shell, if the dictionary is sure of it. */
  function TranslateSegment(source: Dialect, segment: seq<string>): Option<seq<string>>
    requires segment != []
  {
    var program := ShellName(segment[0]);
    match source
    case Posix => if Assignment(segment[0]) || PosixRefused(program) then None else FromPosix(program, segment)
    case PowerShell => if PowerShellRefused(program) then None else FromPowerShell(program, segment)
  }
}

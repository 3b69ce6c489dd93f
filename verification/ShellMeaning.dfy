/**
 What the dictionary writes for each command, told by the tokens of both sides: a relation between a
 command and its counterpart, of which the rules are the computation.
 */
module ShellMeaning {
  import opened Options
  import opened CommandScan
  import opened Strings
  import opened DialectRules

  // ---- program names -------------------------------------------------------------------------------------------

  /** The word is this path, but for white space around it and quotes around that. */
  ghost predicate Wraps(word: string, path: string) {
    exists l0, l1, r1, r0 ::
      && word == (l0 + (l1 + path + r1)) + r0
      && AllIn(l0, SPACES) && AllIn(r0, SPACES) && Stripped(l1 + path + r1, SPACES)
      && AllIn(l1, {'\"', '\''}) && AllIn(r1, {'\"', '\''}) && Stripped(path, {'\"', '\''})
  }

  /** The last part of the path. */
  ghost predicate EndsWithPart(path: string, name: string) {
    && (forall c | c in name :: c != '/' && c != '\\')
    && exists dir :: path == dir + name && (dir == "" || dir[|dir| - 1] == '/' || dir[|dir| - 1] == '\\')
  }

  /** The word names this program: without white space, quotes, directory, case or executable suffix. */
  ghost predicate Names(word: string, program: string) {
    exists path, name :: Wraps(word, path) && EndsWithPart(path, name) && Unsuffixed(Lower(name), program)
  }

  ghost predicate Unsuffixed(name: string, program: string) {
    || (program != "" && name in {program + ".exe", program + ".cmd", program + ".bat", program + ".com"})
    || (name == program && !exists p ::
          p != "" && name in {p + ".exe", p + ".cmd", p + ".bat", p + ".com"})
  }

  // ---- words of a command ---------------------------------------------------------------------------------------

  /** `NAME=value`. */
  ghost predicate SetsVariable(word: string) {
    exists name, value ::
      && word == name + "=" + value && name != "" && !('0' <= name[0] <= '9')
      && forall c | c in name :: 'a' <= c <= 'z' || 'A' <= c <= 'Z' || '0' <= c <= '9' || c == '_'
  }

  /** The decimal number `n`, without leading zeros. */
  ghost predicate Decimal(digits: string, n: nat) {
    IsDigits(digits) && ParseNat(digits) == n && (|digits| > 1 ==> digits[0] != '0')
  }

  /** Just one operand, which is no option. */
  ghost predicate OneOperand(rest: seq<string>) {
    |rest| == 1 && (|rest[0]| < 2 || rest[0][0] != '-')
  }

  /** Just one operand, which does not look like a parameter. */
  ghost predicate OneValue(rest: seq<string>) {
    |rest| == 1 && (rest[0] == "" || rest[0][0] != '-')
  }

  /** `Env:`, in any case, with any number of slashes behind. */
  ghost predicate EnvironmentPath(path: string) {
    && |path| >= 4 && Lower(path[..4]) == "env:"
    && forall c | c in path[4..] :: c == '/' || c == '\\'
  }

  // ---- the counterpart of a command -----------------------------------------------------------------------------

  ghost predicate FromLines(rest: seq<string>, parameter: string, out: seq<string>) {
    && |out| == 4 && out[0] == "Get-Content" && out[2] == parameter
    && exists count :: LinesMean(rest, count, out[1]) && Decimal(out[3], count)
  }

  ghost predicate FromListing(rest: seq<string>, out: seq<string>) {
    exists hidden, paths ::
      && PosixListingOf(rest, Some((hidden, paths))) && |paths| <= 1
      && out == ["Get-ChildItem"] + (if hidden then ["-Force"] else []) + paths
  }

  /** What POSIX says with this program and these arguments, PowerShell says with `out`. */
  ghost predicate PosixMeans(program: string, rest: seq<string>, out: seq<string>) {
    || (program in {"env", "printenv"} && rest == [] && out == ["Get-ChildItem", "Env:"])
    || (program == "pwd" && rest == [] && out == ["Get-Location"])
    || (program == "cat" && OneOperand(rest) && out == ["Get-Content", rest[0]])
    || (program == "echo" && OneOperand(rest) && out == ["Write-Output", rest[0]])
    || (program == "which" && OneOperand(rest) && out == ["Get-Command", rest[0]])
    || (program == "head" && FromLines(rest, "-TotalCount", out))
    || (program == "tail" && FromLines(rest, "-Tail", out))
    || (program == "ls" && FromListing(rest, out))
  }

  ghost predicate FromContent(rest: seq<string>, out: seq<string>) {
    || (|out| == 2 && out[0] == "cat" && ContentMeans(rest, out[1], Whole, 0))
    || (&& |out| == 4 && out[0] == "head" && out[1] == "-n"
        && exists count :: ContentMeans(rest, out[3], Head, count) && Decimal(out[2], count))
    || (&& |out| == 4 && out[0] == "tail" && out[1] == "-n"
        && exists count :: ContentMeans(rest, out[3], Tail, count) && Decimal(out[2], count))
  }

  ghost predicate FromPowerShellListing(rest: seq<string>, out: seq<string>) {
    exists hidden, paths ::
      && PowerShellListingOf(rest, Some((hidden, paths)))
      && (paths == [] || (|paths| == 1 && !EnvironmentPath(paths[0])))
      && out == ["ls"] + (if hidden then ["-a"] else []) + paths
  }

  /** And the other way round. */
  ghost predicate PowerShellMeans(program: string, rest: seq<string>, out: seq<string>) {
    || (program in {"get-childitem", "gci"} && OneValue(rest) && EnvironmentPath(rest[0]) && out == ["env"])
    || (program in {"get-childitem", "gci"} && FromPowerShellListing(rest, out))
    || (program in {"get-content", "gc"} && FromContent(rest, out))
    || (program in {"get-location", "gl"} && rest == [] && out == ["pwd"])
    || (program == "write-output" && OneValue(rest) && out == ["echo", rest[0]])
    || (program == "get-command" && OneValue(rest) && out == ["command", "-v", rest[0]])
  }

  /** `out` is the counterpart of this command in the other shell. */
  ghost predicate Means(source: Dialect, segment: seq<string>, out: seq<string>) {
    && segment != []
    && match source
       case Posix =>
         && !SetsVariable(segment[0])
         && exists program :: Names(segment[0], program) && PosixMeans(program, segment[1..], out)
       case PowerShell =>
         exists program :: Names(segment[0], program) && PowerShellMeans(program, segment[1..], out)
  }

  // ---- the name a word stands for is unique, and the one that is computed ------------------------------------------

  /** The path inside the word, as the program computes it. */
  function Unwrapped(word: string): string {
    TrimRight(TrimLeft(TrimRight(TrimLeft(word, SPACES), SPACES), QUOTES), QUOTES)
  }

  lemma WrapsOne(word: string, path: string)
    ensures Wraps(word, path) <==> path == Unwrapped(word)
  {
    hide AllIn, Stripped;
    if Wraps(word, path) {
      var l0, l1, r1, r0 :|
        && word == (l0 + (l1 + path + r1)) + r0
        && AllIn(l0, SPACES) && AllIn(r0, SPACES) && Stripped(l1 + path + r1, SPACES)
        && AllIn(l1, {'\"', '\''}) && AllIn(r1, {'\"', '\''}) && Stripped(path, {'\"', '\''});
      TrimIsUnique(l0, l1 + path + r1, r0, SPACES);
      TrimIsUnique(l1, path, r1, QUOTES);
    }
    var l0, r0 := TrimExists(word, SPACES);
    var l1, r1 := TrimExists(TrimRight(TrimLeft(word, SPACES), SPACES), QUOTES);
  }

  lemma {:induction false} LastPartIs(dir: string, name: string)
    requires forall c | c in name :: c != '/' && c != '\\'
    requires dir == "" || dir[|dir| - 1] == '/' || dir[|dir| - 1] == '\\'
    ensures LastPart(dir + name) == name
  {
    if name == "" {
      assert dir + name == dir;
    } else {
      var n := |name| - 1;
      assert name[n] in name && forall c | c in name[..n] :: c in name;
      assert (dir + name)[..|dir + name| - 1] == dir + name[..n];
      LastPartIs(dir, name[..n]);
    }
  }

  lemma {:induction false} LastPartCuts(path: string) returns (dir: string)
    ensures path == dir + LastPart(path) && (dir == "" || dir[|dir| - 1] == '/' || dir[|dir| - 1] == '\\')
    ensures forall c | c in LastPart(path) :: c != '/' && c != '\\'
  {
    if path == "" || path[|path| - 1] in SLASHES {
      dir := path;
    } else {
      dir := LastPartCuts(path[..|path| - 1]);
      assert path == path[..|path| - 1] + [path[|path| - 1]];
    }
  }

  lemma PartOne(path: string, name: string)
    ensures EndsWithPart(path, name) <==> name == LastPart(path)
  {
    if EndsWithPart(path, name) {
      var dir :| path == dir + name && (dir == "" || dir[|dir| - 1] == '/' || dir[|dir| - 1] == '\\');
      LastPartIs(dir, name);
    }
    var dir := LastPartCuts(path);
  }

  lemma SuffixOne(name: string, program: string)
    ensures Unsuffixed(name, program) <==> program == WithoutSuffix(name)
  {
    var suffixed := EndsIn(name, ".exe") || EndsIn(name, ".cmd") || EndsIn(name, ".bat") || EndsIn(name, ".com");
    forall p | p != "" && name in {p + ".exe", p + ".cmd", p + ".bat", p + ".com"}
      ensures suffixed && p == name[..|name| - 4]
    {
      assert name[|name| - 4..] in {".exe", ".cmd", ".bat", ".com"};
    }
    if suffixed {
      var p := name[..|name| - 4];
      assert name == p + name[|name| - 4..];
      assert p != "" && name in {p + ".exe", p + ".cmd", p + ".bat", p + ".com"};
    }
  }

  /** A word names one program, the one that is computed. */
  lemma NamesOne(word: string, program: string)
    ensures Names(word, program) <==> program == ShellName(word)
  {
    hide Wraps, EndsWithPart, Unsuffixed, LastPart, WithoutSuffix, Lower, TrimLeft, TrimRight;
    forall path ensures Wraps(word, path) <==> path == Unwrapped(word) { WrapsOne(word, path); }
    var path := Unwrapped(word);
    forall name ensures EndsWithPart(path, name) <==> name == LastPart(path) { PartOne(path, name); }
    var name := LastPart(path);
    SuffixOne(Lower(name), program);
    assert Wraps(word, path) && EndsWithPart(path, name);
  }

  // ---- the words of a command ------------------------------------------------------------------------------------

  lemma SetsVariableExactly(word: string)
    ensures SetsVariable(word) <==> Assignment(word)
  {
    if SetsVariable(word) {
      var name, value :|
        && word == name + "=" + value && name != "" && !('0' <= name[0] <= '9')
        && forall c | c in name :: 'a' <= c <= 'z' || 'A' <= c <= 'Z' || '0' <= c <= '9' || c == '_';
      assert name[0] in name && Letter(name[0]);
      assert word[|name|] == '=' && forall i | 0 <= i < |name| :: word[i] == name[i] && name[i] in name;
    }
    if Assignment(word) {
      var n :| 1 <= n < |word| && word[n] == '=' && Letter(word[0])
               && forall i | 0 <= i < n :: Letter(word[i]) || Digit(word[i]);
      assert word == word[..n] + "=" + word[n + 1..];
    }
  }

  lemma {:induction false} DecimalExactly(digits: string, n: nat)
    ensures Decimal(digits, n) <==> digits == PrintNat(n)
  {
    PrintedIsDecimal(n);
    if Decimal(digits, n) { DecimalIsPrinted(digits); }
  }

  lemma {:induction false} PrintedIsDecimal(n: nat)
    ensures Decimal(PrintNat(n), n)
    ensures n > 0 ==> PrintNat(n)[0] != '0'
  {
    if n >= 10 { PrintedIsDecimal(n / 10); }
  }

  lemma ParseSnoc(front: string, c: char)
    requires IsDigits(front) && Digit(c)
    ensures IsDigits(front + [c]) && ParseNat(front + [c]) == 10 * ParseNat(front) + (c as int - '0' as int)
  {
    assert (front + [c])[..|front|] == front;
  }

  lemma PrintSnoc(m: nat, c: char)
    requires m > 0 && Digit(c)
    ensures PrintNat(10 * m + (c as int - '0' as int)) == PrintNat(m) + [c]
  {
    var d := c as int - '0' as int;
    assert (10 * m + d) / 10 == m && (10 * m + d) % 10 == d;
  }

  lemma OneDigit(c: char)
    requires Digit(c)
    ensures ParseNat([c]) == c as int - '0' as int && PrintNat(ParseNat([c])) == [c]
  {
    assert [c][..0] == "";
  }

  lemma {:induction false} DecimalIsPrinted(digits: string)
    requires IsDigits(digits) && (|digits| > 1 ==> digits[0] != '0')
    ensures digits == PrintNat(ParseNat(digits))
    ensures digits[0] != '0' ==> ParseNat(digits) > 0
  {
    hide ParseNat, PrintNat;
    var n := |digits| - 1;
    assert digits[n] in digits && digits == digits[..n] + [digits[n]];
    if n == 0 {
      OneDigit(digits[0]);
    } else {
      assert forall c | c in digits[..n] :: c in digits;
      DecimalIsPrinted(digits[..n]);
      ParseSnoc(digits[..n], digits[n]);
      PrintSnoc(ParseNat(digits[..n]), digits[n]);
    }
  }

  lemma EnvironmentExactly(path: string)
    ensures EnvironmentPath(path) <==> EnvironmentDrive(path)
  {
    hide Lower, TrimRight;
    if |path| >= 4 {
      LowerParts(path, 4);
      SlashesStay(path[4..]);
      if EnvironmentPath(path) { TrimRightSkips("env:", Lower(path[4..]), SLASHES); }
      NotASlash();
    }
    var r := TrimRightCuts(Lower(path), SLASHES);
    if EnvironmentDrive(path) {
      assert Lower(path) == "env:" + r;
      assert r == Lower(path[4..]);
    }
  }

  lemma NotASlash()
    ensures TrimRight("env:", SLASHES) == "env:"
  {
  }

  lemma SlashesStay(s: string)
    ensures AllIn(Lower(s), SLASHES) <==> forall c | c in s :: c == '/' || c == '\\'
  {
    var t := Lower(s);
    assert forall i | 0 <= i < |s| :: t[i] == LowerChar(s[i]) && t[i] in t && s[i] in s;
  }

  lemma LowerParts(s: string, n: nat)
    requires n <= |s|
    ensures Lower(s) == Lower(s[..n]) + Lower(s[n..]) && |Lower(s)| == |s|
  {
  }

  // ---- the rules compute that relation ------------------------------------------------------------------------------

  lemma LinesExactly(tokens: seq<string>, parameter: string, out: seq<string>)
    requires tokens != []
    ensures PosixLines(tokens, parameter) == Some(out) <==> FromLines(tokens[1..], parameter, out)
  {
    hide LinesAndFile, LinesMean, Decimal, PrintNat;
    forall count: nat, file
      ensures LinesAndFile(tokens, 1, 10, None) == Some((count, file)) <==> LinesMean(tokens[1..], count, file)
    {
      LinesAreMeant(tokens, count, file);
    }
    forall digits, n: nat ensures Decimal(digits, n) <==> digits == PrintNat(n) { DecimalExactly(digits, n); }
    var parsed := LinesAndFile(tokens, 1, 10, None);
    assert parsed.Some? ==> parsed == Some((parsed.value.0, parsed.value.1));
    assert |out| == 4 ==> out == [out[0], out[1], out[2], out[3]];
  }

  lemma ListingExactly(tokens: seq<string>, out: seq<string>)
    requires tokens != []
    ensures PosixListDirectory(tokens) == Some(out) <==> FromListing(tokens[1..], out)
  {
    hide PosixListing, ForeignOption, HiddenOption;
    PosixListingFrom(tokens, 1, false, []);
    var listing := PosixListing(tokens, 1, false, []);
    assert PosixListingOf(tokens[1..], listing);
    assert listing.Some? ==> listing == Some((listing.value.0, listing.value.1));
    forall hidden, paths | PosixListingOf(tokens[1..], Some((hidden, paths)))
      ensures listing == Some((hidden, paths))
    {
    }
  }

  lemma ContentExactly(tokens: seq<string>, out: seq<string>)
    requires tokens != []
    ensures PowerShellContent(tokens) == Some(out) <==> FromContent(tokens[1..], out)
  {
    hide ContentOf, ContentMeans, Decimal, PrintNat;
    forall file, mode: Mode, count: nat
      ensures ContentOf(tokens, 1, None, Whole, 0) == Some((file, mode, count))
              <==> ContentMeans(tokens[1..], file, mode, count)
    {
      ContentIsMeant(tokens, file, mode, count);
    }
    forall digits, n: nat ensures Decimal(digits, n) <==> digits == PrintNat(n) { DecimalExactly(digits, n); }
    WholeHasNoCount(tokens[1..]);
    var parsed := ContentOf(tokens, 1, None, Whole, 0);
    assert parsed.Some? ==> parsed == Some((parsed.value.0, parsed.value.1, parsed.value.2));
    assert |out| == 2 ==> out == [out[0], out[1]];
    assert |out| == 4 ==> out == [out[0], out[1], out[2], out[3]];
  }

  lemma WholeHasNoCount(rest: seq<string>)
    ensures forall file, count: nat | ContentMeans(rest, file, Whole, count) :: count == 0
  {
  }

  lemma PowerShellListingExactly(tokens: seq<string>, out: seq<string>)
    requires tokens != []
    ensures PowerShellListDirectory(tokens) == Some(out) <==> FromPowerShellListing(tokens[1..], out)
  {
    hide PowerShellListing, IsForce, EnvironmentPath, EnvironmentDrive;
    PowerShellListingFrom(tokens, 1, false, []);
    var listing := PowerShellListing(tokens, 1, false, []);
    assert PowerShellListingOf(tokens[1..], listing);
    assert listing.Some? ==> listing == Some((listing.value.0, listing.value.1));
    forall hidden, paths | PowerShellListingOf(tokens[1..], Some((hidden, paths)))
      ensures listing == Some((hidden, paths))
    {
    }
    forall path ensures EnvironmentPath(path) <==> EnvironmentDrive(path) { EnvironmentExactly(path); }
  }

  lemma PosixExactly(program: string, tokens: seq<string>, out: seq<string>)
    requires tokens != []
    ensures FromPosix(program, tokens) == Some(out) <==> PosixMeans(program, tokens[1..], out)
  {
    hide PosixLines, PosixListDirectory, FromLines, FromListing;
    LinesExactly(tokens, "-TotalCount", out);
    LinesExactly(tokens, "-Tail", out);
    ListingExactly(tokens, out);
    assert tokens[1..] == [] <==> |tokens| == 1;
  }

  lemma PowerShellExactly(program: string, tokens: seq<string>, out: seq<string>)
    requires tokens != []
    ensures FromPowerShell(program, tokens) == Some(out) <==> PowerShellMeans(program, tokens[1..], out)
  {
    hide PowerShellListDirectory, FromPowerShellListing, PowerShellContent, FromContent, EnvironmentPath,
         EnvironmentDrive;
    PowerShellListingExactly(tokens, out);
    ContentExactly(tokens, out);
    if |tokens| == 2 { EnvironmentExactly(tokens[1]); }
    assert tokens[1..] == [] <==> |tokens| == 1;
    if PowerShellEnvironment(tokens).Some? { EnvironmentIsNotListed(tokens); }
  }

  /** No call of `Get-ChildItem` is both the environment and a directory. */
  lemma EnvironmentIsNotListed(tokens: seq<string>)
    requires tokens != [] && PowerShellEnvironment(tokens).Some?
    ensures forall out :: !FromPowerShellListing(tokens[1..], out)
  {
    hide EnvironmentPath, EnvironmentDrive;
    EnvironmentExactly(tokens[1]);
    assert tokens[1..] == [tokens[1]] && tokens[1..][1..] == [];
    assert Operands(tokens[1..]) == [tokens[1]];
  }

  /** The counterpart the rules compute is the one and only that is meant; where they refuse, none is. */
  lemma MeansExactly(source: Dialect, segment: seq<string>, out: seq<string>)
    requires segment != []
    ensures TranslateSegment(source, segment) == Some(out) <==> Means(source, segment, out)
  {
    hide ShellName, Names, SetsVariable, Assignment, FromPosix, FromPowerShell, PosixMeans, PowerShellMeans;
    var program := ShellName(segment[0]);
    SetsVariableExactly(segment[0]);
    forall p ensures Names(segment[0], p) <==> p == program { NamesOne(segment[0], p); }
    PosixExactly(program, segment, out);
    PowerShellExactly(program, segment, out);
    RefusedHasNoRule(program, segment);
  }

  lemma PosixRulesAreNotRefused()
    ensures forall program | PosixRefused(program) :: !PosixProgram(program)
  {
    assert !PosixRefused("env");
    assert !PosixRefused("printenv");
    assert !PosixRefused("ls");
    assert !PosixRefused("head");
    assert !PosixRefused("tail");
    assert !PosixRefused("cat");
    assert !PosixRefused("pwd");
    assert !PosixRefused("echo");
    assert !PosixRefused("which");
  }

  lemma PowerShellRulesAreNotRefused()
    ensures forall program | PowerShellRefused(program) :: !PowerShellProgram(program)
  {
    assert !PowerShellRefused("get-childitem");
    assert !PowerShellRefused("gci");
    assert !PowerShellRefused("get-content");
    assert !PowerShellRefused("gc");
    assert !PowerShellRefused("get-location");
    assert !PowerShellRefused("gl");
    assert !PowerShellRefused("write-output");
    assert !PowerShellRefused("get-command");
  }

  lemma RefusedHasNoRule(program: string, tokens: seq<string>)
    ensures PosixRefused(program) ==> FromPosix(program, tokens).None?
    ensures PowerShellRefused(program) ==> FromPowerShell(program, tokens).None?
  {
    hide PosixLines, PosixListDirectory, PosixOperand, PowerShellEnvironment, PowerShellListDirectory,
         PowerShellContent, NoParameter, PosixRefused, PowerShellRefused;
    PosixRulesAreNotRefused();
    PowerShellRulesAreNotRefused();
  }
}

/** Lower case, trimming and decimal numbers, on ASCII text. */
module Strings {
  function LowerChar(c: char): char {
    if 'A' <= c <= 'Z' then (c as int + 32) as char else c
  }

  function Lower(s: string): (t: string)
    ensures |t| == |s| && forall i | 0 <= i < |s| :: t[i] == LowerChar(s[i])
  {
    if s == [] then [] else [LowerChar(s[0])] + Lower(s[1..])
  }

  function TrimLeft(s: string, chars: set<char>): string {
    if s != [] && s[0] in chars then TrimLeft(s[1..], chars) else s
  }

  function TrimRight(s: string, chars: set<char>): string {
    if s != [] && s[|s| - 1] in chars then TrimRight(s[..|s| - 1], chars) else s
  }

  // ---- what trimming leaves --------------------------------------------------------------------------------

  ghost predicate AllIn(s: string, chars: set<char>) {
    forall c | c in s :: c in chars
  }

  /** No more of these characters at either end. */
  ghost predicate Stripped(s: string, chars: set<char>) {
    s == "" || (s[0] !in chars && s[|s| - 1] !in chars)
  }

  lemma {:induction false} TrimLeftSkips(l: string, s: string, chars: set<char>)
    requires AllIn(l, chars)
    ensures TrimLeft(l + s, chars) == TrimLeft(s, chars)
  {
    if l == "" {
      assert l + s == s;
    } else {
      assert l[0] in l && (l + s)[1..] == l[1..] + s;
      TrimLeftSkips(l[1..], s, chars);
    }
  }

  lemma {:induction false} TrimRightSkips(s: string, r: string, chars: set<char>)
    requires AllIn(r, chars)
    ensures TrimRight(s + r, chars) == TrimRight(s, chars)
  {
    if r == "" {
      assert s + r == s;
    } else {
      var n := |r| - 1;
      assert r[n] in r && (s + r)[|s + r| - 1] == r[n] && (s + r)[..|s + r| - 1] == s + r[..n];
      TrimRightSkips(s, r[..n], chars);
    }
  }

  lemma TrimIsUnique(l: string, m: string, r: string, chars: set<char>)
    requires AllIn(l, chars) && AllIn(r, chars) && Stripped(m, chars)
    ensures TrimRight(TrimLeft(l + m + r, chars), chars) == m
  {
    assert l + m + r == l + (m + r);
    TrimLeftSkips(l, m + r, chars);
    if m == "" {
      assert m + r == r + "" == r;
      TrimLeftSkips(r, "", chars);
    } else {
      assert (m + r)[0] == m[0];
      TrimRightSkips(m, r, chars);
    }
  }

  lemma {:induction false} TrimLeftCuts(s: string, chars: set<char>) returns (l: string)
    ensures s == l + TrimLeft(s, chars) && AllIn(l, chars)
    ensures TrimLeft(s, chars) == "" || TrimLeft(s, chars)[0] !in chars
  {
    if s != "" && s[0] in chars {
      var cut := TrimLeftCuts(s[1..], chars);
      l := [s[0]] + cut;
      assert s == [s[0]] + s[1..];
    } else {
      l := "";
    }
  }

  lemma {:induction false} TrimRightCuts(s: string, chars: set<char>) returns (r: string)
    ensures s == TrimRight(s, chars) + r && AllIn(r, chars)
    ensures TrimRight(s, chars) == "" || TrimRight(s, chars)[|TrimRight(s, chars)| - 1] !in chars
  {
    if s != "" && s[|s| - 1] in chars {
      var n := |s| - 1;
      var cut := TrimRightCuts(s[..n], chars);
      r := cut + [s[n]];
      assert s == s[..n] + [s[n]];
    } else {
      r := "";
    }
  }

  lemma TrimExists(s: string, chars: set<char>) returns (l: string, r: string)
    ensures var m := TrimRight(TrimLeft(s, chars), chars);
            s == l + m + r && AllIn(l, chars) && AllIn(r, chars) && Stripped(m, chars)
  {
    l := TrimLeftCuts(s, chars);
    r := TrimRightCuts(TrimLeft(s, chars), chars);
    var m := TrimRight(TrimLeft(s, chars), chars);
    assert m != "" ==> m[0] == TrimLeft(s, chars)[0];
  }

  /** The ASCII characters that count as white space. */
  const SPACES: set<char> := {' ', '\t', '\n', '\r', '\U{0B}', '\U{0C}', '\U{1C}', '\U{1D}', '\U{1E}', '\U{1F}'}

  predicate Digit(c: char) {
    '0' <= c <= '9'
  }

  predicate IsDigits(s: string) {
    s != [] && forall c | c in s :: Digit(c)
  }

  function ParseNat(s: string): nat
    requires forall c | c in s :: Digit(c)
  {
    if s == [] then 0
    else
      assert forall c | c in s[..|s| - 1] :: c in s;
      assert s[|s| - 1] in s && Digit(s[|s| - 1]);
      10 * ParseNat(s[..|s| - 1]) + (s[|s| - 1] as int - '0' as int)
  }

  function PrintNat(n: nat): (s: string)
    ensures s != [] && forall c | c in s :: Digit(c)
    ensures ParseNat(s) == n
  {
    var digit := [(n % 10 + '0' as int) as char];
    if n < 10 then
      assert digit[..0] == [];
      digit
    else
      var s := PrintNat(n / 10) + digit;
      assert s[..|s| - 1] == PrintNat(n / 10);
      s
  }
}

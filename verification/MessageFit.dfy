/**
 Cutting the outputs of a result message until it fits.  A text is a sequence of Unicode scalar values
 and is measured in UTF-8 bytes; cutting inside a multi-byte sequence leaves its last continuation bytes,
 each of which is decoded as one U+FFFD.
 */
module MessageFit {
  import opened Options
  import opened Utf8

  type Text = seq<nat>

  function Size(t: Text): nat {
    if t == [] then 0 else Width(t[0]) + Size(t[1..])
  }

  function Replacements(n: nat): Text {
    if n == 0 then [] else [REPLACEMENT] + Replacements(n - 1)
  }

  /** The last `keep` bytes of a text, decoded. */
  function Kept(t: Text, keep: nat): Text {
    if Size(t) <= keep then t
    else if Size(t[1..]) < keep then Replacements(keep - Size(t[1..])) + t[1..]
    else Kept(t[1..], keep)
  }

  function Halved(t: Text): Text {
    Kept(t, Size(t) / 2)
  }

  // ---- what halving does ------------------------------------------------------------------------------

  /** How many stray continuation bytes the cut leaves in front. */
  function Strays(t: Text, keep: nat): nat {
    if Size(t) <= keep then 0
    else if Size(t[1..]) < keep then keep - Size(t[1..])
    else Strays(t[1..], keep)
  }

  lemma {:induction false} ReplacementsSize(n: nat, t: Text)
    ensures Size(Replacements(n) + t) == 3 * n + Size(t)
  {
    if n == 0 {
      assert Replacements(0) + t == t;
    } else {
      ReplacementsSize(n - 1, t);
      var all := Replacements(n) + t;
      assert all[0] == REPLACEMENT && all[1..] == Replacements(n - 1) + t;
    }
  }

  /** The text kept is two bytes longer than the bytes kept for each stray byte, of which there are at
      most three; halving shortens the text if and only if those do not make up for the other half. */
  lemma {:induction false} KeptSize(t: Text, keep: nat)
    requires keep <= Size(t)
    ensures Strays(t, keep) <= 3
    ensures Size(Kept(t, keep)) == keep + 2 * Strays(t, keep)
  {
    if keep < Size(t) {
      if Size(t[1..]) < keep {
        ReplacementsSize(keep - Size(t[1..]), t[1..]);
      } else {
        KeptSize(t[1..], keep);
      }
    }
  }

  lemma HalvingShortens(t: Text)
    ensures Size(Halved(t)) < Size(t) <==> 2 * Strays(t, Size(t) / 2) < Size(t) - Size(t) / 2
  {
    KeptSize(t, Size(t) / 2);
  }

  predicate Ascii(t: Text) {
    forall c | c in t :: c < 0x80
  }

  lemma AsciiTail(t: Text)
    requires Ascii(t) && t != []
    ensures Ascii(t[1..]) && t[0] < 0x80
  {
    assert forall c | c in t[1..] :: c in t;
    assert t[0] in t;
  }

  lemma {:induction false} AsciiSize(t: Text)
    requires Ascii(t)
    ensures Size(t) == |t|
  {
    if t != [] {
      AsciiTail(t);
      AsciiSize(t[1..]);
    }
  }

  /** On ASCII the text kept is exactly the end of the text. */
  lemma {:induction false} AsciiKept(t: Text, keep: nat)
    requires Ascii(t) && keep <= |t|
    ensures Kept(t, keep) == t[|t| - keep..]
  {
    AsciiSize(t);
    if keep < |t| {
      hide Ascii, Size;
      var rest := t[1..];
      AsciiTail(t);
      AsciiSize(rest);
      AsciiKept(rest, keep);
      assert rest[|rest| - keep..] == t[|t| - keep..];
      assert Kept(t, keep) == Kept(rest, keep);
    }
  }

  lemma AsciiStays(t: Text, n: nat)
    requires Ascii(t) && n <= |t|
    ensures Ascii(t[n..])
  {
    assert forall c | c in t[n..] :: c in t;
  }

  // ---- where halving gets stuck ----------------------------------------------------------------------------

  function Leading(t: Text): (q: nat)
    ensures q <= |t|
  {
    if t != [] && t[0] == REPLACEMENT then 1 + Leading(t[1..]) else 0
  }

  /** Replacement characters in front weigh less than anything behind them. */
  function Weight(t: Text): nat {
    Leading(t) + 4 * (|t| - Leading(t))
  }

  lemma OneMoreLeading(t: Text)
    ensures Leading([REPLACEMENT] + t) == 1 + Leading(t)
  {
    assert ([REPLACEMENT] + t)[1..] == t;
  }

  lemma {:induction false} LeadingPrefix(n: nat, t: Text)
    ensures Leading(Replacements(n) + t) == n + Leading(t) && |Replacements(n)| == n
  {
    hide Leading;
    if n == 0 {
      assert Replacements(0) + t == t;
    } else {
      LeadingPrefix(n - 1, t);
      OneMoreLeading(Replacements(n - 1) + t);
      assert Replacements(n) + t == [REPLACEMENT] + (Replacements(n - 1) + t);
    }
  }

  lemma {:induction false} Decomposed(t: Text)
    ensures t == Replacements(Leading(t)) + t[Leading(t)..]
    ensures Leading(t[Leading(t)..]) == 0
    ensures Size(t) == 3 * Leading(t) + Size(t[Leading(t)..])
  {
    hide Size, Leading, Replacements;
    var q := Leading(t);
    LeadingFirst(t);
    if q == 0 {
      NoReplacements(t);
      assert t[0..] == t;
    } else {
      Decomposed(t[1..]);
      assert t[1..][q - 1..] == t[q..];
      OneMoreReplacement(q, t, t[q..]);
      ReplacementsSize(q, t[q..]);
    }
  }

  lemma NoReplacements(t: Text)
    ensures Replacements(0) + t == t
  {
  }

  lemma OneMoreReplacement(q: nat, t: Text, s: Text)
    requires q > 0 && t != [] && t[0] == REPLACEMENT && t[1..] == Replacements(q - 1) + s
    ensures t == Replacements(q) + s
  {
    assert t == [t[0]] + t[1..];
  }

  lemma LeadingFirst(t: Text)
    ensures Leading(t) > 0 ==> t != [] && t[0] == REPLACEMENT && Leading(t[1..]) == Leading(t) - 1
  {
  }

  /** A cut inside the characters behind the leading replacements removes one of them at least. */
  lemma {:induction false} CutBehind(s: Text, keep: nat)
    requires keep < Size(s)
    ensures Weight(Kept(s, keep)) < 4 * |s|
  {
    var rest := s[1..];
    if Size(rest) < keep {
      LeadingPrefix(keep - Size(rest), rest);
    } else if Size(rest) > keep {
      CutBehind(rest, keep);
    }
  }

  lemma {:induction false} KeptSkipsReplacements(q: nat, s: Text, keep: nat)
    requires keep <= Size(s)
    ensures Kept(Replacements(q) + s, keep) == Kept(s, keep)
  {
    var t := Replacements(q) + s;
    ReplacementsSize(q, s);
    if q == 0 {
      assert t == s;
    } else {
      assert t[1..] == Replacements(q - 1) + s;
      ReplacementsSize(q - 1, s);
      KeptSkipsReplacements(q - 1, s, keep);
    }
  }

  /** The replacement characters left when the cut falls among them: whole ones, and one for each stray. */
  function Surviving(r: nat): nat {
    r / 3 + r % 3
  }

  lemma {:induction false} CutAmong(q: nat, s: Text, r: nat)
    requires r <= 3 * q
    ensures Kept(Replacements(q) + s, Size(s) + r) == Replacements(Surviving(r)) + s
  {
    var t := Replacements(q) + s;
    ReplacementsSize(q, s);
    if r < 3 * q {
      assert t[1..] == Replacements(q - 1) + s;
      ReplacementsSize(q - 1, s);
      if 3 * (q - 1) < r {
        var strays := r - 3 * (q - 1);
        Joined(strays, q - 1, s);
        assert Surviving(r) == q - 1 + strays;
      } else {
        CutAmong(q - 1, s, r);
      }
    }
  }

  lemma {:induction false} Joined(a: nat, b: nat, s: Text)
    ensures Replacements(a) + (Replacements(b) + s) == Replacements(a + b) + s
  {
    if a == 0 {
      assert Replacements(0) + (Replacements(b) + s) == Replacements(b) + s;
    } else {
      Joined(a - 1, b, s);
      assert Replacements(a) + (Replacements(b) + s) == [REPLACEMENT] + (Replacements(a - 1) + (Replacements(b) + s));
      assert Replacements(a + b) + s == [REPLACEMENT] + (Replacements(a - 1 + b) + s);
    }
  }

  /** The texts that halving leaves as they are: nothing, or one or two replacement characters followed by
      at most as many bytes of anything else, but not two of them alone. */
  predicate Stuck(t: Text) {
    || t == []
    || (Leading(t) == 1 && 3 <= Size(t) <= 4)
    || (Leading(t) == 2 && 7 <= Size(t) <= 8)
  }

  /** Halving gets somewhere, or leaves the text as it is: it never goes round in circles. */
  lemma HalvingSettles(t: Text)
    ensures Halved(t) == t || Weight(Halved(t)) < Weight(t)
    ensures Halved(t) == t <==> Stuck(t)
  {
    hide Kept, Size, Leading, Replacements, Surviving;
    var q, s := Leading(t), t[Leading(t)..];
    Decomposed(t);
    var keep := Size(t) / 2;
    if keep < Size(s) {
      KeptSkipsReplacements(q, s, keep);
      CutBehind(s, keep);
    } else {
      var r := keep - Size(s);
      CutAmong(q, s, r);
      LeadingPrefix(Surviving(r), s);
      FewerSurvive(q, Size(s));
      if s == [] { EmptySize(); } else { NotEmptySize(s); }
    }
  }

  lemma FewerSurvive(q: nat, m: nat)
    requires (3 * q + m) / 2 >= m
    ensures var survivors := Surviving((3 * q + m) / 2 - m);
            && survivors <= q
            && (survivors == q <==> (q == 0 && m == 0) || (q == 1 && m <= 1) || (q == 2 && 1 <= m <= 2))
  {
  }

  lemma EmptySize()
    ensures Size([]) == 0
  {
  }

  lemma NotEmptySize(t: Text)
    requires t != []
    ensures Size(t) > 0
  {
  }

  lemma StuckIsNotAscii(t: Text)
    requires Stuck(t) && t != []
    ensures !Ascii(t) && t[0] == REPLACEMENT
  {
    assert t[0] in t;
  }

  /** Halving again and again comes down to nothing. */
  predicate Drains(t: Text)
    decreases Weight(t)
  {
    HalvingSettles(t);
    t == [] || (!Stuck(t) && Drains(Halved(t)))
  }

  lemma {:induction false} AsciiDrains(t: Text)
    requires Ascii(t)
    ensures Drains(t)
    decreases |t|
  {
    if t != [] {
      hide Ascii, Size, Stuck;
      if Stuck(t) { StuckIsNotAscii(t); }
      AsciiSize(t);
      AsciiKept(t, |t| / 2);
      AsciiStays(t, |t| - |t| / 2);
      AsciiDrains(Halved(t));
    }
  }

  predicate EndsBeyondAscii(t: Text) {
    t != [] && t[|t| - 1] >= 0x80
  }

  lemma {:induction false} ReplacementsEnd(n: nat)
    requires n > 0
    ensures EndsBeyondAscii(Replacements(n))
  {
    if n > 1 { ReplacementsEnd(n - 1); }
  }

  lemma {:induction false} KeptEnd(t: Text, keep: nat)
    requires EndsBeyondAscii(t) && keep > 0
    ensures EndsBeyondAscii(Kept(t, keep))
  {
    if keep < Size(t) {
      if |t| == 1 {
        ReplacementsEnd(keep);
        assert t[1..] == [] && Kept(t, keep) == Replacements(keep);
      } else if keep <= Size(t[1..]) {
        KeptEnd(t[1..], keep);
      }
    }
  }

  /** An output that ends in anything but ASCII never gets empty. */
  lemma {:induction false} EndDecides(t: Text)
    requires EndsBeyondAscii(t)
    ensures !Drains(t)
    decreases Weight(t)
  {
    HalvingSettles(t);
    if !Stuck(t) {
      assert Size(t) >= 2 by { EndSize(t); }
      KeptEnd(t, Size(t) / 2);
      EndDecides(Halved(t));
    }
  }

  lemma {:induction false} EndSize(t: Text)
    requires EndsBeyondAscii(t)
    ensures Size(t) >= 2
  {
    if |t| > 1 { EndSize(t[1..]); }
  }

  // ---- what can be read off the end of a text

  /** The last three characters are ASCII. */
  predicate AsciiEnd(t: Text) {
    |t| >= 3 && t[|t| - 3] < 0x80 && t[|t| - 2] < 0x80 && t[|t| - 1] < 0x80
  }

  lemma {:induction false} AtLeastOneByteEach(t: Text)
    ensures Size(t) >= |t|
  {
    if t != [] { AtLeastOneByteEach(t[1..]); }
  }

  lemma {:induction false} LeadingStopsBefore(t: Text)
    requires AsciiEnd(t)
    ensures Leading(t) <= |t| - 3
  {
    if |t| > 3 { LeadingStopsBefore(t[1..]); }
  }

  lemma AsciiEndIsNotStuck(t: Text)
    requires AsciiEnd(t)
    ensures !Stuck(t)
  {
    hide Size, Leading;
    LeadingStopsBefore(t);
    Decomposed(t);
    AtLeastOneByteEach(t[Leading(t)..]);
  }

  lemma AsciiEndBehind(n: nat, t: Text)
    requires AsciiEnd(t)
    ensures AsciiEnd(Replacements(n) + t)
  {
    hide Replacements;
    var all := Replacements(n) + t;
    assert all[|all| - 1] == t[|t| - 1] && all[|all| - 2] == t[|t| - 2] && all[|all| - 3] == t[|t| - 3];
  }

  /** Three bytes or more keep those three characters, fewer keep nothing else: a cut never leaves more than
      three stray bytes. */
  lemma {:induction false} KeptAsciiEnd(t: Text, keep: nat)
    requires AsciiEnd(t)
    ensures if keep >= 3 then AsciiEnd(Kept(t, keep)) else Ascii(Kept(t, keep))
  {
    if |t| == 3 {
      AsciiSize(t);
      if keep < 3 {
        AsciiKept(t, keep);
        AsciiStays(t, 3 - keep);
      }
    } else if keep < Size(t) {
      AtLeastOneByteEach(t[1..]);
      if Size(t[1..]) < keep {
        AsciiEndBehind(keep - Size(t[1..]), t[1..]);
      } else {
        KeptAsciiEnd(t[1..], keep);
      }
    }
  }

  /** A text that ends in three ASCII characters drains, whatever comes before them. */
  lemma {:induction false} AsciiEndDrains(t: Text)
    requires AsciiEnd(t)
    ensures Drains(t)
    decreases Weight(t)
  {
    hide Kept, Size, Stuck, Ascii;
    AsciiEndIsNotStuck(t);
    HalvingSettles(t);
    KeptAsciiEnd(t, Size(t) / 2);
    if Size(t) / 2 >= 3 {
      AsciiEndDrains(Halved(t));
    } else {
      AsciiDrains(Halved(t));
    }
  }

  /** One is not enough, but behind a lone two-byte character: an accented letter and a line feed drain, an
      ideograph and a line feed do not. */
  lemma OneAsciiBehind(c: nat, a: nat)
    requires c >= 0x80 && a < 0x80
    ensures Drains([c, a]) <==> Width(c) == 2
  {
    var t := [c, a];
    Sizes(c, a);
    assert t[1..] == [a];
    if Width(c) == 2 {
      assert Size(t) / 2 == 1 && Kept([a], 1) == [a];
      assert Halved(t) == [a];
      assert !Stuck(t) by { assert Leading(t) == 0; }
      AsciiDrains([a]);
    } else {
      assert Size(t) / 2 == 2;
      assert Replacements(1) == [REPLACEMENT];
      assert Halved(t) == Replacements(1) + [a] == [REPLACEMENT, a];
      StuckBehind(a);
    }
  }

  lemma Sizes(c: nat, a: nat)
    requires a < 0x80
    ensures Size([a]) == 1 && Size([c, a]) == Width(c) + 1
  {
    assert [c, a][1..] == [a] && [a][1..] == [];
  }

  lemma StuckBehind(a: nat)
    requires a < 0x80
    ensures Stuck([REPLACEMENT, a]) && !Drains([REPLACEMENT, a])
  {
    Sizes(REPLACEMENT, a);
    assert [REPLACEMENT, a][1..] == [a];
    assert Leading([a]) == 0 && Leading([REPLACEMENT, a]) == 1;
  }

  /** Nor are two, behind two ideographs for instance. */
  lemma TwoAsciiBehind(c: nat, d: nat, a: nat, b: nat)
    requires Width(c) == 3 && Width(d) == 3 && a < 0x80 && b < 0x80
    ensures !Drains([c, d, a, b])
  {
    var t, u, rest := [c, d, a, b], [REPLACEMENT, REPLACEMENT, a, b], [a, b];
    assert t[1..] == [d, a, b] && [d, a, b][1..] == rest;
    assert u[1..] == [REPLACEMENT, a, b] && [REPLACEMENT, a, b][1..] == rest;
    Sizes(a, b);
    assert Size(rest) == 2 && Size([d, a, b]) == 5 && Size(t) == 8;
    assert Size([REPLACEMENT, a, b]) == 5 && Size(u) == 8;
    assert Replacements(1) == [REPLACEMENT];
    assert Replacements(2) == [REPLACEMENT, REPLACEMENT];
    assert Halved(t) == Kept([d, a, b], 4) == Replacements(2) + rest == u;
    assert Leading(rest) == 0 && Leading([REPLACEMENT, a, b]) == 1 && Leading(u) == 2;
    assert Stuck(u);
  }

  /** A single two-byte character is such an output: its second byte becomes a replacement character, one
      byte longer than the text it came from, and no number of further halvings changes that. */
  lemma TwoBytesNeverVanish(c: nat)
    requires Width(c) == 2
    ensures Halved([c]) == [REPLACEMENT] && Size(Halved([c])) > Size([c])
    ensures Halved([REPLACEMENT]) == [REPLACEMENT]
  {
    assert Size([c]) == 2 && Size([c][1..]) == 0;
    assert Replacements(1) == [REPLACEMENT];
    assert Replacements(1) + [c][1..] == [REPLACEMENT];
    assert Size([REPLACEMENT][1..]) == 0 && Size([REPLACEMENT]) == 3;
    assert Replacements(1) + [REPLACEMENT][1..] == [REPLACEMENT];
  }

  // ---- what is kept are the last bytes, decoded ----------------------------------------------------------------

  predicate Scalars(t: Text) {
    forall c | c in t :: Scalar(c)
  }

  function Bytes(t: Text): (bytes: seq<Byte>)
    requires Scalars(t)
    ensures |bytes| == Size(t)
  {
    if t == [] then []
    else
      assert t[0] in t && Scalars(t[1..]) by { assert forall c | c in t[1..] :: c in t; }
      Encode(t[0]) + Bytes(t[1..])
  }

  lemma {:induction false} BytesDecoded(t: Text)
    requires Scalars(t)
    ensures Decoded(Bytes(t)) == t
  {
    if t != [] {
      assert t[0] in t && forall c | c in t[1..] :: c in t;
      BytesDecoded(t[1..]);
      EncodeThenDecode(t[0], Bytes(t[1..]));
    }
  }

  lemma {:induction false} StraysDecoded(strays: seq<Byte>, t: Text)
    requires Scalars(t) && forall b | b in strays :: Continuation(b)
    ensures Decoded(strays + Bytes(t)) == Replacements(|strays|) + t
  {
    if strays == [] {
      assert strays + Bytes(t) == Bytes(t) && Replacements(0) + t == t;
      BytesDecoded(t);
    } else {
      assert strays[0] in strays && forall b | b in strays[1..] :: b in strays;
      assert (strays + Bytes(t))[1..] == strays[1..] + Bytes(t);
      StraysDecoded(strays[1..], t);
    }
  }

  /** Cutting bytes off the front of a text and decoding what is left is what `Kept` computes. */
  lemma {:induction false} KeptIsDecoded(t: Text, keep: nat)
    requires Scalars(t) && keep <= Size(t)
    ensures Kept(t, keep) == Decoded(Bytes(t)[Size(t) - keep..])
  {
    hide Encode, Decoded, Continuation, Replacements, Width, Scalar;
    var bytes := Bytes(t);
    if keep == Size(t) {
      assert bytes[0..] == bytes;
      BytesDecoded(t);
    } else {
      assert t[0] in t && Scalars(t[1..]) by { assert forall c | c in t[1..] :: c in t; }
      var first, rest := Encode(t[0]), t[1..];
      if Size(rest) < keep {
        var strays := first[Size(t) - keep..];
        forall b | b in strays ensures Continuation(b) {
          var i :| 0 <= i < |strays| && strays[i] == b;
          Continuations(t[0], Size(t) - keep + i);
        }
        assert bytes[Size(t) - keep..] == strays + Bytes(rest);
        StraysDecoded(strays, rest);
      } else {
        assert bytes[Size(t) - keep..] == Bytes(rest)[Size(rest) - keep..];
        KeptIsDecoded(rest, keep);
      }
    }
  }

  /** So an output that is cut loses the first half of its bytes, rounded up. */
  lemma HalvedIsDecoded(t: Text)
    requires Scalars(t)
    ensures Halved(t) == Decoded(Bytes(t)[|Bytes(t)| - |Bytes(t)| / 2..])
  {
    KeptIsDecoded(t, Size(t) / 2);
  }
}

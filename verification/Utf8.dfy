/** UTF-8: how many bytes a Unicode scalar value takes, which ones, and what a decoder makes of them. */
module Utf8 {
  type Byte = n: nat | n < 256

  function Width(c: nat): nat {
    if c < 0x80 then 1 else if c < 0x800 then 2 else if c < 0x10000 then 3 else 4
  }

  predicate Scalar(c: nat) {
    c < 0x110000
  }

  function Encode(c: nat): (bytes: seq<Byte>)
    requires Scalar(c)
    ensures |bytes| == Width(c)
  {
    if c < 0x80 then [c]
    else if c < 0x800 then [0xC0 + c / 0x40, 0x80 + c % 0x40]
    else if c < 0x10000 then [0xE0 + c / 0x1000, 0x80 + c / 0x40 % 0x40, 0x80 + c % 0x40]
    else [0xF0 + c / 0x40000, 0x80 + c / 0x1000 % 0x40, 0x80 + c / 0x40 % 0x40, 0x80 + c % 0x40]
  }

  predicate Continuation(b: Byte) {
    0x80 <= b < 0xC0
  }

  const REPLACEMENT: nat := 0xFFFD

  /** The value of a lead byte without its mark, and its continuation bytes, most significant first. */
  function Joined(lead: nat, tail: seq<Byte>): nat {
    if tail == [] then lead
    else
      var n := |tail| - 1;
      Joined(lead, tail[..n]) * 0x40 + tail[n] as int % 0x40
  }

  predicate Continued(bs: seq<Byte>, n: nat) {
    |bs| > n && forall i | 1 <= i <= n :: Continuation(bs[i])
  }

  /** Decoding that replaces what it cannot read: each stray continuation byte, and each lead byte without
      its continuations, by one U+FFFD. */
  function Decoded(bs: seq<Byte>): seq<nat> {
    if bs == [] then []
    else
      var b: nat := bs[0];
      if b < 0x80 then [b] + Decoded(bs[1..])
      else if 0xC0 <= b < 0xE0 && Continued(bs, 1) then [Joined(b - 0xC0, bs[1..2])] + Decoded(bs[2..])
      else if 0xE0 <= b < 0xF0 && Continued(bs, 2) then [Joined(b - 0xE0, bs[1..3])] + Decoded(bs[3..])
      else if 0xF0 <= b && Continued(bs, 3) then [Joined(b - 0xF0, bs[1..4])] + Decoded(bs[4..])
      else [REPLACEMENT] + Decoded(bs[1..])
  }

  lemma JoinedOne(lead: nat, a: Byte)
    ensures Joined(lead, [a]) == lead * 0x40 + a % 0x40
  {
    assert [a][..0] == [];
  }

  lemma JoinedMore(lead: nat, tail: seq<Byte>, a: Byte)
    ensures Joined(lead, tail + [a]) == Joined(lead, tail) * 0x40 + a % 0x40
  {
    assert (tail + [a])[..|tail|] == tail;
  }

  /** Six bits taken off, and put back. */
  lemma SixBits(c: nat)
    ensures c / 0x40 * 0x40 + (0x80 + c % 0x40) % 0x40 == c
  {
  }

  lemma SixMoreBits(c: nat)
    ensures c / 0x40 / 0x40 == c / 0x1000 && c / 0x1000 / 0x40 == c / 0x40000
  {
  }

  /** The continuation bytes carry six bits each. */
  lemma EncodedJoins(c: nat)
    requires Scalar(c)
    ensures c >= 0x80 ==> Joined(Encode(c)[0] - (if c < 0x800 then 0xC0 else if c < 0x10000 then 0xE0 else 0xF0),
                                 Encode(c)[1..]) == c
  {
    hide Joined;
    SixBits(c);
    SixMoreBits(c);
    var a, b := c / 0x40, c / 0x1000;
    SixBits(a);
    SixBits(b);
    var last: Byte, middle: Byte, first: Byte := 0x80 + c % 0x40, 0x80 + a % 0x40, 0x80 + b % 0x40;
    if 0x80 <= c < 0x800 {
      assert Encode(c)[1..] == [last];
      JoinedOne(a, last);
    } else if 0x800 <= c < 0x10000 {
      assert Encode(c)[1..] == [middle] + [last];
      JoinedOne(b, middle);
      JoinedMore(b, [middle], last);
    } else if c >= 0x10000 {
      assert Encode(c)[1..] == [first] + [middle] + [last];
      JoinedOne(c / 0x40000, first);
      JoinedMore(c / 0x40000, [first], middle);
      JoinedMore(c / 0x40000, [first] + [middle], last);
    }
  }

  /** What was encoded is read back, whatever follows. */
  lemma EncodeThenDecode(c: nat, rest: seq<Byte>)
    requires Scalar(c)
    ensures Decoded(Encode(c) + rest) == [c] + Decoded(rest)
  {
    var first := Encode(c);
    var bs := first + rest;
    EncodedJoins(c);
    EncodedContinues(c, rest);
    hide Joined, Continued, Encode;
    assert bs[|first|..] == rest && bs[1..|first|] == first[1..];
  }

  lemma EncodedContinues(c: nat, rest: seq<Byte>)
    requires Scalar(c)
    ensures Continued(Encode(c) + rest, Width(c) - 1)
    ensures var b := (Encode(c) + rest)[0];
            if c < 0x80 then b == c
            else if c < 0x800 then 0xC0 <= b < 0xE0
            else if c < 0x10000 then 0xE0 <= b < 0xF0 else 0xF0 <= b
  {
    var bs := Encode(c) + rest;
    forall i | 1 <= i <= Width(c) - 1 ensures Continuation(bs[i]) {
      Continuations(c, i);
    }
  }

  /** All bytes of a character but the first are continuation bytes. */
  lemma Continuations(c: nat, i: nat)
    requires Scalar(c) && 0 < i < Width(c)
    ensures Continuation(Encode(c)[i])
  {
  }
}

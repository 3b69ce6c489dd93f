/** The identifiers a client sends back as `Last-Event-ID`: `42`, or `42.3`. */
module EventId {
  import opened Options
  import opened Strings

  /** What stands before the first dot, and what after it. */
  function Partition(s: string): (string, string) {
    if s == [] then ([], [])
    else if s[0] == '.' then ([], s[1..])
    else
      var (head, tail) := Partition(s[1..]);
      ([s[0]] + head, tail)
  }

  function ParseEventId(text: string): Option<(nat, nat)> {
    var (sequence, tail) := Partition(TrimRight(TrimLeft(text, SPACES), SPACES));
    if !IsDigits(sequence) || (tail != [] && !IsDigits(tail)) then None
    else Some((ParseNat(sequence), if tail == [] then 0 else ParseNat(tail)))
  }

  /** The identifier of a frame: an audited one carries no count. */
  function PrintEventId(sequence: nat, count: nat): string {
    PrintNat(sequence) + (if count == 0 then [] else "." + PrintNat(count))
  }

  lemma {:induction false} PartitionDigits(digits: string, tail: string)
    requires (forall c | c in digits :: Digit(c)) && (tail == [] || tail[0] == '.')
    ensures Partition(digits + tail) == (digits, if tail == [] then [] else tail[1..])
  {
    if digits == [] {
      assert digits + tail == tail;
    } else {
      assert digits[0] in digits && Digit(digits[0]) && forall c | c in digits[1..] :: c in digits;
      PartitionDigits(digits[1..], tail);
      assert (digits + tail)[1..] == digits[1..] + tail;
      assert [digits[0]] + digits[1..] == digits;
    }
  }

  /** What the broker prints, it reads back. */
  lemma PrintThenParse(sequence: nat, count: nat)
    ensures ParseEventId(PrintEventId(sequence, count)) == Some((sequence, count))
  {
    var digits := PrintNat(sequence);
    var tail := if count == 0 then [] else "." + PrintNat(count);
    var text := digits + tail;
    hide PrintNat, ParseNat;
    assert digits[0] in digits && Digit(digits[0])
           && Digit(digits[|digits| - 1]) by { assert digits[|digits| - 1] in digits; }
    assert Digit(text[|text| - 1]) by {
      if count != 0 {
        var last := PrintNat(count)[|PrintNat(count)| - 1];
        assert tail[|tail| - 1] == last && last in PrintNat(count);
      }
    }
    assert TrimRight(TrimLeft(text, SPACES), SPACES) == text;
    PartitionDigits(digits, tail);
    assert tail != [] ==> tail[1..] == PrintNat(count);
  }

  /** Two numbers written with a dot between them, or the first alone, with or without the dot, for a count
      of 0; white space around does not matter. */
  ghost predicate Spells(text: string, sequence: nat, count: nat) {
    exists l, digits, tail, r ::
      text == l + (digits + tail) + r && AllIn(l, SPACES) && AllIn(r, SPACES) && Position(digits, tail, sequence, count)
  }

  ghost predicate Position(digits: string, tail: string, sequence: nat, count: nat) {
    && IsDigits(digits) && ParseNat(digits) == sequence
    && (|| (tail in {"", "."} && count == 0)
        || (tail != "" && tail[0] == '.' && IsDigits(tail[1..]) && ParseNat(tail[1..]) == count))
  }

  lemma {:induction false} PartitionCuts(s: string)
    ensures var (head, tail) := Partition(s);
            && (forall c | c in head :: c != '.')
            && (s == head || s == head + "." + tail) && (tail != [] ==> s == head + "." + tail)
  {
    if s != [] && s[0] != '.' {
      PartitionCuts(s[1..]);
      assert s == [s[0]] + s[1..];
    }
  }

  lemma SpelledIsRead(text: string, sequence: nat, count: nat)
    requires Spells(text, sequence, count)
    ensures ParseEventId(text) == Some((sequence, count))
  {
    hide ParseNat;
    var l, digits, tail, r :|
      text == l + (digits + tail) + r && AllIn(l, SPACES) && AllIn(r, SPACES)
      && Position(digits, tail, sequence, count);
    assert Stripped(digits + tail, SPACES) by { NoSpaceAtTheEnds(digits, tail); }
    TrimIsUnique(l, digits + tail, r, SPACES);
    PartitionDigits(digits, tail);
  }

  lemma NoSpaceAtTheEnds(digits: string, tail: string)
    requires IsDigits(digits) && (tail in {"", "."} || (tail != "" && IsDigits(tail[1..])))
    ensures Stripped(digits + tail, SPACES)
  {
    var s := digits + tail;
    assert digits[0] in digits && digits[|digits| - 1] in digits;
    if |tail| > 1 { assert s[|s| - 1] == tail[1..][|tail| - 2] && tail[1..][|tail| - 2] in tail[1..]; }
  }

  lemma ReadIsSpelled(text: string)
    requires ParseEventId(text).Some?
    ensures Spells(text, ParseEventId(text).value.0, ParseEventId(text).value.1)
  {
    hide ParseNat, Partition, TrimLeft, TrimRight, Stripped;
    var l, r := TrimExists(text, SPACES);
    var inner := TrimRight(TrimLeft(text, SPACES), SPACES);
    var (digits, after) := Partition(inner);
    PartitionCuts(inner);
    var tail := if inner == digits then "" else "." + after;
    assert inner == digits + tail;
    assert tail != "" ==> tail[1..] == after;
    if after == "" {
      assert "." + after == ".";
    } else {
      assert |inner| == |digits| + 1 + |after|;
    }
    assert Position(digits, tail, ParseEventId(text).value.0, ParseEventId(text).value.1);
    assert text == l + (digits + tail) + r;
  }

  /** An identifier is read exactly when it spells a position, and as that position. */
  lemma ParseExactly(text: string, sequence: nat, count: nat)
    ensures ParseEventId(text) == Some((sequence, count)) <==> Spells(text, sequence, count)
  {
    hide Spells, ParseEventId;
    if ParseEventId(text).Some? { ReadIsSpelled(text); }
    if Spells(text, sequence, count) { SpelledIsRead(text, sequence, count); }
  }
}

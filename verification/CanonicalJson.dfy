/** Canonical JSON: its text, the bytes of that text in UTF-8, and their number. */
module CanonicalJson {
  import opened Utf8

  /** A number is given as it is written.  Objects list their fields in any order: the canonical one, by key,
      makes a text of the same size. */
  datatype Json =
    | Null
    | Bool(value: bool)
    | Number(digits: string)
    | Text(text: string)
    | Arr(items: seq<Json>)
    | Obj(fields: seq<Field>)

  datatype Field = Field(key: string, value: Json)

  // ---- the size ---------------------------------------------------------------------------------------------

  function PlainSize(s: string): nat {
    if s == [] then 0 else Width(s[0] as int) + PlainSize(s[1..])
  }

  /** The bytes of one character in a string literal: escaped, or in UTF-8. */
  function CharSize(c: char): nat {
    var n := c as int;
    if c == '\"' || c == '\\' || n in {8, 9, 10, 12, 13} then 2
    else if n < 0x20 then 6
    else Width(n)
  }

  function TextSize(s: string): nat {
    if s == [] then 2 else CharSize(s[0]) + TextSize(s[1..])
  }

  function Size(j: Json): nat {
    match j
    case Null => 4
    case Bool(v) => if v then 4 else 5
    case Number(digits) => PlainSize(digits)
    case Text(s) => TextSize(s)
    case Arr(items) => if items == [] then 2 else ItemsSize(items) + 1
    case Obj(fields) => if fields == [] then 2 else FieldsSize(fields) + 1
  }

  /** Each item with the comma, or the bracket, before it. */
  function ItemsSize(items: seq<Json>): nat {
    if items == [] then 0 else 1 + Size(items[0]) + ItemsSize(items[1..])
  }

  function FieldsSize(fields: seq<Field>): nat {
    if fields == [] then 0 else 1 + TextSize(fields[0].key) + 1 + Size(fields[0].value) + FieldsSize(fields[1..])
  }

  lemma {:induction false} ItemsSizeAdds(a: seq<Json>, b: seq<Json>)
    ensures ItemsSize(a + b) == ItemsSize(a) + ItemsSize(b)
  {
    if a == [] {
      assert a + b == b;
    } else {
      ItemsSizeAdds(a[1..], b);
      assert (a + b)[1..] == a[1..] + b;
    }
  }

  lemma {:induction false} FieldsSizeAdds(a: seq<Field>, b: seq<Field>)
    ensures FieldsSize(a + b) == FieldsSize(a) + FieldsSize(b)
  {
    if a == [] {
      assert a + b == b;
    } else {
      FieldsSizeAdds(a[1..], b);
      assert (a + b)[1..] == a[1..] + b;
    }
  }

  // ---- the text and its bytes ----------------------------------------------------------------------------------

  function Encoded(s: string): seq<Byte> {
    if s == [] then [] else Encode(s[0] as int) + Encoded(s[1..])
  }

  function HexDigit(n: nat): char
    requires n < 16
  {
    "0123456789abcdef"[n]
  }

  /** A character as it is written in a string literal. */
  function Escaped(c: char): string {
    if c == '\"' then "\\\"" else if c == '\\' then "\\\\"
    else if c == '\n' then "\\n" else if c == '\r' then "\\r" else if c == '\t' then "\\t"
    else if c as int == 8 then "\\b" else if c as int == 12 then "\\f"
    else if c as int < 0x20 then "\\u00" + [HexDigit(c as int / 16), HexDigit(c as int % 16)]
    else [c]
  }

  function Quoted(s: string): string {
    if s == [] then [] else Escaped(s[0]) + Quoted(s[1..])
  }

  function Literal(s: string): string {
    "\"" + Quoted(s) + "\""
  }

  /** No white space: commas between items, colons behind keys. */
  function Written(j: Json): string {
    match j
    case Null => "null"
    case Bool(v) => if v then "true" else "false"
    case Number(digits) => digits
    case Text(s) => Literal(s)
    case Arr(items) => "[" + WrittenItems(items) + "]"
    case Obj(fields) => "{" + WrittenFields(fields) + "}"
  }

  function WrittenItems(items: seq<Json>): string {
    if items == [] then ""
    else Written(items[0]) + (if |items| == 1 then "" else "," + WrittenItems(items[1..]))
  }

  function WrittenFields(fields: seq<Field>): string {
    if fields == [] then ""
    else
      Literal(fields[0].key) + ":" + Written(fields[0].value)
      + (if |fields| == 1 then "" else "," + WrittenFields(fields[1..]))
  }

  // ---- the size is the number of those bytes --------------------------------------------------------------------

  lemma OneMoreEncoded(c: char, s: string)
    ensures Encoded([c] + s) == Encode(c as int) + Encoded(s)
  {
    assert ([c] + s)[1..] == s;
  }

  lemma InAnyOrder(a: seq<Byte>, b: seq<Byte>, c: seq<Byte>)
    ensures (a + b) + c == a + (b + c)
  {
  }

  lemma {:induction false} EncodedAdds(a: string, b: string)
    ensures Encoded(a + b) == Encoded(a) + Encoded(b)
  {
    hide Encoded, Encode;
    if a == [] {
      NothingEncoded();
      assert a + b == b;
    } else {
      EncodedAdds(a[1..], b);
      OneMoreEncoded(a[0], a[1..] + b);
      OneMoreEncoded(a[0], a[1..]);
      assert a == [a[0]] + a[1..] && a + b == [a[0]] + (a[1..] + b);
      InAnyOrder(Encode(a[0] as int), Encoded(a[1..]), Encoded(b));
    }
  }

  lemma {:induction false} PlainLength(s: string)
    ensures |Encoded(s)| == PlainSize(s)
  {
    if s != [] { PlainLength(s[1..]); }
  }

  lemma {:induction false} AsciiLength(s: string)
    requires forall c | c in s :: c as int < 0x80
    ensures |Encoded(s)| == |s|
  {
    if s != [] {
      assert s[0] in s && forall c | c in s[1..] :: c in s;
      AsciiLength(s[1..]);
    }
  }

  lemma EscapedLength(c: char)
    ensures |Encoded(Escaped(c))| == CharSize(c)
  {
    if Escaped(c) == [c] {
      assert [c][1..] == [] && Encoded([c]) == Encode(c as int) + Encoded([]);
    } else {
      AsciiLength(Escaped(c));
    }
  }

  lemma {:induction false} LiteralLength(s: string)
    ensures |Encoded(Literal(s))| == TextSize(s)
  {
    EncodedAdds("\"" + Quoted(s), "\"");
    EncodedAdds("\"", Quoted(s));
    AsciiLength("\"");
    QuotedLength(s);
  }

  lemma {:induction false} QuotedLength(s: string)
    ensures |Encoded(Quoted(s))| + 2 == TextSize(s)
  {
    if s != [] {
      EncodedAdds(Escaped(s[0]), Quoted(s[1..]));
      EscapedLength(s[0]);
      QuotedLength(s[1..]);
    }
  }

  /** The size of a value is the number of bytes of its text. */
  lemma {:induction false} SizeIsLength(j: Json)
    ensures |Encoded(Written(j))| == Size(j)
    decreases j
  {
    match j
    case Null => AsciiLength("null");
    case Bool(v) => AsciiLength(Written(j));
    case Number(digits) => PlainLength(digits);
    case Text(s) => LiteralLength(s);
    case Arr(items) =>
      ItemsLength(items);
      Bracketed("[", WrittenItems(items), "]");
    case Obj(fields) =>
      FieldsLength(fields);
      Bracketed("{", WrittenFields(fields), "}");
  }

  lemma Bracketed(a: string, s: string, b: string)
    requires |a| == |b| == 1 && a[0] as int < 0x80 && b[0] as int < 0x80
    ensures |Encoded(a + s + b)| == |Encoded(s)| + 2
  {
    EncodedAdds(a + s, b);
    EncodedAdds(a, s);
    AsciiLength(a);
    AsciiLength(b);
  }

  lemma {:induction false} ItemsLength(items: seq<Json>)
    ensures items != [] ==> |Encoded(WrittenItems(items))| + 1 == ItemsSize(items)
    ensures items == [] ==> Encoded(WrittenItems(items)) == []
    decreases items
  {
    hide Encoded;
    NothingEncoded();
    if items != [] {
      SizeIsLength(items[0]);
      ItemsLength(items[1..]);
      var rest := if |items| == 1 then "" else "," + WrittenItems(items[1..]);
      EncodedAdds(Written(items[0]), rest);
      EncodedAdds(",", WrittenItems(items[1..]));
      AsciiLength(",");
    }
  }

  lemma {:induction false} FieldsLength(fields: seq<Field>)
    ensures fields != [] ==> |Encoded(WrittenFields(fields))| + 1 == FieldsSize(fields)
    ensures fields == [] ==> Encoded(WrittenFields(fields)) == []
    decreases fields
  {
    hide Encoded, TextSize;
    NothingEncoded();
    if fields != [] {
      var key, value := Literal(fields[0].key), Written(fields[0].value);
      LiteralLength(fields[0].key);
      SizeIsLength(fields[0].value);
      FieldsLength(fields[1..]);
      var rest := if |fields| == 1 then "" else "," + WrittenFields(fields[1..]);
      EncodedAdds(key + ":" + value, rest);
      EncodedAdds(key + ":", value);
      EncodedAdds(key, ":");
      EncodedAdds(",", WrittenFields(fields[1..]));
      AsciiLength(",");
      AsciiLength(":");
    }
  }

  lemma NothingEncoded()
    ensures Encoded("") == []
  {
  }

  /** One field taken out of the list. */
  lemma WithoutField(b: seq<Field>, i: nat) returns (others: seq<Field>)
    requires i < |b|
    ensures FieldsSize(b) == FieldsSize([b[i]]) + FieldsSize(others) && |others| < |b|
    ensures multiset(b) == multiset(others) + multiset{b[i]}
  {
    hide FieldsSize;
    others := b[..i] + b[i + 1..];
    assert b == b[..i] + [b[i]] + b[i + 1..];
    FieldsSizeAdds(b[..i], b[i + 1..]);
    FieldsSizeAdds(b[..i] + [b[i]], b[i + 1..]);
    FieldsSizeAdds(b[..i], [b[i]]);
  }

  lemma OneTakenOut(m: multiset<Field>, n: multiset<Field>, x: Field)
    requires m + multiset{x} == n + multiset{x}
    ensures m == n
  {
    assert m == m + multiset{x} - multiset{x} == n;
  }

  lemma Somewhere(b: seq<Field>, x: Field) returns (i: nat)
    requires x in multiset(b)
    ensures i < |b| && b[i] == x
  {
    i :| 0 <= i < |b| && b[i] == x;
  }

  lemma {:induction false} OrderDoesNotMatter(a: seq<Field>, b: seq<Field>)
    requires multiset(a) == multiset(b)
    ensures FieldsSize(a) == FieldsSize(b) && (a == [] <==> b == [])
    decreases |a|
  {
    hide FieldsSize;
    assert |multiset(a)| == |a| && |multiset(b)| == |b|;
    if a != [] {
      var i := Somewhere(b, a[0]);
      var rest := WithoutField(a, 0);
      var others := WithoutField(b, i);
      OneTakenOut(multiset(rest), multiset(others), a[0]);
      OrderDoesNotMatter(rest, others);
    } else {
      assert b == [];
    }
  }

  /** The same value with the fields of its objects, at any depth, in another order. */
  ghost predicate Rearranged(j: Json, k: Json)
    decreases j
  {
    match j
    case Arr(items) =>
      k.Arr? && |k.items| == |items| && forall i | 0 <= i < |items| :: Rearranged(items[i], k.items[i])
    case Obj(fields) =>
      && k.Obj?
      && exists p: seq<Field> ::
           && |p| == |fields| && multiset(p) == multiset(k.fields)
           && forall i | 0 <= i < |fields| :: p[i].key == fields[i].key && Rearranged(fields[i].value, p[i].value)
    case _ => j == k
  }

  lemma {:induction false} ItemsRearranged(a: seq<Json>, b: seq<Json>)
    requires |a| == |b| && forall i | 0 <= i < |a| :: Size(a[i]) == Size(b[i])
    ensures ItemsSize(a) == ItemsSize(b)
  {
    if a != [] { ItemsRearranged(a[1..], b[1..]); }
  }

  lemma {:induction false} FieldsRearranged(a: seq<Field>, b: seq<Field>)
    requires |a| == |b| && forall i | 0 <= i < |a| :: a[i].key == b[i].key && Size(a[i].value) == Size(b[i].value)
    ensures FieldsSize(a) == FieldsSize(b)
  {
    if a != [] { FieldsRearranged(a[1..], b[1..]); }
  }

  /** All these texts, the canonical one among them, have as many bytes. */
  lemma {:induction false} RearrangedLength(j: Json, k: Json)
    requires Rearranged(j, k)
    ensures Size(k) == Size(j) == |Encoded(Written(k))|
    decreases j
  {
    hide Encoded, Written, TextSize, PlainSize, ItemsSize, FieldsSize;
    SizeIsLength(k);
    match j
    case Arr(items) =>
      forall i | 0 <= i < |items| ensures Size(items[i]) == Size(k.items[i]) {
        RearrangedLength(items[i], k.items[i]);
      }
      ItemsRearranged(items, k.items);
    case Obj(fields) =>
      var p: seq<Field> :|
        && |p| == |fields| && multiset(p) == multiset(k.fields)
        && forall i | 0 <= i < |fields| :: p[i].key == fields[i].key && Rearranged(fields[i].value, p[i].value);
      forall i | 0 <= i < |fields| ensures Size(fields[i].value) == Size(p[i].value) {
        RearrangedLength(fields[i].value, p[i].value);
      }
      FieldsRearranged(fields, p);
      OrderDoesNotMatter(p, k.fields);
    case _ =>
  }
}

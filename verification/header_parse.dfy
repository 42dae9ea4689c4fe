/**
Reading a header back from its JSON: names, 64 hexadecimal digits and decimal numbers in the order of
the fields.  Every header reads back from what its ID is the hash of.
*/
module HeaderParse {
  import opened Types
  import opened HeaderJson

  // ----- digits

  /** What a digit is worth: 0 to 9, a to f. */
  function Digit(c: char): Option<nat> {
    if '0' <= c <= '9' then Some(c as int - '0' as int)
    else if 'a' <= c <= 'f' then Some(c as int - 'a' as int + 10)
    else None
  }

  predicate IsDigit(c: char, base: nat) {
    Digit(c).Some? && Digit(c).value < base
  }

  predicate AllDigits(s: string, base: nat) {
    forall i :: 0 <= i < |s| ==> IsDigit(s[i], base)
  }

  /** A number read from the left. */
  function Read(s: string, base: nat): nat
    requires AllDigits(s, base)
  {
    if s == "" then 0 else Read(s[..|s| - 1], base) * base + Digit(s[|s| - 1]).value
  }

  lemma ReadPush(s: string, c: char, base: nat)
    requires AllDigits(s, base) && IsDigit(c, base)
    ensures AllDigits(s + [c], base) && Read(s + [c], base) == Read(s, base) * base + Digit(c).value
  {
    assert (s + [c])[..|s|] == s;
  }

  lemma HexDigit(d: nat)
    requires d < 16
    ensures Digit("0123456789abcdef"[d]) == Some(d)
  {
  }

  lemma DecimalDigit(d: nat)
    requires d < 10
    ensures Digit("0123456789"[d]) == Some(d)
  {
  }

  function Pow16(k: nat): nat {
    if k == 0 then 1 else 16 * Pow16(k - 1)
  }

  lemma Pow16At16()
    ensures Pow16(16) == TWO_64
  {
    assert Pow16(4) == 0x1_0000;
    Pow16Sum(4, 4);
    Pow16Sum(8, 8);
  }

  lemma Pow16At64()
    ensures Pow16(64) == TWO_256
  {
    Pow16At16();
    Pow16Sum(16, 16);
    Pow16Sum(32, 32);
    Squares(Pow16(16), Pow16(32));
  }

  lemma Squares(a: nat, b: nat)
    requires a == TWO_64 && b == a * a
    ensures b * b == TWO_256
  {
  }

  lemma {:induction false} Pow16Sum(a: nat, b: nat)
    ensures Pow16(a + b) == Pow16(a) * Pow16(b)
  {
    if a > 0 {
      Pow16Sum(a - 1, b);
      assert 16 * (Pow16(a - 1) * Pow16(b)) == (16 * Pow16(a - 1)) * Pow16(b);
    }
  }

  /** Hexadecimal digits read back, in any width that is enough. */
  lemma {:induction false} ReadHex(n: nat, width: nat)
    requires n < Pow16(width)
    ensures AllDigits(Hex(n, width), 16) && Read(Hex(n, width), 16) == n
  {
    if width > 0 {
      ReadHex(n / 16, width - 1);
      HexDigit(n % 16);
      ReadPush(Hex(n / 16, width - 1), "0123456789abcdef"[n % 16], 16);
    }
  }

  /** Decimal digits read back. */
  lemma {:induction false} ReadDecimal(n: nat)
    ensures AllDigits(Decimal(n), 10) && Read(Decimal(n), 10) == n
  {
    DecimalDigit(n % 10);
    if n < 10 {
      assert Decimal(n)[..0] == "";
    } else {
      ReadDecimal(n / 10);
      ReadPush(Decimal(n / 10), "0123456789"[n % 10], 10);
    }
  }

  // ----- a header's text

  datatype Item = Text(text: string) | ID | Number

  /** The names of the fields, and what follows each. */
  const SHAPE: seq<Item> := [
    Text("{\"previous\":\""), ID, Text("\",\"hash_list_root\":\""), ID, Text("\",\"time\":"), Number,
    Text(",\"target\":\""), ID, Text("\",\"chain_work\":\""), ID, Text("\",\"nonce\":"), Number,
    Text(",\"height\":"), Number, Text(",\"transaction_count\":"), Number, Text("}")]

  /** How many decimal digits a text starts with. */
  function DigitsAhead(s: string): (n: nat)
    ensures n <= |s| && AllDigits(s[..n], 10)
  {
    if s == "" || !IsDigit(s[0], 10) then 0
    else
      var n := DigitsAhead(s[1..]) + 1;
      assert forall i :: 0 < i < n ==> s[..n][i] == s[1..][..n - 1][i - 1];
      n
  }

  /** The values in a text, if it has this shape. */
  function Parse(s: string, shape: seq<Item>): Option<seq<nat>>
    decreases |shape|
  {
    if shape == [] then if s == "" then Some([]) else None
    else
      match shape[0]
      case Text(text) => if text <= s then Parse(s[|text|..], shape[1..]) else None
      case ID =>
        if |s| < 64 || !AllDigits(s[..64], 16) then None
        else Put(Read(s[..64], 16), Parse(s[64..], shape[1..]))
      case Number =>
        var n := DigitsAhead(s);
        if n == 0 then None else Put(Read(s[..n], 10), Parse(s[n..], shape[1..]))
  }

  function Put(value: nat, rest: Option<seq<nat>>): Option<seq<nat>> {
    if rest.None? then None else Some([value] + rest.value)
  }

  /** The header that a text shows; the text does not show its ID. */
  function ParseHeader(s: string): Option<BlockHeader> {
    var v := Parse(s, SHAPE);
    if v.None? || |v.value| != 8 then None
    else
      var v := v.value;
      Some(BlockHeader(0, v[0], v[1], v[2], v[3], v[4], v[5], v[6], v[7]))
  }

  // ----- what was written is read

  /** Pieces k, k + 1, ... to the last. */
  function From(p: seq<string>, k: nat): string
    requires k <= |p|
    decreases |p| - k
  {
    if k == |p| then "" else p[k] + From(p, k + 1)
  }

  lemma {:induction false} JoinIsFrom(p: seq<string>, k: nat)
    requires k <= |p|
    ensures Join(p, 0, k) + From(p, k) == From(p, 0)
  {
    if k > 0 {
      JoinIsFrom(p, k - 1);
      assert Join(p, 0, k - 1) + (p[k - 1] + From(p, k)) == Join(p, 0, k) + From(p, k);
    } else {
      assert "" + From(p, 0) == From(p, 0);
    }
  }

  lemma ParseText(text: string, rest: string, shape: seq<Item>)
    requires shape != [] && shape[0] == Text(text)
    ensures Parse(text + rest, shape) == Parse(rest, shape[1..])
  {
    assert (text + rest)[|text|..] == rest;
  }

  lemma ParseID(n: nat, rest: string, shape: seq<Item>)
    requires shape != [] && shape[0] == ID && n < TWO_256
    ensures Parse(Hex(n, 64) + rest, shape) == Put(n, Parse(rest, shape[1..]))
  {
    var s := Hex(n, 64) + rest;
    Pow16At64();
    ReadHex(n, 64);
    assert s[..64] == Hex(n, 64) && s[64..] == rest;
  }

  lemma {:induction false} DigitsEnd(s: string, rest: string)
    requires AllDigits(s, 10) && (rest == "" || !IsDigit(rest[0], 10))
    ensures DigitsAhead(s + rest) == |s|
  {
    if s == "" {
      assert s + rest == rest;
    } else {
      assert (s + rest)[1..] == s[1..] + rest;
      DigitsEnd(s[1..], rest);
    }
  }

  lemma ParseNumber(n: nat, rest: string, shape: seq<Item>)
    requires shape != [] && shape[0] == Number && (rest == "" || !IsDigit(rest[0], 10))
    ensures Parse(Decimal(n) + rest, shape) == Put(n, Parse(rest, shape[1..]))
  {
    var s := Decimal(n) + rest;
    ReadDecimal(n);
    DigitsEnd(Decimal(n), rest);
    assert s[..|Decimal(n)|] == Decimal(n) && s[|Decimal(n)|..] == rest;
  }

  /** The piece that writes this item. */
  predicate Writes(piece: string, item: Item, value: nat) {
    match item
    case Text(text) => piece == text
    case ID => value < TWO_256 && piece == Hex(value, 64)
    case Number => piece == Decimal(value)
  }

  /** After a number comes a text that starts with no digit. */
  predicate NumbersEnd(shape: seq<Item>) {
    forall i :: 0 <= i < |shape| && shape[i].Number? ==>
      i + 1 < |shape| && shape[i + 1].Text? && shape[i + 1].text != "" && !IsDigit(shape[i + 1].text[0], 10)
  }

  /** The values of the items that have one. */
  function ValuesFrom(shape: seq<Item>, values: seq<nat>, k: nat): seq<nat>
    requires |values| == |shape| && k <= |shape|
    decreases |shape| - k
  {
    if k == |shape| then []
    else (if shape[k].Text? then [] else [values[k]]) + ValuesFrom(shape, values, k + 1)
  }

  ghost predicate WritesAll(p: seq<string>, shape: seq<Item>, values: seq<nat>) {
    |p| == |shape| == |values| && forall i :: 0 <= i < |p| ==> Writes(p[i], shape[i], values[i])
  }

  /** What comes after a number starts with no digit. */
  lemma NumberEnds(p: seq<string>, shape: seq<Item>, values: seq<nat>, k: nat)
    requires WritesAll(p, shape, values) && NumbersEnd(shape) && k < |p| && shape[k].Number?
    ensures var rest := From(p, k + 1); rest != "" && !IsDigit(rest[0], 10)
  {
    assert Writes(p[k + 1], shape[k + 1], values[k + 1]);
    assert From(p, k + 1) == p[k + 1] + From(p, k + 2);
  }

  /** One item, given what is read from the rest. */
  lemma ParseItem(piece: string, rest: string, shape: seq<Item>, value: nat, read: seq<nat>)
    requires shape != [] && Writes(piece, shape[0], value) && Parse(rest, shape[1..]) == Some(read)
    requires shape[0].Number? ==> rest != "" && !IsDigit(rest[0], 10)
    ensures Parse(piece + rest, shape) == Some((if shape[0].Text? then [] else [value]) + read)
  {
    match shape[0]
    case Text(text) =>
      ParseText(text, rest, shape);
      assert [] + read == read;
    case ID => ParseID(value, rest, shape);
    case Number => ParseNumber(value, rest, shape);
  }

  lemma {:induction false} ParseWritten(p: seq<string>, shape: seq<Item>, values: seq<nat>, k: nat)
    requires WritesAll(p, shape, values) && k <= |p| && NumbersEnd(shape)
    ensures Parse(From(p, k), shape[k..]) == Some(ValuesFrom(shape, values, k))
    decreases |p| - k
  {
    if k < |p| {
      ParseWritten(p, shape, values, k + 1);
      if shape[k].Number? {
        NumberEnds(p, shape, values, k);
      }
      assert shape[k..][0] == shape[k] && shape[k..][1..] == shape[k + 1..];
      ParseItem(p[k], From(p, k + 1), shape[k..], values[k], ValuesFrom(shape, values, k + 1));
    }
  }

  /** IDs, target and work are numbers of 32 bytes. */
  predicate Sized(h: BlockHeader) {
    Encodable(h) && h.previous < TWO_256 && h.hashListRoot < TWO_256 && h.target < TWO_256 && h.chainWork < TWO_256
  }

  function Values(h: BlockHeader): seq<nat>
    requires Encodable(h)
  {
    [0, h.previous, 0, h.hashListRoot, 0, h.time, 0, h.target, 0, h.chainWork, 0, h.nonce, 0, h.height, 0,
     h.transactionCount, 0]
  }

  lemma PiecesWrite(h: BlockHeader)
    requires Sized(h)
    ensures WritesAll(Pieces(h), SHAPE, Values(h))
  {
    forall i | 0 <= i < 17 ensures Writes(Pieces(h)[i], SHAPE[i], Values(h)[i]) {
      if i % 2 == 0 {
        TextWrites(h, i);
      } else {
        ValueWrites(h, i);
      }
    }
  }

  lemma TextWrites(h: BlockHeader, i: nat)
    requires Encodable(h) && i < 17 && i % 2 == 0
    ensures |SHAPE| == 17 && Writes(Pieces(h)[i], SHAPE[i], Values(h)[i])
  {
    assert SHAPE[i].Text? && Pieces(h)[i] == SHAPE[i].text;
  }

  lemma ValueWrites(h: BlockHeader, i: nat)
    requires Sized(h) && i < 17 && i % 2 == 1
    ensures |SHAPE| == 17 && Writes(Pieces(h)[i], SHAPE[i], Values(h)[i])
  {
    IDsWrite(h);
    NumbersWrite(h);
  }

  lemma IDsWrite(h: BlockHeader)
    requires Sized(h)
    ensures |SHAPE| == 17
    ensures Writes(Pieces(h)[1], SHAPE[1], Values(h)[1]) && Writes(Pieces(h)[3], SHAPE[3], Values(h)[3])
    ensures Writes(Pieces(h)[7], SHAPE[7], Values(h)[7]) && Writes(Pieces(h)[9], SHAPE[9], Values(h)[9])
  {
    assert SHAPE[1] == SHAPE[3] == SHAPE[7] == SHAPE[9] == ID;
  }

  lemma NumbersWrite(h: BlockHeader)
    requires Sized(h)
    ensures |SHAPE| == 17
    ensures Writes(Pieces(h)[5], SHAPE[5], Values(h)[5]) && Writes(Pieces(h)[11], SHAPE[11], Values(h)[11])
    ensures Writes(Pieces(h)[13], SHAPE[13], Values(h)[13]) && Writes(Pieces(h)[15], SHAPE[15], Values(h)[15])
  {
    assert SHAPE[5] == SHAPE[11] == SHAPE[13] == SHAPE[15] == Number;
  }

  lemma ShapeEnds()
    ensures NumbersEnd(SHAPE)
  {
    assert SHAPE[6] == Text(",\"target\":\"") && SHAPE[12] == Text(",\"height\":");
    assert SHAPE[14] == Text(",\"transaction_count\":") && SHAPE[16] == Text("}");
    forall i | 0 <= i < |SHAPE| && SHAPE[i].Number? ensures i == 5 || i == 11 || i == 13 || i == 15 {
    }
  }

  lemma ShapeValues(h: BlockHeader)
    requires Encodable(h)
    ensures |SHAPE| == 17
    ensures ValuesFrom(SHAPE, Values(h), 0)
            == [h.previous, h.hashListRoot, h.time, h.target, h.chainWork, h.nonce, h.height, h.transactionCount]
  {
    var v := Values(h);
    assert ValuesFrom(SHAPE, v, 15) == [h.transactionCount];
    assert ValuesFrom(SHAPE, v, 13) == [h.height, h.transactionCount];
    assert ValuesFrom(SHAPE, v, 11) == [h.nonce, h.height, h.transactionCount];
    assert ValuesFrom(SHAPE, v, 9) == [h.chainWork, h.nonce, h.height, h.transactionCount];
    assert ValuesFrom(SHAPE, v, 7) == [h.target, h.chainWork, h.nonce, h.height, h.transactionCount];
    assert ValuesFrom(SHAPE, v, 5) == [h.time, h.target, h.chainWork, h.nonce, h.height, h.transactionCount];
    assert ValuesFrom(SHAPE, v, 3)
        == [h.hashListRoot, h.time, h.target, h.chainWork, h.nonce, h.height, h.transactionCount];
  }

  /** Every header reads back from its text. */
  lemma ParseSerialize(h: BlockHeader)
    requires Sized(h)
    ensures ParseHeader(Serialize(h)) == Some(h.(id := 0))
  {
    var p := Pieces(h);
    JoinIsFrom(p, 17);
    assert Join(p, 0, 17) + "" == Join(p, 0, 17);
    PiecesWrite(h);
    ShapeEnds();
    ParseWritten(p, SHAPE, Values(h), 0);
    assert SHAPE[0..] == SHAPE;
    ShapeValues(h);
  }

  /** So headers with the same text are the same. */
  lemma SerializeIsInjective(g: BlockHeader, h: BlockHeader)
    requires Sized(g) && Sized(h) && Serialize(g) == Serialize(h)
    ensures g.(id := 0) == h.(id := 0)
  {
    ParseSerialize(g);
    ParseSerialize(h);
  }
}

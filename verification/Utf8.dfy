/** Well-formed UTF-8, as Table 3-7 of The Unicode Standard lists its byte sequences. */
module Utf8 {
  type Byte = x: int | 0 <= x < 256

  predicate Continues(b: Byte) {
    0x80 <= b < 0xC0
  }

  predicate StartsThree(b: Byte, c: Byte) {
    || (b == 0xE0 && 0xA0 <= c < 0xC0)
    || (0xE1 <= b < 0xED && Continues(c))
    || (b == 0xED && 0x80 <= c < 0xA0)
    || (0xEE <= b < 0xF0 && Continues(c))
  }

  predicate StartsFour(b: Byte, c: Byte) {
    || (b == 0xF0 && 0x90 <= c < 0xC0)
    || (0xF1 <= b < 0xF4 && Continues(c))
    || (b == 0xF4 && 0x80 <= c < 0x90)
  }

  /** Length of the character at the front, 0 if the bytes do not begin with a whole one. */
  function CharLength(s: seq<Byte>): (n: nat)
    ensures n <= |s|
  {
    if s == [] then 0
    else if s[0] < 0x80 then 1
    else if |s| > 1 && 0xC2 <= s[0] < 0xE0 && Continues(s[1]) then 2
    else if |s| > 2 && StartsThree(s[0], s[1]) && Continues(s[2]) then 3
    else if |s| > 3 && StartsFour(s[0], s[1]) && Continues(s[2]) && Continues(s[3]) then 4
    else 0
  }

  /** The bytes are whole characters. */
  predicate Valid(s: seq<Byte>) {
    s == [] || (CharLength(s) > 0 && Valid(s[CharLength(s)..]))
  }

  lemma FirstCharStays(a: seq<Byte>, b: seq<Byte>)
    requires CharLength(a) > 0
    ensures CharLength(a + b) == CharLength(a)
  {
  }

  /** Behind whole characters, the rest decides. */
  lemma {:induction false} ValidConcat(a: seq<Byte>, b: seq<Byte>)
    requires Valid(a)
    ensures Valid(a + b) <==> Valid(b)
    decreases |a|
  {
    if a == [] {
      assert a + b == b;
    } else {
      var n := CharLength(a);
      FirstCharStays(a, b);
      assert (a + b)[n..] == a[n..] + b;
      ValidConcat(a[n..], b);
    }
  }

  lemma ValidAppend(a: seq<Byte>, b: seq<Byte>, c: seq<Byte>)
    requires Valid(a + b) && Valid(c)
    ensures Valid(a + (b + c))
  {
    ValidConcat(a + b, c);
    assert a + (b + c) == (a + b) + c;
  }

  // ----- the encoding form behind the table -----

  /** A Unicode scalar value: a code point that is no surrogate. */
  predicate Scalar(c: int) {
    0 <= c < 0xD800 || 0xE000 <= c < 0x11_0000
  }

  /** Its bytes: six bits to each continuation byte, the rest behind the length mark of the first one. */
  function EncodeChar(c: int): (s: seq<Byte>)
    requires Scalar(c)
    ensures s != []
  {
    var q := c / 64;
    var r := q / 64;
    if c < 0x80 then [c]
    else if c < 0x800 then [0xC0 + q, 0x80 + c % 64]
    else if c < 0x1_0000 then [0xE0 + r, 0x80 + q % 64, 0x80 + c % 64]
    else [0xF0 + r / 64, 0x80 + r % 64, 0x80 + q % 64, 0x80 + c % 64]
  }

  predicate AllScalar(cs: seq<int>) {
    forall k :: 0 <= k < |cs| ==> Scalar(cs[k])
  }

  function EncodeAll(cs: seq<int>): seq<Byte>
    requires AllScalar(cs)
  {
    if cs == [] then [] else EncodeChar(cs[0]) + EncodeAll(cs[1..])
  }

  /** The bits of a first byte behind its mark, followed by those of the continuation bytes. */
  function Value(first: int, more: seq<Byte>): int {
    if more == [] then first else Value(first, more[..|more| - 1]) * 64 + more[|more| - 1] as int - 0x80
  }

  /** The value of the character at the front. */
  function Decoded(s: seq<Byte>): int
    requires CharLength(s) > 0
  {
    var first: int, n := s[0], CharLength(s);
    Value(first - if n == 1 then 0 else if n == 2 then 0xC0 else if n == 3 then 0xE0 else 0xF0, s[1..n])
  }

  lemma OneValue(first: int, b: Byte)
    ensures Value(first, [b]) == first * 64 + (b as int - 0x80)
  {
    assert [b][..0] == [];
  }

  lemma TwoValues(first: int, b: Byte, c: Byte)
    ensures Value(first, [b, c]) == (first * 64 + (b as int - 0x80)) * 64 + (c as int - 0x80)
  {
    assert [b, c][..1] == [b];
    OneValue(first, b);
  }

  lemma ThreeValues(first: int, b: Byte, c: Byte, d: Byte)
    ensures Value(first, [b, c, d])
         == ((first * 64 + (b as int - 0x80)) * 64 + (c as int - 0x80)) * 64 + (d as int - 0x80)
  {
    assert [b, c, d][..2] == [b, c];
    TwoValues(first, b, c);
  }

  lemma SixBits(q: int, b: int)
    requires 0 <= q && 0 <= b < 64
    ensures (q * 64 + b) / 64 == q && (q * 64 + b) % 64 == b
  {
  }

  lemma DecodedIsEncoded(s: seq<Byte>)
    requires CharLength(s) > 0
    ensures Scalar(Decoded(s)) && EncodeChar(Decoded(s)) == s[..CharLength(s)]
  {
    match CharLength(s) {
      case 1 =>
        assert s[1..1] == [] && s[..1] == [s[0]];
      case 2 => TwoByteChar(s);
      case 3 => ThreeByteChar(s);
      case _ => FourByteChar(s);
    }
  }

  lemma TwoByteChar(s: seq<Byte>)
    requires CharLength(s) == 2
    ensures Scalar(Decoded(s)) && EncodeChar(Decoded(s)) == s[..2]
  {
    var a: int, b: int := s[0], s[1];
    assert s[1..2] == [s[1]] && s[..2] == [s[0], s[1]];
    OneValue(a - 0xC0, s[1]);
    SixBits(a - 0xC0, b - 0x80);
  }

  lemma ThreeByteChar(s: seq<Byte>)
    requires CharLength(s) == 3
    ensures Scalar(Decoded(s)) && EncodeChar(Decoded(s)) == s[..3]
  {
    var a: int, b: int, c: int := s[0], s[1], s[2];
    assert s[1..3] == [s[1], s[2]] && s[..3] == [s[0], s[1], s[2]];
    TwoValues(a - 0xE0, s[1], s[2]);
    SixBits(a - 0xE0, b - 0x80);
    SixBits((a - 0xE0) * 64 + (b - 0x80), c - 0x80);
  }

  lemma FourByteChar(s: seq<Byte>)
    requires CharLength(s) == 4
    ensures Scalar(Decoded(s)) && EncodeChar(Decoded(s)) == s[..4]
  {
    var a: int, b: int, c: int, d: int := s[0], s[1], s[2], s[3];
    assert s[1..4] == [s[1], s[2], s[3]] && s[..4] == [s[0], s[1], s[2], s[3]];
    ThreeValues(a - 0xF0, s[1], s[2], s[3]);
    var r := (a - 0xF0) * 64 + (b - 0x80);
    SixBits(a - 0xF0, b - 0x80);
    SixBits(r, c - 0x80);
    SixBits(r * 64 + (c - 0x80), d - 0x80);
  }

  lemma EncodedIsChar(c: int, rest: seq<Byte>)
    requires Scalar(c)
    ensures CharLength(EncodeChar(c) + rest) == |EncodeChar(c)|
  {
  }

  lemma {:induction false} EncodedIsValid(cs: seq<int>)
    requires AllScalar(cs)
    ensures Valid(EncodeAll(cs))
  {
    if cs != [] {
      var rest := EncodeAll(cs[1..]);
      EncodedIsValid(cs[1..]);
      EncodedIsChar(cs[0], rest);
      assert (EncodeChar(cs[0]) + rest)[|EncodeChar(cs[0])|..] == rest;
    }
  }

  lemma EncodeFirst(c: int, rest: seq<int>)
    requires Scalar(c) && AllScalar(rest)
    ensures AllScalar([c] + rest) && EncodeAll([c] + rest) == EncodeChar(c) + EncodeAll(rest)
  {
    assert ([c] + rest)[1..] == rest;
  }

  lemma {:induction false} ValidIsEncoded(s: seq<Byte>) returns (cs: seq<int>)
    requires Valid(s)
    ensures AllScalar(cs) && EncodeAll(cs) == s
    decreases |s|
  {
    if s == [] {
      cs := [];
    } else {
      var n, c := CharLength(s), Decoded(s);
      var rest := ValidIsEncoded(s[n..]);
      DecodedIsEncoded(s);
      cs := [c] + rest;
      EncodeFirst(c, rest);
      assert s == s[..n] + s[n..];
    }
  }

  /** A byte string is well-formed exactly when it encodes some sequence of scalar values. */
  lemma ValidExactlyEncoded(s: seq<Byte>)
    ensures Valid(s) <==> exists cs: seq<int> :: AllScalar(cs) && EncodeAll(cs) == s
  {
    if Valid(s) {
      var cs := ValidIsEncoded(s);
    }
    forall cs: seq<int> | AllScalar(cs) && EncodeAll(cs) == s ensures Valid(s) {
      EncodedIsValid(cs);
    }
  }
}

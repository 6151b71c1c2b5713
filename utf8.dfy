/**
 * The UTF-8 decoding ByteArrayOutputStream.toString(UTF_8) performs: every
 * well-formed sequence becomes its code point, and every maximal ill-formed
 * subpart becomes one U+FFFD, as the Unicode standard recommends. Whether the
 * JDK's decoder groups every malformed sequence the same way is not modelled.
 */
module Utf8 {
  import opened Base

  const REPLACEMENT: char := 0xFFFD as char

  /** A continuation octet, 10xxxxxx. */
  predicate Continuation(b: Byte)
  {
    0x80 <= b <= 0xBF
  }

  /** The second octet a three-octet lead allows: no overlong forms, no surrogates. */
  predicate SecondOfThree(lead: Byte, b: Byte)
  {
    if lead == 0xE0 then 0xA0 <= b <= 0xBF
    else if lead == 0xED then 0x80 <= b <= 0x9F
    else Continuation(b)
  }

  /** The second octet a four-octet lead allows: no overlong forms, nothing above U+10FFFF. */
  predicate SecondOfFour(lead: Byte, b: Byte)
  {
    if lead == 0xF0 then 0x90 <= b <= 0xBF
    else if lead == 0xF4 then 0x80 <= b <= 0x8F
    else Continuation(b)
  }

  /** The next character of a non-empty octet sequence and how many octets it takes. */
  function Step(b: seq<Byte>): (r: (char, nat))
    requires |b| > 0
    ensures 1 <= r.1 <= |b| && r.1 <= 4
  {
    var b0 := b[0] as int;
    if b0 < 0x80 then (b0 as char, 1)
    else if 0xC2 <= b0 <= 0xDF then
      if |b| >= 2 && Continuation(b[1]) then (Two(b0, b[1]) as char, 2)
      else (REPLACEMENT, 1)
    else if 0xE0 <= b0 <= 0xEF then
      if |b| < 2 || !SecondOfThree(b0, b[1]) then (REPLACEMENT, 1)
      else if |b| < 3 || !Continuation(b[2]) then (REPLACEMENT, 2)
      else (Three(b0, b[1], b[2]) as char, 3)
    else if 0xF0 <= b0 <= 0xF4 then
      if |b| < 2 || !SecondOfFour(b0, b[1]) then (REPLACEMENT, 1)
      else if |b| < 3 || !Continuation(b[2]) then (REPLACEMENT, 2)
      else if |b| < 4 || !Continuation(b[3]) then (REPLACEMENT, 3)
      else (Four(b0, b[1], b[2], b[3]) as char, 4)
    else (REPLACEMENT, 1)
  }

  /** The code point of a two-octet sequence: at least U+0080, so never overlong. */
  function Two(b0: Byte, b1: Byte): (v: int)
    requires 0xC2 <= b0 <= 0xDF && Continuation(b1)
    ensures 0x80 <= v < 0x800
  {
    (b0 as int - 0xC0) * 0x40 + (b1 as int - 0x80)
  }

  /** The code point of a three-octet sequence: U+0800 to U+FFFF, no surrogate. */
  function Three(b0: Byte, b1: Byte, b2: Byte): (v: int)
    requires 0xE0 <= b0 <= 0xEF && SecondOfThree(b0, b1) && Continuation(b2)
    ensures 0x800 <= v < 0x1_0000 && !(0xD800 <= v < 0xE000)
  {
    (b0 as int - 0xE0) * 0x1000 + (b1 as int - 0x80) * 0x40 + (b2 as int - 0x80)
  }

  /** The code point of a four-octet sequence: U+10000 to U+10FFFF. */
  function Four(b0: Byte, b1: Byte, b2: Byte, b3: Byte): (v: int)
    requires 0xF0 <= b0 <= 0xF4 && SecondOfFour(b0, b1) && Continuation(b2) && Continuation(b3)
    ensures 0x1_0000 <= v < 0x11_0000
  {
    (b0 as int - 0xF0) * 0x4_0000 + (b1 as int - 0x80) * 0x1000 + (b2 as int - 0x80) * 0x40 + (b3 as int - 0x80)
  }

  /** The characters of an octet sequence. */
  function Decode(b: seq<Byte>): (s: string)
    ensures |s| <= |b|
    decreases |b|
  {
    if b == [] then []
    else
      var (c, n) := Step(b);
      [c] + Decode(b[n..])
  }

  /** The UTF-8 octets of one character. */
  function EncodeChar(c: char): (b: seq<Byte>)
    ensures 1 <= |b| <= 4
  {
    var v := c as int;
    if v < 0x80 then [v]
    else if v < 0x800 then [0xC0 + v / 0x40, 0x80 + v % 0x40]
    else if v < 0x1_0000 then [0xE0 + v / 0x1000, 0x80 + v / 0x40 % 0x40, 0x80 + v % 0x40]
    else [0xF0 + v / 0x4_0000, 0x80 + v / 0x1000 % 0x40, 0x80 + v / 0x40 % 0x40, 0x80 + v % 0x40]
  }

  /** The UTF-8 octets of a text. */
  function Encode(s: string): seq<Byte>
  {
    if s == [] then [] else EncodeChar(s[0]) + Encode(s[1..])
  }

  /** Decoding reads back exactly the one character an encoded sequence holds. */
  lemma StepEncodeChar(c: char, rest: seq<Byte>)
    ensures Step(EncodeChar(c) + rest) == (c, |EncodeChar(c)|)
  {
    var v := c as int;
    if 0x80 <= v < 0x800 {
      StepTwo(v, rest);
    } else if 0x800 <= v < 0x1_0000 {
      StepThree(v, rest);
    } else if v >= 0x1_0000 {
      StepFour(v, rest);
    }
  }

  lemma StepTwo(v: int, rest: seq<Byte>)
    requires 0x80 <= v < 0x800
    ensures var b := [0xC0 + v / 0x40, 0x80 + v % 0x40] + rest; Step(b) == (v as char, 2)
  {
    var b := [0xC0 + v / 0x40, 0x80 + v % 0x40] + rest;
    assert b[0] == 0xC0 + v / 0x40 && b[1] == 0x80 + v % 0x40;
    assert Two(b[0], b[1]) == v;
  }

  lemma StepThree(v: int, rest: seq<Byte>)
    requires 0x800 <= v < 0x1_0000 && !(0xD800 <= v < 0xE000)
    ensures var b := [0xE0 + v / 0x1000, 0x80 + v / 0x40 % 0x40, 0x80 + v % 0x40] + rest; Step(b) == (v as char, 3)
  {
    var q := v / 0x40;
    assert v == q * 0x40 + v % 0x40;
    assert q == v / 0x1000 * 0x40 + q % 0x40;
    assert q / 0x40 == v / 0x1000;
    var b := [0xE0 + v / 0x1000, 0x80 + q % 0x40, 0x80 + v % 0x40] + rest;
    assert b[0] == 0xE0 + v / 0x1000 && b[1] == 0x80 + q % 0x40 && b[2] == 0x80 + v % 0x40;
    assert Three(b[0], b[1], b[2]) == v;
  }

  lemma StepFour(v: int, rest: seq<Byte>)
    requires 0x1_0000 <= v < 0x11_0000
    ensures var b := [0xF0 + v / 0x4_0000, 0x80 + v / 0x1000 % 0x40, 0x80 + v / 0x40 % 0x40, 0x80 + v % 0x40] + rest;
      Step(b) == (v as char, 4)
  {
    var q := v / 0x40;
    var p := q / 0x40;
    assert v == q * 0x40 + v % 0x40;
    assert q == p * 0x40 + q % 0x40;
    assert p == v / 0x1000;
    assert p / 0x40 == v / 0x4_0000;
    assert p == v / 0x4_0000 * 0x40 + p % 0x40;
    var b := [0xF0 + v / 0x4_0000, 0x80 + p % 0x40, 0x80 + q % 0x40, 0x80 + v % 0x40] + rest;
    assert b[0] == 0xF0 + v / 0x4_0000 && b[1] == 0x80 + p % 0x40;
    assert b[2] == 0x80 + q % 0x40 && b[3] == 0x80 + v % 0x40;
    assert Four(b[0], b[1], b[2], b[3]) == v;
  }

  /** Decoding is a left inverse of encoding: every text survives a UTF-8 round trip. */
  lemma {:induction false} DecodeEncode(s: string)
    ensures Decode(Encode(s)) == s
  {
    if s != [] {
      var e := EncodeChar(s[0]);
      StepEncodeChar(s[0], Encode(s[1..]));
      assert (e + Encode(s[1..]))[|e|..] == Encode(s[1..]);
      DecodeEncode(s[1..]);
    }
  }

  /** Octets below 0x80 decode one-to-one to the same code points. */
  lemma {:induction false} DecodeAscii(b: seq<Byte>)
    requires forall k :: 0 <= k < |b| ==> b[k] < 0x80
    ensures |Decode(b)| == |b|
    ensures forall k :: 0 <= k < |b| ==> Decode(b)[k] == b[k] as char
  {
    if b != [] {
      DecodeAscii(b[1..]);
    }
  }

  /** Without a zero octet there is no NUL character in the decoded text. */
  lemma {:induction false} DecodeNoNul(b: seq<Byte>)
    requires 0 !in b
    ensures 0 as char !in Decode(b)
    decreases |b|
  {
    if b != [] {
      var (c, n) := Step(b);
      assert b[0] != 0;
      assert forall x :: x in b[n..] ==> x in b;
      DecodeNoNul(b[n..]);
    }
  }
}

/**
 * SMFormatting: how ids, integer literals and strings are written in the
 * disassembly, including the Java-literal escaping of quoted strings
 * (StringEscapeUtils.escapeJava).
 */
module Formatting {
  import opened Base
  import opened Text

  /** idString: "%" and the decimal id; the Integer, Long, int and long overloads all print the same number. */
  function IdString(id: int): (s: string)
    ensures |s| >= 2 && s[0] == '%'
    ensures id >= 0 ==> s[1..] == NatToString(id)
    ensures id < 0 ==> s[1..] == "-" + NatToString(-id)
  {
    "%" + IntToString(id)
  }

  /** Distinct ids are written differently. */
  lemma IdStringInjective(a: int, b: int)
    requires IdString(a) == IdString(b)
    ensures a == b
  {
    var sa := IdString(a)[1..];
    assert sa == IdString(b)[1..];
    if a >= 0 && b >= 0 {
      NatToStringInjective(a, b);
    } else if a < 0 && b < 0 {
      assert sa[1..] == NatToString(-a) && sa[1..] == NatToString(-b);
      NatToStringInjective(-a, -b);
    }
  }

  /** Long.toUnsignedString: a negative long is read as its value plus 2^64. */
  function Unsigned(v: Long): (u: nat)
    ensures u < 0x1_0000_0000_0000_0000
    ensures u % 0x1_0000_0000_0000_0000 == v % 0x1_0000_0000_0000_0000
    ensures v >= 0 ==> u == v
  {
    if v < 0 then v + 0x1_0000_0000_0000_0000 else v
  }

  /** literal: "$" and the unsigned decimal of a long. */
  function Literal(v: Long): (s: string)
    ensures |s| >= 2 && s[0] == '$' && IsDigits(s[1..])
    ensures DigitsValue(s[1..]) == Unsigned(v)
  {
    NatToStringValue(Unsigned(v));
    "$" + NatToString(Unsigned(v))
  }

  /** A word is written as exactly its value, without a sign. */
  lemma LiteralWord(w: Word)
    ensures DigitsValue(Literal(w)[1..]) == w
    ensures '-' !in Literal(w)
  {
    var s := Literal(w);
    assert s[0] == '$';
    assert forall k :: 1 <= k < |s| ==> s[1..][k - 1] == s[k];
  }

  /** Two longs get the same literal exactly when they are the same 64-bit pattern: -1 and 2^64-1 cannot both be longs. */
  lemma LiteralInjective(a: Long, b: Long)
    requires Literal(a) == Literal(b)
    ensures a == b
  {
    assert Literal(a)[1..] == Literal(b)[1..];
  }

  /** An upper-case hexadecimal digit, as the Unicode escaper writes it. */
  function UpperHex(d: nat): (c: char)
    requires d < 16
    ensures IsUpperHex(c) && UpperHexValue(c) == d
  {
    if d < 10 then ('0' as int + d) as char else ('A' as int + d - 10) as char
  }

  predicate IsUpperHex(c: char)
  {
    '0' <= c <= '9' || 'A' <= c <= 'F'
  }

  function UpperHexValue(c: char): (d: nat)
    requires IsUpperHex(c)
    ensures d < 16
  {
    if c <= '9' then c as int - '0' as int else c as int - 'A' as int + 10
  }

  /** The four hexadecimal digits of a UTF-16 code unit. */
  function Hex4(n: nat): (s: string)
    requires n < 0x1_0000
    ensures |s| == 4
  {
    [UpperHex(n / 0x1000), UpperHex(n / 0x100 % 0x10), UpperHex(n / 0x10 % 0x10), UpperHex(n % 0x10)]
  }

  predicate IsHex4(s: string)
  {
    |s| == 4 && IsUpperHex(s[0]) && IsUpperHex(s[1]) && IsUpperHex(s[2]) && IsUpperHex(s[3])
  }

  function Hex4Value(s: string): (n: nat)
    requires IsHex4(s)
    ensures n < 0x1_0000
  {
    UpperHexValue(s[0]) * 0x1000 + UpperHexValue(s[1]) * 0x100 + UpperHexValue(s[2]) * 0x10 + UpperHexValue(s[3])
  }

  /** Four hexadecimal digits read back to the value they were written from. */
  lemma Hex4RoundTrip(n: nat)
    requires n < 0x1_0000
    ensures IsHex4(Hex4(n)) && Hex4Value(Hex4(n)) == n
  {
    var a := n / 0x10;
    var b := a / 0x10;
    assert n == a * 0x10 + n % 0x10;
    assert a == b * 0x10 + a % 0x10;
    assert b == n / 0x100;
    assert b / 0x10 == n / 0x1000;
    assert b == n / 0x1000 * 0x10 + b % 0x10;
  }

  /** The escape of a code point outside U+0020..U+007F: one or, above U+FFFF, two UTF-16 escapes. */
  function UnicodeEscape(v: nat): (s: string)
    requires v < 0x11_0000
  {
    if v < 0x1_0000 then "\\u" + Hex4(v)
    else "\\u" + Hex4(0xD800 + (v - 0x1_0000) / 0x400) + "\\u" + Hex4(0xDC00 + (v - 0x1_0000) % 0x400)
  }

  /** How escapeJava writes one character. */
  function EscapeChar(c: char): (s: string)
    ensures 1 <= |s| <= 12
  {
    var v := c as int;
    if v == 0x22 then "\\\""
    else if v == 0x5C then "\\\\"
    else if v == 0x08 then "\\b"
    else if v == 0x0A then "\\n"
    else if v == 0x09 then "\\t"
    else if v == 0x0C then "\\f"
    else if v == 0x0D then "\\r"
    else if v < 0x20 || v > 0x7F then UnicodeEscape(v)
    else [c]
  }

  /** StringEscapeUtils.escapeJava: every character escaped in turn. */
  function EscapeJava(s: string): (r: string)
    ensures |r| >= |s|
  {
    if s == [] then [] else EscapeChar(s[0]) + EscapeJava(s[1..])
  }

  /** quoteString: the escaped text between double quotes. */
  function QuoteString(text: string): (s: string)
    ensures |s| >= 2 && s[0] == '"' && s[|s| - 1] == '"'
  {
    "\"" + EscapeJava(text) + "\""
  }

  /** The first character of a Java string literal body and how many characters its escape takes. */
  function UnescapeStep(s: string): (r: (char, nat))
    requires |s| > 0
    ensures 1 <= r.1 <= |s|
  {
    if s[0] != '\\' || |s| < 2 then (s[0], 1)
    else if s[1] == '"' then ('"', 2)
    else if s[1] == '\\' then ('\\', 2)
    else if s[1] == 'b' then (0x08 as char, 2)
    else if s[1] == 'n' then ('\n', 2)
    else if s[1] == 't' then ('\t', 2)
    else if s[1] == 'f' then (0x0C as char, 2)
    else if s[1] == 'r' then ('\r', 2)
    else if s[1] == 'u' && |s| >= 6 && IsHex4(s[2..6]) then
      var h := Hex4Value(s[2..6]);
      if h < 0xD800 || h >= 0xE000 then (h as char, 6)
      else if h < 0xDC00 && |s| >= 12 && s[6] == '\\' && s[7] == 'u' && IsHex4(s[8..12])
        && 0xDC00 <= Hex4Value(s[8..12]) < 0xE000 then
        ((0x1_0000 + (h - 0xD800) * 0x400 + (Hex4Value(s[8..12]) - 0xDC00)) as char, 12)
      else (s[0], 1)
    else (s[0], 1)
  }

  /** Reading a Java string literal body back: the inverse of escapeJava. */
  function Unescape(s: string): (r: string)
    ensures |r| <= |s|
    decreases |s|
  {
    if s == [] then []
    else
      var (c, n) := UnescapeStep(s);
      [c] + Unescape(s[n..])
  }

  /** The escape of one character reads back as that character. */
  lemma StepEscapeChar(c: char, rest: string)
    ensures UnescapeStep(EscapeChar(c) + rest) == (c, |EscapeChar(c)|)
  {
    var v := c as int;
    if v != 0x22 && v != 0x5C && v != 0x08 && v != 0x0A && v != 0x09 && v != 0x0C && v != 0x0D && (v < 0x20 || v > 0x7F) {
      if v < 0x1_0000 {
        StepUnicode(v, rest);
      } else {
        StepSurrogates(v, rest);
      }
    }
  }

  lemma StepUnicode(v: nat, rest: string)
    requires v < 0x1_0000 && !(0xD800 <= v < 0xE000)
    ensures UnescapeStep("\\u" + Hex4(v) + rest) == (v as char, 6)
  {
    var s := "\\u" + Hex4(v) + rest;
    Hex4RoundTrip(v);
    assert s[2..6] == Hex4(v);
  }

  lemma StepSurrogates(v: nat, rest: string)
    requires 0x1_0000 <= v < 0x11_0000
    ensures UnescapeStep(UnicodeEscape(v) + rest) == (v as char, 12)
  {
    var hi := 0xD800 + (v - 0x1_0000) / 0x400;
    var lo := 0xDC00 + (v - 0x1_0000) % 0x400;
    assert 0xD800 <= hi < 0xDC00 && 0xDC00 <= lo < 0xE000;
    assert UnicodeEscape(v) + rest == "\\u" + Hex4(hi) + "\\u" + Hex4(lo) + rest;
    SurrogatesCombine(v);
    StepPair(hi, lo, rest);
  }

  /** A high and a low surrogate escape read back as the one character they combine to. */
  lemma StepPair(hi: nat, lo: nat, rest: string)
    requires 0xD800 <= hi < 0xDC00 && 0xDC00 <= lo < 0xE000
    ensures UnescapeStep("\\u" + Hex4(hi) + "\\u" + Hex4(lo) + rest)
      == ((0x1_0000 + (hi - 0xD800) * 0x400 + (lo - 0xDC00)) as char, 12)
  {
    var s := "\\u" + Hex4(hi) + "\\u" + Hex4(lo) + rest;
    Hex4RoundTrip(hi);
    Hex4RoundTrip(lo);
    assert s[2..6] == Hex4(hi);
    assert s[6] == '\\' && s[7] == 'u';
    assert s[8..12] == Hex4(lo);
  }

  /** The two surrogates of a code point above U+FFFF combine back to it. */
  lemma SurrogatesCombine(v: nat)
    requires 0x1_0000 <= v < 0x11_0000
    ensures 0x1_0000 + (0xD800 + (v - 0x1_0000) / 0x400 - 0xD800) * 0x400 + (0xDC00 + (v - 0x1_0000) % 0x400 - 0xDC00) == v
  {
  }

  /** Every text survives escaping and reading back. */
  lemma {:induction false} UnescapeEscape(s: string)
    ensures Unescape(EscapeJava(s)) == s
  {
    if s != [] {
      var e := EscapeChar(s[0]);
      StepEscapeChar(s[0], EscapeJava(s[1..]));
      assert (e + EscapeJava(s[1..]))[|e|..] == EscapeJava(s[1..]);
      UnescapeEscape(s[1..]);
    }
  }

  /** Printable ASCII, with DEL: U+0020 to U+007F. */
  predicate Printable(s: string)
  {
    forall k :: 0 <= k < |s| ==> 0x20 <= s[k] as int <= 0x7F
  }

  lemma EscapeCharPrintable(c: char)
    ensures Printable(EscapeChar(c))
  {
    var v := c as int;
    if v < 0x20 || v > 0x7F {
      UnicodeEscapePrintable(v);
    }
  }

  lemma UnicodeEscapePrintable(v: nat)
    requires v < 0x11_0000
    ensures Printable(UnicodeEscape(v))
  {
    if v >= 0x1_0000 {
      var hi := Hex4(0xD800 + (v - 0x1_0000) / 0x400);
      var lo := Hex4(0xDC00 + (v - 0x1_0000) % 0x400);
      assert Printable(hi) && Printable(lo);
      PrintableConcat("\\u", hi);
      PrintableConcat("\\u" + hi, "\\u");
      PrintableConcat("\\u" + hi + "\\u", lo);
    } else {
      assert Printable(Hex4(v));
      PrintableConcat("\\u", Hex4(v));
    }
  }

  lemma PrintableConcat(a: string, b: string)
    requires Printable(a) && Printable(b)
    ensures Printable(a + b)
  {
    assert forall k :: |a| <= k < |a + b| ==> (a + b)[k] == b[k - |a|];
  }

  /** An escaped text is printable ASCII: no control character and nothing beyond U+007F survives. */
  lemma {:induction false} EscapedPrintable(s: string)
    ensures Printable(EscapeJava(s))
  {
    if s != [] {
      EscapedPrintable(s[1..]);
      EscapeCharPrintable(s[0]);
      var e := EscapeChar(s[0]);
      var r := e + EscapeJava(s[1..]);
      assert forall k :: |e| <= k < |r| ==> r[k] == EscapeJava(s[1..])[k - |e|];
    }
  }

  /** Printable ASCII other than the quote and the backslash is written unchanged. */
  lemma {:induction false} EscapePlain(s: string)
    requires forall k :: 0 <= k < |s| ==> 0x20 <= s[k] as int <= 0x7F && s[k] != '"' && s[k] != '\\'
    ensures EscapeJava(s) == s
  {
    if s != [] {
      EscapePlain(s[1..]);
    }
  }

  /** The text "ABC" is quoted as "\"ABC\"". */
  lemma QuoteAbc()
    ensures QuoteString("ABC") == "\"ABC\""
  {
    EscapePlain("ABC");
  }
}

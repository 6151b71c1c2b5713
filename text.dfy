/**
 * The pieces of java.lang.String and java.util.Formatter behaviour the
 * disassembler relies on: decimal and lower-case hexadecimal rendering,
 * padding to a field width, joining with a separator and String.trim().
 */
module Text {

  /** The character of a decimal digit. */
  function DigitChar(d: nat): (c: char)
    requires d < 10
    ensures '0' <= c <= '9'
  {
    (48 + d) as char
  }

  predicate IsDigits(s: string)
  {
    forall i :: 0 <= i < |s| ==> '0' <= s[i] <= '9'
  }

  /** The number a string of decimal digits stands for. */
  function DigitsValue(s: string): nat
    requires IsDigits(s)
  {
    if s == [] then 0 else DigitsValue(s[..|s| - 1]) * 10 + (s[|s| - 1] as int - 48)
  }

  /** Long.toString / "%d" for a non-negative value: minimal decimal digits. */
  function NatToString(n: nat): (s: string)
    ensures |s| >= 1 && IsDigits(s)
    ensures n == 0 ==> s == "0"
    ensures n > 0 ==> s[0] != '0'
  {
    if n < 10 then [DigitChar(n)] else NatToString(n / 10) + [DigitChar(n % 10)]
  }

  /** Long.toString / "%d" for any value: a '-' before the digits of a negative one. */
  function IntToString(i: int): (s: string)
    ensures i >= 0 ==> s == NatToString(i)
    ensures i < 0 ==> s == "-" + NatToString(-i)
  {
    if i >= 0 then NatToString(i) else "-" + NatToString(-i)
  }

  /** Decimal rendering and reading are inverse. */
  lemma {:induction false} NatToStringValue(n: nat)
    ensures DigitsValue(NatToString(n)) == n
  {
    if n >= 10 {
      NatToStringValue(n / 10);
      var s := NatToString(n);
      assert s[..|s| - 1] == NatToString(n / 10);
    }
  }

  /** Decimal rendering is injective: different numbers never print alike. */
  lemma NatToStringInjective(m: nat, n: nat)
    requires NatToString(m) == NatToString(n)
    ensures m == n
  {
    NatToStringValue(m);
    NatToStringValue(n);
  }

  /** The character of a hexadecimal digit, lower case as Java's %x and Long.toHexString give. */
  function HexChar(d: nat): (c: char)
    requires d < 16
    ensures d < 10 ==> c == DigitChar(d)
    ensures d >= 10 ==> 'a' <= c <= 'f'
  {
    if d < 10 then DigitChar(d) else (87 + d) as char
  }

  predicate IsHexDigit(c: char)
  {
    '0' <= c <= '9' || 'a' <= c <= 'f'
  }

  predicate IsHex(s: string)
  {
    forall i :: 0 <= i < |s| ==> IsHexDigit(s[i])
  }

  function HexDigitValue(c: char): nat
    requires IsHexDigit(c)
  {
    if c <= '9' then c as int - 48 else c as int - 87
  }

  /** The number a string of lower-case hexadecimal digits stands for. */
  function HexValue(s: string): nat
    requires IsHex(s)
  {
    if s == [] then 0 else HexValue(s[..|s| - 1]) * 16 + HexDigitValue(s[|s| - 1])
  }

  /** Long.toUnsignedString(n, 16) for a non-negative n: minimal lower-case hexadecimal digits. */
  function HexString(n: nat): (s: string)
    ensures |s| >= 1 && IsHex(s)
    ensures n == 0 ==> s == "0"
    ensures n > 0 ==> s[0] != '0'
  {
    if n < 16 then [HexChar(n)] else HexString(n / 16) + [HexChar(n % 16)]
  }

  /** Hexadecimal rendering and reading are inverse. */
  lemma {:induction false} HexStringValue(n: nat)
    ensures HexValue(HexString(n)) == n
  {
    if n >= 16 {
      HexStringValue(n / 16);
      var s := HexString(n);
      assert s[..|s| - 1] == HexString(n / 16);
    }
  }

  /** Every hexadecimal digit string reads back to a value needing no more digits than it has. */
  lemma {:induction false} HexValueBound(s: string)
    requires IsHex(s)
    ensures HexValue(s) < Pow16(|s|)
  {
    if s != [] {
      HexValueBound(s[..|s| - 1]);
    }
  }

  function Pow16(k: nat): (p: nat)
    ensures p >= 1
  {
    if k == 0 then 1 else 16 * Pow16(k - 1)
  }

  /** A value below 16^8 needs at most eight hexadecimal digits. */
  lemma {:induction false} HexStringLength(n: nat, k: nat)
    requires n < Pow16(k)
    ensures |HexString(n)| <= if k == 0 then 1 else k
  {
    if n >= 16 {
      assert Pow16(0) == 1 && Pow16(1) == 16;
      HexStringLength(n / 16, k - 1);
    }
  }

  /** A value of at least 16^k needs more than k hexadecimal digits. */
  lemma {:induction false} HexStringLong(n: nat, k: nat)
    requires n >= Pow16(k)
    ensures |HexString(n)| > k
  {
    if k > 0 {
      assert n / 16 >= Pow16(k - 1);
      HexStringLong(n / 16, k - 1);
    }
  }

  /** "%<width>s": the text right-aligned in a field of spaces; a longer text is never cut. */
  function PadLeft(s: string, width: nat, fill: char): (r: string)
    ensures |r| == if |s| >= width then |s| else width
    ensures r[|r| - |s|..] == s
    ensures forall i :: 0 <= i < |r| - |s| ==> r[i] == fill
  {
    if |s| >= width then s else seq(width - |s|, _ => fill) + s
  }

  /** "%-<width>s": the text left-aligned in a field of spaces. */
  function PadRight(s: string, width: nat, fill: char): (r: string)
    ensures |r| == if |s| >= width then |s| else width
    ensures r[..|s|] == s
    ensures forall i :: |s| <= i < |r| ==> r[i] == fill
  {
    if |s| >= width then s else s + seq(width - |s|, _ => fill)
  }

  /** "%08x" of a word: eight lower-case hexadecimal digits, zero-filled. */
  function Hex8(n: nat): (s: string)
    requires n < 0x1_0000_0000
    ensures |s| == 8 && IsHex(s)
    ensures HexValue(s) == n
  {
    assert Pow16(8) == 0x1_0000_0000;
    HexStringLength(n, 8);
    HexStringValue(n);
    var s := PadLeft(HexString(n), 8, '0');
    ZeroFilledValue(HexString(n), 8 - |HexString(n)|);
    s
  }

  /** Leading zeros do not change the value of a hexadecimal string. */
  lemma {:induction false} ZeroFilledValue(s: string, k: nat)
    requires IsHex(s)
    ensures IsHex(seq(k, _ => '0') + s)
    ensures HexValue(seq(k, _ => '0') + s) == HexValue(s)
  {
    var z := seq(k, _ => '0');
    if s != [] {
      ZeroFilledValue(s[..|s| - 1], k);
      assert (z + s)[..|z + s| - 1] == z + s[..|s| - 1];
    } else {
      assert z + s == z;
      ZerosValue(k);
    }
  }

  lemma {:induction false} ZerosValue(k: nat)
    ensures IsHex(seq(k, _ => '0'))
    ensures HexValue(seq(k, _ => '0')) == 0
  {
    if k > 0 {
      ZerosValue(k - 1);
      var z := seq(k, _ => '0');
      assert z[..k - 1] == seq(k - 1, _ => '0');
    }
  }

  /** String.join(sep, tokens). */
  function Join(tokens: seq<string>, sep: string): (r: string)
    ensures tokens == [] ==> r == ""
    ensures |tokens| == 1 ==> r == tokens[0]
  {
    if |tokens| == 0 then ""
    else if |tokens| == 1 then tokens[0]
    else tokens[0] + sep + Join(tokens[1..], sep)
  }

  /** The joined text is empty exactly when every token is, given a non-empty separator. */
  lemma {:induction false} JoinEmpty(tokens: seq<string>, sep: string)
    requires sep != ""
    ensures Join(tokens, sep) == "" <==> (tokens == [] || (|tokens| == 1 && tokens[0] == ""))
  {
    if |tokens| >= 2 {
      assert |Join(tokens, sep)| >= |sep|;
    }
  }

  /** The joined text has every token and a separator between each neighbouring pair. */
  lemma {:induction false} JoinLength(tokens: seq<string>, sep: string)
    ensures |Join(tokens, sep)| == TotalLength(tokens) + (if tokens == [] then 0 else (|tokens| - 1) * |sep|)
  {
    if |tokens| >= 2 {
      JoinLength(tokens[1..], sep);
    }
  }

  function TotalLength(tokens: seq<string>): nat
  {
    if tokens == [] then 0 else |tokens[0]| + TotalLength(tokens[1..])
  }

  /** The characters String.trim() removes: U+0000 up to and including the space. */
  predicate IsTrimmed(c: char)
  {
    c <= ' '
  }

  /** The text with its leading characters at or below U+0020 removed. */
  function TrimStart(s: string): (r: string)
    ensures |r| <= |s| && r == s[|s| - |r|..]
    ensures forall k :: 0 <= k < |s| - |r| ==> IsTrimmed(s[k])
    ensures r == "" || !IsTrimmed(r[0])
  {
    if |s| > 0 && IsTrimmed(s[0]) then TrimStart(s[1..]) else s
  }

  /** The text with its trailing characters at or below U+0020 removed. */
  function TrimEnd(s: string): (r: string)
    ensures |r| <= |s| && r == s[..|r|]
    ensures forall k :: |r| <= k < |s| ==> IsTrimmed(s[k])
    ensures r == "" || !IsTrimmed(r[|r| - 1])
  {
    if |s| > 0 && IsTrimmed(s[|s| - 1]) then TrimEnd(s[..|s| - 1]) else s
  }

  /** String.trim(): the longest infix with no removable character at either end. */
  function Trim(s: string): (r: string)
    ensures |r| <= |s|
    ensures r == "" || (!IsTrimmed(r[0]) && !IsTrimmed(r[|r| - 1]))
    ensures |r| <= |TrimStart(s)| && r == TrimStart(s)[..|r|]
    ensures (forall k :: 0 <= k < |s| ==> IsTrimmed(s[k])) <==> r == ""
  {
    var t := TrimStart(s);
    var r := TrimEnd(t);
    assert r == "" ==> t == "" by {
      if r == "" {
        assert |t| == 0 || IsTrimmed(t[0]);
      }
    }
    r
  }

  /** Trimming a text already free of removable ends leaves it unchanged, so trimming is idempotent. */
  lemma TrimIdempotent(s: string)
    ensures Trim(Trim(s)) == Trim(s)
  {
    var r := Trim(s);
    if r != "" {
      assert TrimStart(r) == r;
      assert TrimEnd(r) == r;
    }
  }
}

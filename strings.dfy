/**
 * SMStrings: decoding a SPIR-V literal string (section 2.2.1 of the SPIR-V
 * specification, "Literal String") from the operand words of an
 * instruction. Each word holds four octets, lowest-order octet first; the
 * octets up to the first zero octet are the string's UTF-8 encoding.
 */
module Strings {
  import opened Base
  import opened Text
  import opened Failures
  import Utf8

  /** SMString: a decoded string and the number of words the decoder reports as used. */
  datatype SMString = SMString(usedWords: nat, text: string)

  /** The octets of a word as a little-endian ByteBuffer holds them, lowest-order first. */
  function LowFirstOctets(w: Word): (b: seq<Byte>)
    ensures |b| == 4
  {
    [Octet(w, 0), Octet(w, 1), Octet(w, 2), Octet(w, 3)]
  }

  /** Octet k of a number, counting from the lowest-order one. */
  function Octet(n: nat, k: nat): Byte
  {
    if k == 0 then n % 0x100 else Octet(n / 0x100, k - 1)
  }

  /** The octets are the word's base-256 digits, lowest-order first. */
  lemma LowFirstOctetsValue(w: Word)
    ensures var b := LowFirstOctets(w);
      b[0] as int + 0x100 * b[1] as int + 0x1_0000 * b[2] as int + 0x100_0000 * b[3] as int == w
  {
    var q1 := w / 0x100;
    var q2 := q1 / 0x100;
    var q3 := q2 / 0x100;
    assert Octet(w, 1) == Octet(q1, 0) == q1 % 0x100;
    assert Octet(w, 2) == Octet(q1, 1) == Octet(q2, 0) == q2 % 0x100;
    assert Octet(w, 3) == Octet(q1, 2) == Octet(q2, 1) == Octet(q3, 0) == q3 % 0x100;
    assert q3 < 0x100;
  }

  /** A word holding a zero octet, where a literal string ends. */
  predicate HasZero(w: Word)
  {
    0 in LowFirstOctets(w)
  }

  /** Every octet of a run of words, word by word. */
  function AllOctets(words: seq<Word>): (b: seq<Byte>)
    ensures |b| == 4 * |words|
  {
    if words == [] then [] else LowFirstOctets(words[0]) + AllOctets(words[1..])
  }

  /** The octets before the first zero octet (all of them when there is none). */
  function TakeUntilZero(b: seq<Byte>): (r: seq<Byte>)
    ensures 0 !in r
  {
    if b == [] || b[0] == 0 then [] else [b[0]] + TakeUntilZero(b[1..])
  }

  /** TakeUntilZero keeps a prefix, and stops only at a zero octet or at the end. */
  lemma {:induction false} TakeUntilZeroPrefix(b: seq<Byte>)
    ensures var r := TakeUntilZero(b);
      && |r| <= |b| && r == b[..|r|]
      && (|r| < |b| ==> b[|r|] == 0)
      && (0 in b ==> |r| < |b|)
  {
    if b != [] && b[0] != 0 {
      TakeUntilZeroPrefix(b[1..]);
      assert forall x :: x in b[1..] ==> x in b;
      if 0 in b {
        assert 0 in b[1..];
      }
    }
  }

  /** The number of leading words that hold no zero octet. */
  function LeadingFull(words: seq<Word>): (n: nat)
    ensures n <= |words|
  {
    if words == [] || HasZero(words[0]) then 0 else 1 + LeadingFull(words[1..])
  }

  /** LeadingFull counts exactly the words before the first one holding a zero octet. */
  lemma {:induction false} LeadingFullMeaning(words: seq<Word>)
    ensures var n := LeadingFull(words);
      && (forall k :: 0 <= k < n ==> !HasZero(words[k]))
      && (n < |words| ==> HasZero(words[n]))
  {
    if words != [] && !HasZero(words[0]) {
      LeadingFullMeaning(words[1..]);
      assert forall k :: 1 <= k < |words| ==> words[1..][k - 1] == words[k];
    }
  }

  /** The octets of the literal string held by a run of words: word by word up to the first zero octet. */
  function StringOctets(words: seq<Word>): (b: seq<Byte>)
    ensures 0 !in b
  {
    if words == [] then []
    else if HasZero(words[0]) then TakeUntilZero(LowFirstOctets(words[0]))
    else LowFirstOctets(words[0]) + StringOctets(words[1..])
  }

  /** wordsUsed: one more than the number of words consumed without meeting a zero octet. */
  function UsedWords(words: seq<Word>): (n: nat)
    ensures 1 <= n <= |words| + 1
  {
    1 + LeadingFull(words)
  }

  /** makeString: the UTF-8 decoding of the octets with leading and trailing characters up to U+0020 removed. */
  function MakeString(octets: seq<Byte>): string
  {
    Trim(Utf8.Decode(octets))
  }

  /**
   * consumeUTF8String: the string held by the operands from `index` on; a
   * start past the end is subList's IllegalArgumentException.
   */
  function ConsumeUtf8(operands: seq<Word>, index: nat): (r: Result<SMString, Failure>)
    ensures r.Err? <==> index > |operands|
    ensures r.Err? ==> r.error == SliceStartPastEnd(index, |operands|)
    ensures r.Ok? ==> 1 <= r.value.usedWords <= |operands| - index + 1
  {
    if index > |operands| then Err(SliceStartPastEnd(index, |operands|))
    else
      var words := operands[index..];
      Ok(SMString(UsedWords(words), MakeString(StringOctets(words))))
  }

  /** consumeUTF8String: copy octets word by word, stopping at the first zero octet. */
  method ConsumeUtf8String(operands: seq<Word>, index: nat) returns (r: Result<SMString, Failure>)
    ensures r == ConsumeUtf8(operands, index)
  {
    if index > |operands| {
      return Err(SliceStartPastEnd(index, |operands|));
    }
    var words := operands[index..];
    var output: seq<Byte> := [];
    var wordsUsed := 1;
    ghost var halted := false;
    for i := 0 to |words|
      invariant output + StringOctets(words[i..]) == StringOctets(words)
      invariant wordsUsed + LeadingFull(words[i..]) == UsedWords(words)
    {
      var complete;
      ghost var before := output;
      output, complete := CopyOctets(output, words[i]);
      if !complete {
        Halt(words, i, before, output, wordsUsed);
        halted := true;
        break;
      }
      Advance(words, i, before, output, wordsUsed);
      wordsUsed := wordsUsed + 1;
    }
    if !halted {
      Finish(words, output, wordsUsed);
    }
    r := Ok(SMString(wordsUsed, MakeString(output)));
  }

  /** When every word was consumed whole, what was copied is the whole string. */
  lemma Finish(words: seq<Word>, output: seq<Byte>, wordsUsed: nat)
    requires output + StringOctets(words[|words|..]) == StringOctets(words)
    requires wordsUsed + LeadingFull(words[|words|..]) == UsedWords(words)
    ensures output == StringOctets(words) && wordsUsed == UsedWords(words)
  {
    assert words[|words|..] == [];
    assert output + [] == output;
  }

  /** A word without a zero octet is consumed whole and the string goes on after it. */
  lemma Advance(words: seq<Word>, i: nat, before: seq<Byte>, output: seq<Byte>, wordsUsed: nat)
    requires i < |words| && !HasZero(words[i])
    requires before + StringOctets(words[i..]) == StringOctets(words)
    requires wordsUsed + LeadingFull(words[i..]) == UsedWords(words)
    requires output == before + LowFirstOctets(words[i])
    ensures output + StringOctets(words[i + 1..]) == StringOctets(words)
    ensures wordsUsed + 1 + LeadingFull(words[i + 1..]) == UsedWords(words)
  {
    SuffixStep(words, i);
    Regroup(before, LowFirstOctets(words[i]), StringOctets(words[i + 1..]), StringOctets(words[i..]), StringOctets(words), output);
  }

  /** Moving the next piece of a sequence from its rest onto what was already taken. */
  lemma Regroup<T>(before: seq<T>, b: seq<T>, rest: seq<T>, suffix: seq<T>, total: seq<T>, output: seq<T>)
    requires before + suffix == total && suffix == b + rest && output == before + b
    ensures output + rest == total
  {
    assert (before + b) + rest == before + (b + rest);
  }

  /** The string from word i on: word i whole, then the string from word i + 1 on. */
  lemma SuffixStep(words: seq<Word>, i: nat)
    requires i < |words| && !HasZero(words[i])
    ensures StringOctets(words[i..]) == LowFirstOctets(words[i]) + StringOctets(words[i + 1..])
    ensures LeadingFull(words[i..]) == 1 + LeadingFull(words[i + 1..])
  {
    assert words[i..][0] == words[i] && words[i..][1..] == words[i + 1..];
  }

  /** A word with a zero octet ends the string: what was copied is all of it. */
  lemma Halt(words: seq<Word>, i: nat, before: seq<Byte>, output: seq<Byte>, wordsUsed: nat)
    requires i < |words| && HasZero(words[i])
    requires before + StringOctets(words[i..]) == StringOctets(words)
    requires wordsUsed + LeadingFull(words[i..]) == UsedWords(words)
    requires output == before + TakeUntilZero(LowFirstOctets(words[i]))
    ensures output == StringOctets(words) && wordsUsed == UsedWords(words)
  {
    SuffixStop(words, i);
  }

  /** The string from a word holding a zero octet on is that word's octets up to the zero. */
  lemma SuffixStop(words: seq<Word>, i: nat)
    requires i < |words| && HasZero(words[i])
    ensures StringOctets(words[i..]) == TakeUntilZero(LowFirstOctets(words[i]))
    ensures LeadingFull(words[i..]) == 0
  {
    assert words[i..][0] == words[i];
  }

  /**
   * The body of consumeUTF8String's loop: write the octets of one word, lowest
   * first, until a zero octet; `complete` tells whether all four were written.
   */
  method CopyOctets(output: seq<Byte>, word: Word) returns (written: seq<Byte>, complete: bool)
    ensures complete <==> !HasZero(word)
    ensures written == output + (if complete then LowFirstOctets(word) else TakeUntilZero(LowFirstOctets(word)))
  {
    var b := LowFirstOctets(word);
    written := output;
    complete := false;
    if b[0] == 0 {
      TakeFirstZero(b, 0);
      return;
    }
    written := written + [b[0]];
    if b[1] == 0 {
      TakeFirstZero(b, 1);
      return;
    }
    written := written + [b[1]];
    if b[2] == 0 {
      TakeFirstZero(b, 2);
      return;
    }
    written := written + [b[2]];
    if b[3] == 0 {
      TakeFirstZero(b, 3);
      return;
    }
    written := written + [b[3]];
    complete := true;
  }

  /** The first zero at position j cuts the octets there. */
  lemma TakeFirstZero(b: seq<Byte>, j: nat)
    requires j < |b| && b[j] == 0 && forall k :: 0 <= k < j ==> b[k] != 0
    ensures TakeUntilZero(b) == b[..j]
  {
    assert b[..j] + b[j..] == b;
    NoZeroTake(b[..j], b[j..]);
  }

  /** Octets without a zero pass through TakeUntilZero unchanged. */
  lemma {:induction false} NoZeroTake(x: seq<Byte>, y: seq<Byte>)
    requires 0 !in x
    ensures TakeUntilZero(x + y) == x + TakeUntilZero(y)
  {
    if x != [] {
      assert (x + y)[1..] == x[1..] + y;
      assert x[0] in x;
      NoZeroTake(x[1..], y);
      assert [x[0]] + x[1..] == x;
    } else {
      assert x + y == y;
    }
  }

  /** The octets after a zero make no difference to TakeUntilZero. */
  lemma ZeroTake(x: seq<Byte>, y: seq<Byte>)
    requires 0 in x
    ensures TakeUntilZero(x + y) == TakeUntilZero(x)
  {
    var t := TakeUntilZero(x);
    TakeUntilZeroPrefix(x);
    assert x == t + x[|t|..];
    assert x + y == t + (x[|t|..] + y);
    NoZeroTake(t, x[|t|..] + y);
    NoZeroTake(t, x[|t|..]);
  }

  /** The word-by-word definition is the octet stream cut at its first zero octet. */
  lemma {:induction false} StringOctetsOfAll(words: seq<Word>)
    ensures StringOctets(words) == TakeUntilZero(AllOctets(words))
  {
    if words != [] {
      var b := LowFirstOctets(words[0]);
      if HasZero(words[0]) {
        ZeroTake(b, AllOctets(words[1..]));
      } else {
        StringOctetsOfAll(words[1..]);
        NoZeroTake(b, AllOctets(words[1..]));
      }
    }
  }

  /** The words before the first one holding a zero octet are consumed whole, that one only up to its zero. */
  lemma {:induction false} StringOctetsLength(words: seq<Word>)
    ensures var n := LeadingFull(words);
      && 4 * n <= |StringOctets(words)|
      && (n < |words| ==> |StringOctets(words)| <= 4 * n + 3)
      && (n == |words| ==> |StringOctets(words)| == 4 * n)
  {
    if words != [] {
      if HasZero(words[0]) {
        var b := LowFirstOctets(words[0]);
        TakeUntilZeroPrefix(b);
      } else {
        StringOctetsLength(words[1..]);
      }
    }
  }

  /** Nothing at or after the first zero octet contributes, and the used-word count ignores it too. */
  lemma {:induction false} StopsAtZero(x: seq<Word>, y: seq<Word>)
    requires 0 in AllOctets(x)
    ensures StringOctets(x + y) == StringOctets(x)
    ensures UsedWords(x + y) == UsedWords(x)
  {
    assert (x + y)[0] == x[0];
    if !HasZero(x[0]) {
      assert AllOctets(x) == LowFirstOctets(x[0]) + AllOctets(x[1..]);
      assert (x + y)[1..] == x[1..] + y;
      StopsAtZero(x[1..], y);
    }
  }

  /** With no zero octet, every octet of every word is used and usedWords is one past the word count. */
  lemma {:induction false} NoZeroUsesAll(words: seq<Word>)
    requires 0 !in AllOctets(words)
    ensures StringOctets(words) == AllOctets(words)
    ensures UsedWords(words) == |words| + 1
  {
    if words != [] {
      var b := LowFirstOctets(words[0]);
      assert AllOctets(words) == b + AllOctets(words[1..]);
      assert !HasZero(words[0]);
      NoZeroUsesAll(words[1..]);
    }
  }

  /** Decoding starts at operands[index]: the words before it do not matter. */
  lemma ConsumeIgnoresEarlier(prefix: seq<Word>, operands: seq<Word>, index: nat)
    ensures ConsumeUtf8(prefix + operands, |prefix| + index) ==
      match ConsumeUtf8(operands, index)
      case Ok(s) => Ok(s)
      case Err(_) => Err(SliceStartPastEnd(|prefix| + index, |prefix| + |operands|))
  {
    if index <= |operands| {
      assert (prefix + operands)[|prefix| + index..] == operands[index..];
    }
  }

  /** The octets of a string never include a zero, so neither does its text a NUL. */
  lemma NoNul(operands: seq<Word>, index: nat)
    requires index <= |operands|
    ensures 0 as char !in ConsumeUtf8(operands, index).value.text
  {
    var octets := StringOctets(operands[index..]);
    var d := Utf8.Decode(octets);
    Utf8.DecodeNoNul(octets);
    var t := Trim(d);
    var s := TrimStart(d);
    assert t == s[..|t|] && s == d[|d| - |s|..];
    assert forall k :: 0 <= k < |t| ==> t[k] == d[|d| - |s| + k];
  }

  /** An empty slice gives the empty text and one used word. */
  lemma EmptySlice(operands: seq<Word>)
    ensures ConsumeUtf8(operands, |operands|) == Ok(SMString(1, ""))
  {
    var w := operands[|operands|..];
    assert w == [];
    assert UsedWords(w) == 1;
    assert MakeString(StringOctets(w)) == "";
  }

  /** The octets 'A', 'B', 'C' make the text "ABC". */
  lemma MakeStringAbc()
    ensures MakeString([0x41, 0x42, 0x43]) == "ABC"
  {
    Utf8.DecodeAscii([0x41, 0x42, 0x43]);
    var d := Utf8.Decode([0x41, 0x42, 0x43]);
    assert d == "ABC";
    assert TrimStart(d) == d;
    assert TrimEnd(d) == d;
  }

  /** The word 0x434241 holds "ABC" followed by a zero octet. */
  lemma ConsumeAbc()
    ensures ConsumeUtf8([0x434241], 0) == Ok(SMString(1, "ABC"))
  {
    var words: seq<Word> := [0x434241];
    assert words[0..] == words;
    var b := LowFirstOctets(0x434241);
    assert b == [0x41, 0x42, 0x43, 0];
    TakeFirstZero(b, 3);
    assert StringOctets(words) == [0x41, 0x42, 0x43];
    assert UsedWords(words) == 1;
    MakeStringAbc();
  }
}

/**
 * What the parser's functions guarantee about whole streams: how many
 * octets the instructions take, that encoding instructions and parsing
 * them back is the identity, that swapping the octets of every word
 * swaps the byte order and nothing else, and the behaviour on the shapes
 * of stream the parser's own tests use.
 */
module ParserProperties {
  import opened Base
  import opened ParserApi
  import opened Parser

  /** One instruction parsed at `offset` is the first of all the instructions parsed from there. */
  lemma ParseAllStep(data: seq<Byte>, offset: nat, bigEndian: bool, i: ParsedInstruction, next: nat)
    requires ParseNext(data, offset, bigEndian) == Ok(Decoded(i, next))
    ensures ParseAll(data, offset, bigEndian) == Prepend([i], ParseAll(data, next, bigEndian))
  {
  }

  /** The octets one parsed instruction took: its header word and its operands. */
  function InstructionBytes(i: ParsedInstruction): nat
  {
    4 + 4 * |i.operands|
  }

  function TotalBytes(instructions: seq<ParsedInstruction>): nat
  {
    if instructions == [] then 0 else InstructionBytes(instructions[0]) + TotalBytes(instructions[1..])
  }

  /** A parsed instruction as the parser produces it: 16-bit fields, one operand per word after the header, no offset. */
  predicate WellFormed(i: ParsedInstruction)
  {
    && i.opCode < 0x1_0000
    && i.wordCount < 0x1_0000
    && |i.operands| == OperandCount(i.wordCount)
    && i.byteOffset == 0
  }

  /**
   * Parsing succeeds only by consuming whole instructions up to the last
   * complete word: fewer than four octets are left over, and every
   * instruction is well formed.
   */
  lemma {:induction false} ParseAllConsumes(data: seq<Byte>, offset: nat, bigEndian: bool)
    requires offset <= |data|
    requires ParseAll(data, offset, bigEndian).Ok?
    ensures var instructions := ParseAll(data, offset, bigEndian).value;
      && offset + TotalBytes(instructions) <= |data| < offset + TotalBytes(instructions) + 4
      && forall k :: 0 <= k < |instructions| ==> WellFormed(instructions[k])
    decreases |data| - offset
  {
    match ParseNext(data, offset, bigEndian)
    case Ok(End) =>
    case Ok(Decoded(instruction, next)) =>
      ParseAllConsumes(data, next, bigEndian);
      var rest := ParseAll(data, next, bigEndian).value;
      assert ParseAll(data, offset, bigEndian).value == [instruction] + rest;
      assert ([instruction] + rest)[1..] == rest;
  }

  /** A failed parse is always a truncated instruction, at an offset past the header word it began with. */
  lemma {:induction false} ParseAllFailure(data: seq<Byte>, offset: nat, bigEndian: bool)
    requires ParseAll(data, offset, bigEndian).Err?
    ensures var e := ParseAll(data, offset, bigEndian).error;
      e.InstructionEndOfStream? && offset + 4 <= e.offset <= |data|
    decreases |data| - offset
  {
    match ParseNext(data, offset, bigEndian)
    case Err(e) =>
    case Ok(Decoded(instruction, next)) =>
      ParseAllFailure(data, next, bigEndian);
  }

  /** The header word of an instruction: word count in the high half, opcode in the low half. */
  function HeaderWordOf(i: ParsedInstruction): Word
    requires WellFormed(i)
  {
    i.wordCount * 0x1_0000 + i.opCode
  }

  /** The words of one instruction: its header word and then its operands. */
  function InstructionWords(i: ParsedInstruction): seq<Word>
    requires WellFormed(i)
  {
    [HeaderWordOf(i)] + i.operands
  }

  /** The words of a sequence of instructions, one after the other. */
  function Flatten(instructions: seq<ParsedInstruction>): seq<Word>
    requires forall k :: 0 <= k < |instructions| ==> WellFormed(instructions[k])
  {
    if instructions == [] then [] else InstructionWords(instructions[0]) + Flatten(instructions[1..])
  }

  /** Reading a + b words is reading a words and then b more. */
  lemma {:induction false} WordsAtSplit(data: seq<Byte>, offset: nat, a: nat, b: nat, bigEndian: bool)
    requires offset + 4 * (a + b) <= |data|
    ensures WordsAt(data, offset, a + b, bigEndian) == WordsAt(data, offset, a, bigEndian) + WordsAt(data, offset + 4 * a, b, bigEndian)
  {
    if b > 0 {
      WordsAtSplit(data, offset, a, b - 1, bigEndian);
      assert offset + 4 * (a + b - 1) == offset + 4 * a + 4 * (b - 1);
    }
  }

  /** Two sequences of equal shape are equal when their concatenations are. */
  lemma SplitEqual(x: seq<Word>, y: seq<Word>, u: seq<Word>, v: seq<Word>)
    requires x + y == u + v && |x| == |u|
    ensures x == u && y == v
  {
    assert x == (x + y)[..|x|] && u == (u + v)[..|u|];
    assert y == (x + y)[|x|..] && v == (u + v)[|u|..];
  }

  /** Where the words at `offset` are an instruction's words, that instruction is parsed there. */
  lemma ParseNextOfWords(data: seq<Byte>, offset: nat, bigEndian: bool, i: ParsedInstruction)
    requires WellFormed(i)
    requires offset + 4 * |InstructionWords(i)| <= |data|
    requires WordsAt(data, offset, |InstructionWords(i)|, bigEndian) == InstructionWords(i)
    ensures ParseNext(data, offset, bigEndian) == Ok(Decoded(i, offset + 4 * |InstructionWords(i)|))
  {
    var h := HeaderWordOf(i);
    WordsAtSplit(data, offset, 1, |i.operands|, bigEndian);
    SplitEqual([h], i.operands, WordsAt(data, offset, 1, bigEndian), WordsAt(data, offset + 4, |i.operands|, bigEndian));
    assert WordsAt(data, offset, 1, bigEndian) == [WordAt(data, offset, bigEndian)];
    HeaderWord(h, i.wordCount, i.opCode);
    var w := WordAt(data, offset, bigEndian);
    assert WordCountOf(w) == i.wordCount && OpCodeOf(w) == i.opCode;
    assert WordsAt(data, offset + 4, |i.operands|, bigEndian) == i.operands;
    assert ParsedInstruction(OpCodeOf(w), WordCountOf(w), i.operands, 0) == i;
  }

  /** Where the words from `offset` to the last whole word are the instructions' words, exactly those instructions are parsed. */
  lemma {:induction false} ParseAllOfWords(data: seq<Byte>, offset: nat, bigEndian: bool, instructions: seq<ParsedInstruction>)
    requires forall k :: 0 <= k < |instructions| ==> WellFormed(instructions[k])
    requires offset + 4 * |Flatten(instructions)| <= |data| < offset + 4 * |Flatten(instructions)| + 4
    requires WordsAt(data, offset, |Flatten(instructions)|, bigEndian) == Flatten(instructions)
    ensures ParseAll(data, offset, bigEndian) == Ok(instructions)
    decreases |instructions|
  {
    if instructions != [] {
      var i := instructions[0];
      var n := |InstructionWords(i)|;
      var rest := instructions[1..];
      var next := offset + 4 * n;
      var words := Flatten(rest);
      assert Flatten(instructions) == InstructionWords(i) + words;
      assert next + 4 * |words| == offset + 4 * |Flatten(instructions)|;
      WordsAtSplit(data, offset, n, |words|, bigEndian);
      SplitEqual(InstructionWords(i), words, WordsAt(data, offset, n, bigEndian), WordsAt(data, next, |words|, bigEndian));
      ParseNextOfWords(data, offset, bigEndian, i);
      ParseAllStep(data, offset, bigEndian, i, next);
      ParseAllOfWords(data, next, bigEndian, rest);
      assert [i] + rest == instructions;
    }
  }

  /** The octets of a sequence of instructions. */
  function InstructionsOctets(instructions: seq<ParsedInstruction>, bigEndian: bool): seq<Byte>
    requires forall k :: 0 <= k < |instructions| ==> WellFormed(instructions[k])
  {
    Encode(Flatten(instructions), bigEndian)
  }

  /**
   * Encoding well-formed instructions and parsing them back gives them back,
   * whatever fewer-than-four octets follow the last one.
   */
  lemma ParseAllOfOctets(instructions: seq<ParsedInstruction>, bigEndian: bool, before: seq<Byte>, tail: seq<Byte>)
    requires forall k :: 0 <= k < |instructions| ==> WellFormed(instructions[k])
    requires |tail| < 4
    ensures ParseAll(before + InstructionsOctets(instructions, bigEndian) + tail, |before|, bigEndian) == Ok(instructions)
  {
    var words := Flatten(instructions);
    EncodeRoundTrip(words, bigEndian, before, tail);
    ParseAllOfWords(before + Encode(words, bigEndian) + tail, |before|, bigEndian, instructions);
  }

  /** The magic number of a byte order. */
  function Magic(bigEndian: bool): seq<Byte>
  {
    if bigEndian then MAGIC_BIG else MAGIC_LITTLE
  }

  /** The header words in stream order. */
  function HeaderWords(h: Header): seq<Word>
  {
    [h.rawVersionNumber, h.generatorMagicNumber, h.idBound, h.schema]
  }

  /** The octets of a whole module: magic number, the four header words, the instructions. */
  function ModuleOctets(m: Module): seq<Byte>
    requires forall k :: 0 <= k < |m.instructions| ==> WellFormed(m.instructions[k])
  {
    Magic(m.bigEndian) + Encode(HeaderWords(m.header), m.bigEndian) + InstructionsOctets(m.instructions, m.bigEndian)
  }

  /** Parsing the octets of a module gives the module back. */
  lemma ParseModuleOfOctets(m: Module, tail: seq<Byte>)
    requires forall k :: 0 <= k < |m.instructions| ==> WellFormed(m.instructions[k])
    requires |tail| < 4
    ensures ParseModule(ModuleOctets(m) + tail) == Ok(m)
  {
    var magic := Magic(m.bigEndian);
    var head := Encode(HeaderWords(m.header), m.bigEndian);
    var body := InstructionsOctets(m.instructions, m.bigEndian);
    var d := ModuleOctets(m) + tail;
    assert d == magic + head + (body + tail);
    PreludeOfOctets(m.bigEndian, m.header, body + tail);
    assert d == (magic + head) + body + tail;
    assert |magic + head| == 20;
    ParseAllOfOctets(m.instructions, m.bigEndian, magic + head, tail);
  }

  /** The magic number and the header words read back as the byte order and the header. */
  lemma PreludeOfOctets(bigEndian: bool, h: Header, rest: seq<Byte>)
    ensures ParsePrelude(Magic(bigEndian) + Encode(HeaderWords(h), bigEndian) + rest, 0) == Ok(Prelude(bigEndian, h, 20))
  {
    var magic := Magic(bigEndian);
    var d := magic + Encode(HeaderWords(h), bigEndian) + rest;
    assert d[0..4] == magic;
    HeaderWordsOfOctets(HeaderWords(h), bigEndian, magic, rest);
  }

  lemma HeaderWordsOfOctets(words: seq<Word>, bigEndian: bool, before: seq<Byte>, rest: seq<Byte>)
    requires |words| == 4
    ensures var d := before + Encode(words, bigEndian) + rest;
      && |before| + 16 <= |d|
      && WordAt(d, |before|, bigEndian) == words[0] && WordAt(d, |before| + 4, bigEndian) == words[1]
      && WordAt(d, |before| + 8, bigEndian) == words[2] && WordAt(d, |before| + 12, bigEndian) == words[3]
  {
    EncodedWordAt(words, bigEndian, before, rest, 0);
    EncodedWordAt(words, bigEndian, before, rest, 1);
    EncodedWordAt(words, bigEndian, before, rest, 2);
    EncodedWordAt(words, bigEndian, before, rest, 3);
  }

  /**
   * The test suite's byte order converter: it reads the stream four octets at
   * a time into one buffer and writes the buffer's octets in reverse order. A
   * last read of one to three octets overwrites only the front of the buffer,
   * so the last word written is padded with octets left from the read before
   * it, or with zeros when there was none.
   */
  function WordReverse(d: seq<Byte>): (r: seq<Byte>)
    ensures |r| % 4 == 0 && |d| <= |r| < |d| + 4
    ensures |d| % 4 == 0 ==> |r| == |d|
  {
    WordReverseFrom(d, [0, 0, 0, 0])
  }

  /** WordReverse with the buffer as the previous read left it. */
  function WordReverseFrom(d: seq<Byte>, buffer: seq<Byte>): (r: seq<Byte>)
    requires |buffer| == 4
    ensures |r| % 4 == 0 && |d| <= |r| < |d| + 4
    ensures |d| % 4 == 0 ==> |r| == |d|
  {
    if d == [] then []
    else if |d| < 4 then
      var b := d + buffer[|d|..];
      [b[3], b[2], b[1], b[0]]
    else
      var rest := WordReverseFrom(d[4..], d[..4]);
      assert |d[4..]| == |d| - 4 && |[d[3], d[2], d[1], d[0]] + rest| == 4 + |rest|;
      [d[3], d[2], d[1], d[0]] + rest
  }

  /** A short last read leaves the end of the previous word in the buffer: one stray octet after 1 2 3 4 is written as 4 3 2 and itself. */
  lemma WordReverseStale()
    ensures WordReverse([1, 2, 3, 4, 5]) == [4, 3, 2, 1, 4, 3, 2, 5]
  {
    assert WordReverseFrom([5], [1, 2, 3, 4]) == [4, 3, 2, 5];
  }

  /** Reversing the octets of every word swaps the two ways of reading a word. */
  lemma WordReverseWordAt(d: seq<Byte>, offset: nat, bigEndian: bool)
    requires offset % 4 == 0 && offset + 4 <= |d|
    ensures WordAt(WordReverse(d), offset, !bigEndian) == WordAt(d, offset, bigEndian)
    ensures WordReverse(d)[offset..offset + 4] == [d[offset + 3], d[offset + 2], d[offset + 1], d[offset]]
  {
    WordReverseFromWordAt(d, [0, 0, 0, 0], offset, bigEndian);
  }

  /** WordReverseWordAt for any buffer left by an earlier read. */
  lemma {:induction false} WordReverseFromWordAt(d: seq<Byte>, buffer: seq<Byte>, offset: nat, bigEndian: bool)
    requires |buffer| == 4 && offset % 4 == 0 && offset + 4 <= |d|
    ensures WordAt(WordReverseFrom(d, buffer), offset, !bigEndian) == WordAt(d, offset, bigEndian)
    ensures WordReverseFrom(d, buffer)[offset..offset + 4] == [d[offset + 3], d[offset + 2], d[offset + 1], d[offset]]
  {
    var r := WordReverseFrom(d, buffer);
    assert r == [d[3], d[2], d[1], d[0]] + WordReverseFrom(d[4..], d[..4]);
    if offset >= 4 {
      WordReverseFromWordAt(d[4..], d[..4], offset - 4, bigEndian);
      assert r[offset..offset + 4] == WordReverseFrom(d[4..], d[..4])[offset - 4..offset];
    }
  }

  /** Two streams of one length hold the same words from `offset` on, each read in its own byte order. */
  predicate SameWords(d1: seq<Byte>, bigEndian1: bool, d2: seq<Byte>, bigEndian2: bool, offset: nat)
    decreases |d1| - offset
  {
    && |d1| == |d2|
    && (offset + 4 <= |d1| ==>
          && WordAt(d1, offset, bigEndian1) == WordAt(d2, offset, bigEndian2)
          && SameWords(d1, bigEndian1, d2, bigEndian2, offset + 4))
  }

  lemma {:induction false} SameWordsLater(d1: seq<Byte>, bigEndian1: bool, d2: seq<Byte>, bigEndian2: bool, offset: nat, k: nat)
    requires SameWords(d1, bigEndian1, d2, bigEndian2, offset) && offset + 4 * k <= |d1|
    ensures SameWords(d1, bigEndian1, d2, bigEndian2, offset + 4 * k)
    decreases k
  {
    if k > 0 {
      SameWordsLater(d1, bigEndian1, d2, bigEndian2, offset + 4, k - 1);
    }
  }

  lemma {:induction false} SameWordsAt(d1: seq<Byte>, bigEndian1: bool, d2: seq<Byte>, bigEndian2: bool, offset: nat, count: nat)
    requires SameWords(d1, bigEndian1, d2, bigEndian2, offset) && offset + 4 * count <= |d1|
    ensures WordsAt(d1, offset, count, bigEndian1) == WordsAt(d2, offset, count, bigEndian2)
  {
    if count > 0 {
      SameWordsAt(d1, bigEndian1, d2, bigEndian2, offset, count - 1);
      SameWordsLater(d1, bigEndian1, d2, bigEndian2, offset, count - 1);
    }
  }

  /** One parsing step sees only the words of a stream and its length. */
  lemma SameWordsParseNext(d1: seq<Byte>, bigEndian1: bool, d2: seq<Byte>, bigEndian2: bool, offset: nat)
    requires SameWords(d1, bigEndian1, d2, bigEndian2, offset)
    ensures ParseNext(d1, offset, bigEndian1) == ParseNext(d2, offset, bigEndian2)
  {
    if offset + 4 <= |d1| {
      var header := WordAt(d1, offset, bigEndian1);
      assert WordAt(d2, offset, bigEndian2) == header;
      var count := OperandCount(WordCountOf(header));
      if offset + 4 + 4 * count <= |d1| {
        SameWordsAt(d1, bigEndian1, d2, bigEndian2, offset + 4, count);
        var i := ParsedInstruction(OpCodeOf(header), WordCountOf(header), WordsAt(d1, offset + 4, count, bigEndian1), 0);
        assert ParseNext(d1, offset, bigEndian1) == Ok(Decoded(i, offset + 4 + 4 * count));
        assert ParseNext(d2, offset, bigEndian2) == Ok(Decoded(i, offset + 4 + 4 * count));
      }
    }
  }

  /** Parsing sees only the words of a stream and its length. */
  lemma {:induction false} SameWordsParseAll(d1: seq<Byte>, bigEndian1: bool, d2: seq<Byte>, bigEndian2: bool, offset: nat)
    requires SameWords(d1, bigEndian1, d2, bigEndian2, offset)
    ensures ParseAll(d1, offset, bigEndian1) == ParseAll(d2, offset, bigEndian2)
    decreases |d1| - offset
  {
    SameWordsParseNext(d1, bigEndian1, d2, bigEndian2, offset);
    var step := ParseNext(d1, offset, bigEndian1);
    if step.Ok? && step.value.Decoded? {
      var next := step.value.next;
      SameWordsLater(d1, bigEndian1, d2, bigEndian2, offset + 4, |step.value.instruction.operands|);
      ParseAllStep(d1, offset, bigEndian1, step.value.instruction, next);
      ParseAllStep(d2, offset, bigEndian2, step.value.instruction, next);
      SameWordsParseAll(d1, bigEndian1, d2, bigEndian2, next);
    }
  }

  /** From any word boundary on, a word-reversed stream of whole words holds the same words in the other byte order. */
  lemma {:induction false} WordReverseSameWords(d: seq<Byte>, bigEndian: bool, offset: nat)
    requires |d| % 4 == 0 && offset % 4 == 0
    ensures SameWords(WordReverse(d), !bigEndian, d, bigEndian, offset)
    decreases |d| - offset
  {
    if offset + 4 <= |d| {
      WordReverseWordAt(d, offset, bigEndian);
      WordReverseSameWords(d, bigEndian, offset + 4);
    }
  }

  /** Instruction by instruction, a word-reversed stream of whole words read in the other byte order is the same stream. */
  lemma WordReverseParseAll(d: seq<Byte>, offset: nat, bigEndian: bool)
    requires |d| % 4 == 0 && offset % 4 == 0
    ensures ParseAll(WordReverse(d), offset, !bigEndian) == ParseAll(d, offset, bigEndian)
  {
    WordReverseSameWords(d, bigEndian, offset);
    SameWordsParseAll(WordReverse(d), !bigEndian, d, bigEndian, offset);
  }

  /**
   * A module of whole words and its word-reversed copy parse to the same header and the same
   * instructions, read in opposite byte orders; one fails exactly when the
   * other does, with the same kind of error at the same offset.
   */
  lemma WordReverseParseModule(d: seq<Byte>)
    requires |d| % 4 == 0
    ensures ParseModule(d).Ok? ==>
      ParseModule(WordReverse(d)) == Ok(ParseModule(d).value.(bigEndian := !ParseModule(d).value.bigEndian))
    ensures ParseModule(d).Err? ==>
      (&& ParseModule(WordReverse(d)).Err?
       && ParseModule(WordReverse(d)).error.offset == ParseModule(d).error.offset
       && ParseModule(WordReverse(d)).error.UnrecognizedMagic? == ParseModule(d).error.UnrecognizedMagic?
       && ParseModule(WordReverse(d)).error.HeaderEndOfStream? == ParseModule(d).error.HeaderEndOfStream?)
  {
    var r := WordReverse(d);
    if 4 <= |d| {
      WordReverseWordAt(d, 0, true);
      assert r[0..4] == [d[3], d[2], d[1], d[0]];
      assert d[0..4] == MAGIC_BIG <==> r[0..4] == MAGIC_LITTLE;
      assert d[0..4] == MAGIC_LITTLE <==> r[0..4] == MAGIC_BIG;
      if Endianness(d, 0).Ok? && 20 <= |d| {
        var bigEndian := Endianness(d, 0).value;
        WordReverseWordAt(d, 4, bigEndian);
        WordReverseWordAt(d, 8, bigEndian);
        WordReverseWordAt(d, 12, bigEndian);
        WordReverseWordAt(d, 16, bigEndian);
        WordReverseParseAll(d, 20, bigEndian);
      }
    }
  }

  /** An empty stream is rejected before anything is read. */
  lemma EmptyStreamFails()
    ensures ParseModule([]) == Err(HeaderEndOfStream(0))
  {
  }

  /** A stream whose first word is not a magic number fails, the error naming the offset just past it. */
  lemma BadMagicFails(d: seq<Byte>)
    requires |d| >= 4 && d[0..4] != MAGIC_BIG && d[0..4] != MAGIC_LITTLE
    ensures ParseModule(d) == Err(UnrecognizedMagic(d[0..4], 4))
  {
  }

  /** The smallest modules: a version 1.3 header and no instructions, in either byte order. */
  lemma TrivialModules()
    ensures var big := MAGIC_BIG + [0, 1, 3, 0] + [0, 0, 0, 0] + [0, 0, 0, 0] + [0, 0, 0, 0];
      && ParseModule(big).Ok?
      && var m := ParseModule(big).value;
      && m.bigEndian && m.instructions == []
      && m.header.VersionMajor() == 1 && m.header.VersionMinor() == 3
      && m.header.generatorMagicNumber == 0 && m.header.idBound == 0
    ensures var little := MAGIC_LITTLE + [0, 3, 1, 0] + [0, 0, 0, 0] + [0, 0, 0, 0] + [0, 0, 0, 0];
      && ParseModule(little).Ok?
      && var m := ParseModule(little).value;
      && !m.bigEndian && m.instructions == []
      && m.header.VersionMajor() == 1 && m.header.VersionMinor() == 3
      && m.header.generatorMagicNumber == 0 && m.header.idBound == 0
  {
    var big := MAGIC_BIG + [0, 1, 3, 0] + [0, 0, 0, 0] + [0, 0, 0, 0] + [0, 0, 0, 0];
    assert big[0..4] == MAGIC_BIG;
    var little := MAGIC_LITTLE + [0, 3, 1, 0] + [0, 0, 0, 0] + [0, 0, 0, 0] + [0, 0, 0, 0];
    assert little[0..4] == MAGIC_LITTLE;
  }

  /** A header word announcing zero words still consumes only itself and yields no operands. */
  lemma ZeroWordCount(opCode: nat, bigEndian: bool, rest: seq<Byte>)
    requires opCode < 0x1_0000
    ensures ParseNext(WordOctets(opCode, bigEndian) + rest, 0, bigEndian) == Ok(Decoded(ParsedInstruction(opCode, 0, [], 0), 4))
  {
    WordRoundTrip(opCode, bigEndian, rest);
    HeaderWord(opCode, 0, opCode);
  }

  /** One to three octets after the last instruction end the stream cleanly; they are not an error. */
  lemma TrailingOctetsIgnored(before: seq<Byte>, tail: seq<Byte>, bigEndian: bool)
    requires 0 < |tail| < 4
    ensures ParseAll(before + tail, |before|, bigEndian) == Ok([])
  {
  }

  /** A header announcing operands that are not there fails at the first missing operand. */
  lemma TruncatedInstruction(header: Word, operands: seq<Word>, bigEndian: bool)
    requires WordCountOf(header) > |operands| + 1
    ensures ParseAll(Encode([header] + operands, bigEndian), 0, bigEndian) == Err(InstructionEndOfStream(4 + 4 * |operands|))
  {
    var d := Encode([header] + operands, bigEndian);
    EncodedWordAt([header] + operands, bigEndian, [], [], 0);
    assert [] + d + [] == d;
    ShortReadAt(|d|, 4, |operands|);
  }
}

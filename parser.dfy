/**
 * The SPIR-V binary parser: byte order detection from the magic number,
 * the header words, then instructions one header word and its operands
 * at a time, until the stream ends.
 *
 * The pure functions below say what a stream parses to; the `Reader` and
 * `Parser` classes do it step by step and are proved to agree with them.
 */
module Parser {
  import opened Base
  import opened ParserApi

  const MAGIC_BIG: seq<Byte> := [0x07, 0x23, 0x02, 0x03]
  const MAGIC_LITTLE: seq<Byte> := [0x03, 0x02, 0x23, 0x07]

  /** The unsigned word stored at `offset`, most significant octet first when `bigEndian`. */
  function WordAt(data: seq<Byte>, offset: nat, bigEndian: bool): Word
    requires offset + 4 <= |data|
  {
    var b0, b1, b2, b3 := data[offset] as int, data[offset + 1] as int, data[offset + 2] as int, data[offset + 3] as int;
    if bigEndian then ((b0 * 0x100 + b1) * 0x100 + b2) * 0x100 + b3
    else ((b3 * 0x100 + b2) * 0x100 + b1) * 0x100 + b0
  }

  /** The four octets that store a word in the given byte order. */
  function WordOctets(w: Word, bigEndian: bool): (b: seq<Byte>)
    ensures |b| == 4
  {
    var o0, o1, o2, o3 := w % 0x100, w / 0x100 % 0x100, w / 0x100 / 0x100 % 0x100, w / 0x100 / 0x100 / 0x100;
    if bigEndian then [o3, o2, o1, o0] else [o0, o1, o2, o3]
  }

  /** Reading a word back from its octets gives the word, in either byte order. */
  lemma WordRoundTrip(w: Word, bigEndian: bool, rest: seq<Byte>)
    ensures WordAt(WordOctets(w, bigEndian) + rest, 0, bigEndian) == w
  {
    var d := WordOctets(w, bigEndian) + rest;
    var q1 := w / 0x100;
    var q2 := q1 / 0x100;
    var q3 := q2 / 0x100;
    assert w == q1 * 0x100 + w % 0x100;
    assert q1 == q2 * 0x100 + q1 % 0x100;
    assert q2 == q3 * 0x100 + q2 % 0x100;
  }

  /** Where a run of word reads starting at `offset` in a stream of `length` octets first finds fewer than four left. */
  function ShortReadOffset(length: nat, offset: nat): (r: nat)
    ensures offset <= r
    ensures offset <= length ==> r <= length < r + 4
    decreases length - offset
  {
    if offset + 4 > length then offset else ShortReadOffset(length, offset + 4)
  }

  lemma {:induction false} ShortReadAt(length: nat, base: nat, k: nat)
    requires base + 4 * k <= length < base + 4 * k + 4
    ensures ShortReadOffset(length, base) == base + 4 * k
    decreases k
  {
    if k > 0 {
      ShortReadAt(length, base + 4, k - 1);
    }
  }

  /** The `count` words stored one after another from `offset`. */
  function WordsAt(data: seq<Byte>, offset: nat, count: nat, bigEndian: bool): (ws: seq<Word>)
    requires offset + 4 * count <= |data|
    ensures |ws| == count
  {
    if count == 0 then [] else WordsAt(data, offset, count - 1, bigEndian) + [WordAt(data, offset + 4 * (count - 1), bigEndian)]
  }

  /** The k-th of those words is the one at octet offset + 4k. */
  lemma {:induction false} WordsAtIndex(data: seq<Byte>, offset: nat, count: nat, bigEndian: bool, k: nat)
    requires offset + 4 * count <= |data| && k < count
    ensures WordsAt(data, offset, count, bigEndian)[k] == WordAt(data, offset + 4 * k, bigEndian)
  {
    if k < count - 1 {
      WordsAtIndex(data, offset, count - 1, bigEndian, k);
    }
  }

  /** The octets of a sequence of words. */
  function Encode(words: seq<Word>, bigEndian: bool): (b: seq<Byte>)
    ensures |b| == 4 * |words|
  {
    if words == [] then [] else WordOctets(words[0], bigEndian) + Encode(words[1..], bigEndian)
  }

  /** Reading words back from their encoding gives the words. */
  lemma EncodeRoundTrip(words: seq<Word>, bigEndian: bool, before: seq<Byte>, rest: seq<Byte>)
    ensures var d := before + Encode(words, bigEndian) + rest;
      WordsAt(d, |before|, |words|, bigEndian) == words
  {
    var d := before + Encode(words, bigEndian) + rest;
    var ws := WordsAt(d, |before|, |words|, bigEndian);
    forall k | 0 <= k < |words|
      ensures ws[k] == words[k]
    {
      EncodedWord(words, bigEndian, before, rest, k);
    }
    assert |ws| == |words|;
  }

  /** The k-th word read back from an encoding is the k-th word encoded. */
  lemma EncodedWord(words: seq<Word>, bigEndian: bool, before: seq<Byte>, rest: seq<Byte>, k: nat)
    requires k < |words|
    ensures WordsAt(before + Encode(words, bigEndian) + rest, |before|, |words|, bigEndian)[k] == words[k]
  {
    var d := before + Encode(words, bigEndian) + rest;
      WordsAtIndex(d, |before|, |words|, bigEndian, k);
      EncodedWordAt(words, bigEndian, before, rest, k);
  }

  /** The k-th word of an encoding sits at octet 4k. */
  lemma EncodedWordAt(words: seq<Word>, bigEndian: bool, before: seq<Byte>, rest: seq<Byte>, k: nat)
    requires k < |words|
    ensures |before| + 4 * k + 4 <= |before + Encode(words, bigEndian) + rest|
    ensures WordAt(before + Encode(words, bigEndian) + rest, |before| + 4 * k, bigEndian) == words[k]
  {
    var e := Encode(words, bigEndian);
    var d := before + e + rest;
    var o := |before| + 4 * k;
    EncodedOctet(words, bigEndian, k, 0);
    EncodedOctet(words, bigEndian, k, 1);
    EncodedOctet(words, bigEndian, k, 2);
    EncodedOctet(words, bigEndian, k, 3);
    assert d[o] == e[4 * k] && d[o + 1] == e[4 * k + 1] && d[o + 2] == e[4 * k + 2] && d[o + 3] == e[4 * k + 3];
    WordRoundTrip(words[k], bigEndian, []);
  }

  /** Octet j of the k-th word of an encoding is octet 4k + j of the encoding. */
  lemma {:induction false} EncodedOctet(words: seq<Word>, bigEndian: bool, k: nat, j: nat)
    requires k < |words| && j < 4
    ensures Encode(words, bigEndian)[4 * k + j] == WordOctets(words[k], bigEndian)[j]
  {
    if k > 0 {
      EncodedOctet(words[1..], bigEndian, k - 1, j);
    }
  }

  lemma WordShift(w: Word, bigEndian: bool, before: seq<Byte>, rest: seq<Byte>)
    ensures WordAt(before + WordOctets(w, bigEndian) + rest, |before|, bigEndian) == w
  {
    EncodedWordAt([w], bigEndian, before, rest, 0);
    assert Encode([w], bigEndian) == WordOctets(w, bigEndian) + [];
  }

  /** The result of looking at the magic number at `offset`: the byte order it announces. */
  function Endianness(data: seq<Byte>, offset: nat): (r: Result<bool, ParseError>)
    ensures r == Ok(true) <==> offset + 4 <= |data| && data[offset..offset + 4] == MAGIC_BIG
    ensures r == Ok(false) <==> offset + 4 <= |data| && data[offset..offset + 4] == MAGIC_LITTLE
    ensures r.Err? && r.error.UnrecognizedMagic? ==>
      offset + 4 <= |data| && r.error.offset == offset + 4 && r.error.magic == data[offset..offset + 4]
    ensures r.Err? && r.error.HeaderEndOfStream? <==> offset + 4 > |data|
  {
    if offset + 4 > |data| then Err(HeaderEndOfStream(offset))
    else if data[offset..offset + 4] == MAGIC_BIG then Ok(true)
    else if data[offset..offset + 4] == MAGIC_LITTLE then Ok(false)
    else Err(UnrecognizedMagic(data[offset..offset + 4], offset + 4))
  }

  /** What `Create` reads: byte order, header, and where the first instruction starts. */
  datatype Prelude = Prelude(bigEndian: bool, header: Header, next: nat)

  /** The magic number and the four header words read from `offset`. */
  function ParsePrelude(data: seq<Byte>, offset: nat): (r: Result<Prelude, ParseError>)
    ensures r.Ok? <==> Endianness(data, offset).Ok? && offset + 20 <= |data|
    ensures r.Ok? ==> r.value.bigEndian == Endianness(data, offset).value && r.value.next == offset + 20
    ensures r.Ok? ==> r.value.header.rawVersionNumber == WordAt(data, offset + 4, r.value.bigEndian)
    ensures r.Ok? ==> r.value.header.generatorMagicNumber == WordAt(data, offset + 8, r.value.bigEndian)
    ensures r.Ok? ==> r.value.header.idBound == WordAt(data, offset + 12, r.value.bigEndian)
    ensures r.Ok? ==> r.value.header.schema == WordAt(data, offset + 16, r.value.bigEndian)
  {
    match Endianness(data, offset)
    case Err(e) => Err(e)
    case Ok(bigEndian) =>
      if offset + 20 > |data| then Err(HeaderEndOfStream(ShortReadOffset(|data|, offset + 4)))
      else
        var header := Header(WordAt(data, offset + 4, bigEndian), WordAt(data, offset + 8, bigEndian),
                             WordAt(data, offset + 12, bigEndian), WordAt(data, offset + 16, bigEndian));
        Ok(Prelude(bigEndian, header, offset + 20))
  }

  /** The word count, the high half of an instruction's header word. */
  function WordCountOf(header: Word): (wordCount: nat)
    ensures wordCount < 0x1_0000
  {
    header / 0x1_0000 % 0x1_0000
  }

  /** The opcode, the low half of an instruction's header word. */
  function OpCodeOf(header: Word): (opCode: nat)
    ensures opCode < 0x1_0000
  {
    header % 0x1_0000
  }

  /** The operands an instruction of the given word count has: all words after its header word, none if it claims zero words. */
  function OperandCount(wordCount: nat): nat
  {
    if wordCount == 0 then 0 else wordCount - 1
  }

  /** A header word is exactly its word count and opcode side by side, and any such pair is a header word. */
  lemma HeaderWord(header: Word, wordCount: nat, opCode: nat)
    ensures header == WordCountOf(header) * 0x1_0000 + OpCodeOf(header)
    ensures wordCount < 0x1_0000 && opCode < 0x1_0000 && header == wordCount * 0x1_0000 + opCode ==>
      WordCountOf(header) == wordCount && OpCodeOf(header) == opCode
  {
  }

  /** One step of instruction parsing: the stream ended cleanly, or one instruction and where the next starts. */
  datatype Step = End | Decoded(instruction: ParsedInstruction, next: nat)

  /**
   * The instruction at `offset`. Too few octets for a header word is the end
   * of the module; too few for the operands the word count announces is an error.
   */
  function ParseNext(data: seq<Byte>, offset: nat, bigEndian: bool): (r: Result<Step, ParseError>)
    ensures r == Ok(End) <==> offset + 4 > |data|
    ensures r.Ok? && r.value.Decoded? ==>
      var i := r.value.instruction;
      && i.wordCount == WordCountOf(WordAt(data, offset, bigEndian))
      && i.opCode == OpCodeOf(WordAt(data, offset, bigEndian))
      && |i.operands| == OperandCount(i.wordCount)
      && r.value.next == offset + 4 + 4 * |i.operands| <= |data|
      && i.byteOffset == 0
    ensures r.Err? ==>
      && offset + 4 <= |data|
      && offset + 4 + 4 * OperandCount(WordCountOf(WordAt(data, offset, bigEndian))) > |data|
      && r.error == InstructionEndOfStream(ShortReadOffset(|data|, offset + 4))
  {
    if offset + 4 > |data| then Ok(End)
    else
      var header := WordAt(data, offset, bigEndian);
      var wordCount := WordCountOf(header);
      var count := OperandCount(wordCount);
      if offset + 4 + 4 * count <= |data| then
        Ok(Decoded(ParsedInstruction(OpCodeOf(header), wordCount, WordsAt(data, offset + 4, count, bigEndian), 0), offset + 4 + 4 * count))
      else
        Err(InstructionEndOfStream(ShortReadOffset(|data|, offset + 4)))
  }

  /** All instructions from `offset` to the end of the stream, or the first error. */
  function ParseAll(data: seq<Byte>, offset: nat, bigEndian: bool): Result<seq<ParsedInstruction>, ParseError>
    decreases |data| - offset
  {
    match ParseNext(data, offset, bigEndian)
    case Err(e) => Err(e)
    case Ok(End) => Ok([])
    case Ok(Decoded(instruction, next)) => Prepend([instruction], ParseAll(data, next, bigEndian))
  }

  /** Instructions already parsed, in front of what the rest of the stream gives. */
  function Prepend(done: seq<ParsedInstruction>, rest: Result<seq<ParsedInstruction>, ParseError>): Result<seq<ParsedInstruction>, ParseError>
  {
    match rest
    case Err(e) => Err(e)
    case Ok(more) => Ok(done + more)
  }

  /** A whole module: its byte order, its header and its instructions. */
  datatype Module = Module(bigEndian: bool, header: Header, instructions: seq<ParsedInstruction>)

  /** What creating a parser on a stream and then parsing all instructions gives. */
  function ParseModule(data: seq<Byte>): Result<Module, ParseError>
  {
    match ParsePrelude(data, 0)
    case Err(e) => Err(e)
    case Ok(prelude) =>
      match ParseAll(data, prelude.next, prelude.bigEndian)
      case Err(e) => Err(e)
      case Ok(instructions) => Ok(Module(prelude.bigEndian, prelude.header, instructions))
  }

  /** A sequential reader over a fixed octet stream, with the absolute offset of its cursor. */
  class Reader {
    const data: seq<Byte>
    var offset: nat

    constructor (data: seq<Byte>)
      ensures this.data == data && offset == 0
    {
      this.data := data;
      offset := 0;
    }

    /** Reads `n` octets; at the end of the stream nothing is consumed and nothing is returned. */
    method ReadBytes(n: nat) returns (r: Option<seq<Byte>>)
      modifies this
      ensures old(offset) + n <= |data| ==> r == Some(data[old(offset)..old(offset) + n]) && offset == old(offset) + n
      ensures old(offset) + n > |data| ==> r.None? && offset == old(offset)
    {
      if offset + n <= |data| {
        r := Some(data[offset..offset + n]);
        offset := offset + n;
      } else {
        r := None;
      }
    }

    /** Reads an unsigned word stored most significant octet first. */
    method ReadU32BE() returns (r: Option<Word>)
      modifies this
      ensures old(offset) + 4 <= |data| ==> r == Some(WordAt(data, old(offset), true)) && offset == old(offset) + 4
      ensures old(offset) + 4 > |data| ==> r.None? && offset == old(offset)
    {
      var b := ReadBytes(4);
      if b.None? {
        return None;
      }
      var o := b.value;
      return Some(((o[0] as int * 0x100 + o[1] as int) * 0x100 + o[2] as int) * 0x100 + o[3] as int);
    }

    /** Reads an unsigned word stored least significant octet first. */
    method ReadU32LE() returns (r: Option<Word>)
      modifies this
      ensures old(offset) + 4 <= |data| ==> r == Some(WordAt(data, old(offset), false)) && offset == old(offset) + 4
      ensures old(offset) + 4 > |data| ==> r.None? && offset == old(offset)
    {
      var b := ReadBytes(4);
      if b.None? {
        return None;
      }
      var o := b.value;
      return Some(((o[3] as int * 0x100 + o[2] as int) * 0x100 + o[1] as int) * 0x100 + o[0] as int);
    }
  }

  /** A parser positioned after the header of a module, holding the header's words. */
  class Parser {
    const reader: Reader
    const bigEndian: bool
    const version: Word
    const generatorMagic: Word
    const bound: Word
    const reserved: Word
    const versionMajor: nat
    const versionMinor: nat

    constructor (reader: Reader, bigEndian: bool, version: Word, generatorMagic: Word, bound: Word, reserved: Word,
                 versionMajor: nat, versionMinor: nat)
      ensures this.reader == reader && this.bigEndian == bigEndian
      ensures this.version == version && this.generatorMagic == generatorMagic
      ensures this.bound == bound && this.reserved == reserved
      ensures this.versionMajor == versionMajor && this.versionMinor == versionMinor
    {
      this.reader := reader;
      this.bigEndian := bigEndian;
      this.version := version;
      this.generatorMagic := generatorMagic;
      this.bound := bound;
      this.reserved := reserved;
      this.versionMajor := versionMajor;
      this.versionMinor := versionMinor;
    }

    /** The header as the parser reports it. */
    function Header(): (h: ParserApi.Header)
      reads this
      ensures h.rawVersionNumber == version && h.generatorMagicNumber == generatorMagic
      ensures h.idBound == bound && h.schema == reserved
    {
      ParserApi.Header(version, generatorMagic, bound, reserved)
    }

    /** Reads the magic number and the header, and returns a parser positioned at the first instruction. */
    static method Create(reader: Reader) returns (r: Result<Parser, ParseError>)
      modifies reader
      ensures match ParsePrelude(reader.data, old(reader.offset))
        case Err(e) => r == Err(e)
        case Ok(prelude) =>
          && r.Ok? && fresh(r.value) && r.value.reader == reader
          && r.value.bigEndian == prelude.bigEndian && r.value.Header() == prelude.header
          && r.value.versionMajor == prelude.header.VersionMajor()
          && r.value.versionMinor == prelude.header.VersionMinor()
          && reader.offset == prelude.next
    {
      var start := reader.offset;
      var endianness := DetermineEndianness(reader);
      if endianness.Err? {
        return Err(endianness.error);
      }
      var bigEndian := endianness.value;
      var rawVersion := ReadWord(reader, bigEndian);
      if rawVersion.None? {
        ShortReadAt(|reader.data|, start + 4, 0);
        return Err(HeaderEndOfStream(reader.offset));
      }
      var generatorMagic := ReadWord(reader, bigEndian);
      if generatorMagic.None? {
        ShortReadAt(|reader.data|, start + 4, 1);
        return Err(HeaderEndOfStream(reader.offset));
      }
      var bound := ReadWord(reader, bigEndian);
      if bound.None? {
        ShortReadAt(|reader.data|, start + 4, 2);
        return Err(HeaderEndOfStream(reader.offset));
      }
      var reserved := ReadWord(reader, bigEndian);
      if reserved.None? {
        ShortReadAt(|reader.data|, start + 4, 3);
        return Err(HeaderEndOfStream(reader.offset));
      }
      var versionMajor := rawVersion.value / 0x1_0000 % 0x100;
      var versionMinor := rawVersion.value / 0x100 % 0x100;
      var parser := new Parser(reader, bigEndian, rawVersion.value, generatorMagic.value, bound.value, reserved.value,
                               versionMajor, versionMinor);
      return Ok(parser);
    }

    /** Reads the magic number and decides the byte order of the rest of the stream. */
    static method DetermineEndianness(reader: Reader) returns (r: Result<bool, ParseError>)
      modifies reader
      ensures r == Endianness(reader.data, old(reader.offset))
      ensures reader.offset == if r.Err? && r.error.HeaderEndOfStream? then old(reader.offset) else old(reader.offset) + 4
    {
      var magic := reader.ReadBytes(4);
      if magic.None? {
        return Err(HeaderEndOfStream(reader.offset));
      }
      if magic.value == MAGIC_BIG {
        return Ok(true);
      } else if magic.value == MAGIC_LITTLE {
        return Ok(false);
      }
      return Err(UnrecognizedMagic(magic.value, reader.offset));
    }

    /** Reads one word in the given byte order. */
    static method ReadWord(reader: Reader, bigEndian: bool) returns (r: Option<Word>)
      modifies reader
      ensures old(reader.offset) + 4 <= |reader.data| ==>
        r == Some(WordAt(reader.data, old(reader.offset), bigEndian)) && reader.offset == old(reader.offset) + 4
      ensures old(reader.offset) + 4 > |reader.data| ==> r.None? && reader.offset == old(reader.offset)
    {
      if bigEndian {
        r := reader.ReadU32BE();
      } else {
        r := reader.ReadU32LE();
      }
    }

    /** Parses the instruction at the reader's cursor, or reports the clean end of the stream. */
    method ParseNextInstruction() returns (r: Result<Option<ParsedInstruction>, ParseError>)
      modifies reader
      ensures match ParseNext(reader.data, old(reader.offset), bigEndian)
        case Ok(End) => r == Ok(None) && reader.offset == old(reader.offset)
        case Ok(Decoded(instruction, next)) => r == Ok(Some(instruction)) && reader.offset == next
        case Err(e) => r == Err(e) && reader.offset == e.offset
    {
      var start := reader.offset;
      var header := ReadWord(reader, bigEndian);
      if header.None? {
        return Ok(None);
      }
      var wordCount := WordCountOf(header.value);
      var opCode := OpCodeOf(header.value);
      var operands: seq<Word> := [];
      var index := 1;
      while index < wordCount
        invariant 1 <= index <= if wordCount == 0 then 1 else wordCount
        invariant reader.offset == start + 4 * index <= |reader.data|
        invariant operands == WordsAt(reader.data, start + 4, index - 1, bigEndian)
        decreases wordCount - index
      {
        var operand := ReadWord(reader, bigEndian);
        if operand.None? {
          ShortReadAt(|reader.data|, start + 4, index - 1);
          return Err(InstructionEndOfStream(reader.offset));
        }
        operands := operands + [operand.value];
        index := index + 1;
      }
      return Ok(Some(ParsedInstruction(opCode, wordCount, operands, 0)));
    }

    /** Parses instructions until the stream ends cleanly; the first error ends parsing. */
    method ParseAllInstructions() returns (r: Result<seq<ParsedInstruction>, ParseError>)
      modifies reader
      ensures r == ParseAll(reader.data, old(reader.offset), bigEndian)
    {
      var instructions: seq<ParsedInstruction> := [];
      PrependNothing(ParseAll(reader.data, reader.offset, bigEndian));
      while true
        invariant ParseAll(reader.data, old(reader.offset), bigEndian)
               == Prepend(instructions, ParseAll(reader.data, reader.offset, bigEndian))
        decreases |reader.data| - reader.offset
      {
        ghost var before := reader.offset;
        var result := ParseNextInstruction();
        match result {
          case Err(e) =>
            return Err(e);
          case Ok(None) =>
            assert instructions + [] == instructions;
            return Ok(instructions);
          case Ok(Some(instruction)) =>
            PrependAssociates(instructions, instruction, ParseAll(reader.data, reader.offset, bigEndian));
            instructions := instructions + [instruction];
        }
      }
    }
  }

  lemma PrependNothing(rest: Result<seq<ParsedInstruction>, ParseError>)
    ensures Prepend([], rest) == rest
  {
    if rest.Ok? {
      assert [] + rest.value == rest.value;
    }
  }

  lemma PrependAssociates(done: seq<ParsedInstruction>, i: ParsedInstruction, rest: Result<seq<ParsedInstruction>, ParseError>)
    ensures Prepend(done, Prepend([i], rest)) == Prepend(done + [i], rest)
  {
    if rest.Ok? {
      assert done + ([i] + rest.value) == (done + [i]) + rest.value;
    }
  }
}

/**
 * The values the parser hands out: the module header, one parsed
 * instruction, and the ways parsing fails.
 */
module ParserApi {
  import opened Base

  /** The five-word module header, minus the magic number. */
  datatype Header = Header(rawVersionNumber: Word, generatorMagicNumber: Word, idBound: Word, schema: Word)
  {
    /** Bits 16 to 23 of the version word. */
    function VersionMajor(): (major: nat)
      ensures major < 0x100
    {
      rawVersionNumber / 0x1_0000 % 0x100
    }

    /** Bits 8 to 15 of the version word. */
    function VersionMinor(): (minor: nat)
      ensures minor < 0x100
    {
      rawVersionNumber / 0x100 % 0x100
    }
  }

  /** The version word the SPIR-V specification defines for version major.minor: 0 | major | minor | 0. */
  function VersionWord(major: nat, minor: nat): (w: Word)
    requires major < 0x100 && minor < 0x100
  {
    major * 0x1_0000 + minor * 0x100
  }

  /** Major and minor version are recovered from any version word, whatever its other octets hold. */
  lemma VersionFields(major: nat, minor: nat, high: nat, low: nat, rest: Header)
    requires major < 0x100 && minor < 0x100 && high < 0x100 && low < 0x100
    ensures var h := rest.(rawVersionNumber := high * 0x100_0000 + VersionWord(major, minor) + low);
      h.VersionMajor() == major && h.VersionMinor() == minor
  {
    var w := high * 0x100_0000 + VersionWord(major, minor) + low;
    assert w / 0x1_0000 == high * 0x100 + major;
    assert w / 0x100 == high * 0x1_0000 + major * 0x100 + minor;
  }

  /** One instruction: its opcode, the word count of its header, its operands and its byte offset. */
  datatype ParsedInstruction = ParsedInstruction(opCode: nat, wordCount: nat, operands: seq<Word>, byteOffset: nat)

  /** How parsing fails. */
  datatype ParseError =
      /** The first four octets are neither byte order's magic number (an SMParseException). */
      UnrecognizedMagic(magic: seq<Byte>, offset: nat)
      /** The stream ends inside the magic number or the header words (the reader's EOFException, unwrapped). */
    | HeaderEndOfStream(offset: nat)
      /** The stream ends inside an instruction's operands (an SMParseException). */
    | InstructionEndOfStream(offset: nat)
}

/**
 * SMOpDisassemblerContext: what a formatter may ask while rendering an
 * instruction — how to write an id (by number or by its OpName name), a
 * literal, a literal whose type is given by an id, and a quoted string.
 */
module DisassemblerContext {
  import opened Base
  import opened Text
  import opened Registry
  import opened Strings
  import opened Identifiers
  import Formatting

  /** The identifiers setting of the disassembler configuration. */
  datatype IdMode = RawNumeric | Named

  /** The tables built from the module, and the configuration. */
  datatype Context = Context(identifiers: SMIdentifiers, types: map<Word, Op>, mode: IdMode)

  /** idString: by number, or by the id's name when names are asked for and the id has one. */
  function IdString(ctx: Context, x: Word): (s: string)
    ensures |s| >= 1 && s[0] == '%'
    ensures ctx.mode.RawNumeric? || x !in ctx.identifiers.idToName ==> s == Formatting.IdString(x)
    ensures ctx.mode.Named? && x in ctx.identifiers.idToName ==> s[1..] == ctx.identifiers.idToName[x]
  {
    match ctx.mode
    case RawNumeric => Formatting.IdString(x)
    case Named =>
      if x in ctx.identifiers.idToName then "%" + ctx.identifiers.idToName[x]
      else Formatting.IdString(x)
  }

  /** In numeric mode the written id reads back as the id itself, whatever names the module gives. */
  lemma RawIdReadsBack(ctx: Context, x: Word)
    requires ctx.mode.RawNumeric?
    ensures IsDigits(IdString(ctx, x)[1..]) && DigitsValue(IdString(ctx, x)[1..]) == x
  {
    NatToStringValue(x);
  }

  /** With names, a named id is written as a name the name table leads back to that id. */
  lemma NamedIdResolves(ctx: Context, x: Word)
    requires ctx.mode.Named? && Consistent(ctx.identifiers) && x in ctx.identifiers.idToName
    ensures IdString(ctx, x)[1..] in ctx.identifiers.nameToId
    ensures ctx.identifiers.nameToId[IdString(ctx, x)[1..]] == x
  {
  }

  /** literal: as SMFormatting writes it; the context is not consulted. */
  function Literal(ctx: Context, value: Word): (s: string)
    ensures s == Formatting.Literal(value)
    ensures DigitsValue(s[1..]) == value
  {
    Formatting.Literal(value)
  }

  /**
   * literalTyped: a value whose type is the id `typeId`. An integer type
   * writes the literal, a float type its float rendering (given here as
   * `floatText`), and an unknown or other type "$?" and the value.
   */
  function LiteralTyped(ctx: Context, typeId: Word, value: Word, floatText: string): (s: string)
    ensures typeId !in ctx.types ==> s == "$?" + NatToString(value)
    ensures typeId in ctx.types && ctx.types[typeId] == OpTypeInt ==> s == Formatting.Literal(value)
    ensures typeId in ctx.types && ctx.types[typeId] == OpTypeFloat ==> s == floatText
    ensures typeId in ctx.types && ctx.types[typeId] !in {OpTypeInt, OpTypeFloat} ==> s == "$?" + NatToString(value)
  {
    if typeId !in ctx.types then "$?" + IntToString(value)
    else
      match ctx.types[typeId]
      case OpTypeFloat => floatText
      case OpTypeInt => Formatting.Literal(value)
      case _ => "$?" + IntToString(value)
  }

  /** quoteString: the string's text, quoted as SMFormatting quotes it. */
  function QuoteString(ctx: Context, name: SMString): (s: string)
    ensures s == Formatting.QuoteString(name.text)
    ensures Formatting.Unescape(s[1..|s| - 1]) == name.text
  {
    Formatting.UnescapeEscape(name.text);
    var q := Formatting.QuoteString(name.text);
    assert q[1..|q| - 1] == Formatting.EscapeJava(name.text);
    q
  }
}

/**
 * SMDisassembler: the text of a module. A banner from the header, then one
 * line per instruction: the byte offset, a right-aligned assignment column
 * for an instruction that defines a result id, the mnemonic and the
 * formatter's tokens. An unregistered opcode gets a line of raw hexadecimal
 * operands instead.
 */
module Disassembler {
  import opened Base
  import opened Text
  import opened Failures
  import opened Registry
  import opened Instructions
  import opened ParserApi
  import opened Identifiers
  import opened Types
  import opened DisassemblerContext
  import opened OpDisassemblers
  import opened Columns
  import Formatters

  // ------------------------------------------------------------ columns

  /** Which operand holds the result id the assignment column shows: the second after a result type, else the first. */
  function ResultIdPosition(def: Op): (k: Option<nat>)
    ensures k.Some? ==> k.value < |def.Operands()| && def.Operands()[k.value].kind == IdResult
    ensures k == Some(1) <==> |def.Operands()| >= 2 && def.Operands()[0].kind == IdResultType && def.Operands()[1].kind == IdResult
    ensures k == Some(0) <==> |def.Operands()| >= 1 && def.Operands()[0].kind == IdResult
  {
    var ds := def.Operands();
    if |ds| >= 2 && ds[0].kind == IdResultType && ds[1].kind == IdResult then Some(1)
    else if |ds| >= 1 && ds[0].kind == IdResult then Some(0)
    else None
  }

  /** formatAssignment: the result id's assignment, or the blank column; reading a missing operand fails. */
  function FormatAssignment(def: Option<Op>, operands: seq<Word>): (r: Result<string, Failure>)
    ensures def.None? || ResultIdPosition(def.value).None? ==> r == Ok(BLANK)
    ensures def.Some? && ResultIdPosition(def.value).Some? ==>
      var k := ResultIdPosition(def.value).value;
      r == if k < |operands| then Ok(Assignment(operands[k])) else Err(MissingOperand(k, |operands|))
  {
    if def.Some? then
      var ds := def.value.Operands();
      if |ds| >= 2 && ds[0].kind == IdResultType && ds[1].kind == IdResult then
        if |operands| < 2 then Err(MissingOperand(1, |operands|)) else Ok(Assignment(operands[1]))
      else if |ds| >= 1 && ds[0].kind == IdResult then
        if |operands| < 1 then Err(MissingOperand(0, |operands|)) else Ok(Assignment(operands[0]))
      else Ok(BLANK)
    else Ok(BLANK)
  }

  // ------------------------------------------------------------ lines

  /** formatInstructionOperands: the chosen formatter's tokens joined by single spaces. */
  function FormatInstructionOperands(ctx: Context, table: Table, others: Formatters.Others, inst: ParsedInstruction): (r: Result<string, Failure>)
    ensures r.Ok? <==> Format(FindDisassembler(table, inst), ctx, inst, others).Ok?
    ensures r.Ok? ==> r.value == Join(Format(FindDisassembler(table, inst), ctx, inst, others).value, " ")
    ensures r.Err? ==> r.error == Format(FindDisassembler(table, inst), ctx, inst, others).error
  {
    match Format(FindDisassembler(table, inst), ctx, inst, others)
    case Err(f) => Err(f)
    case Ok(tokens) => Ok(Join(tokens, " "))
  }

  /**
   * disassembleInstruction: an unregistered opcode is written raw; a
   * registered one as its definition, the assignment its result id gives and
   * the formatter's tokens make it.
   */
  function InstructionLine(ctx: Context, table: Table, others: Formatters.Others, inst: ParsedInstruction): Written
  {
    match ByOpCode(inst.opCode)
    case None => Written(RawLine(inst), None)
    case Some(def) =>
      RegisteredLine(inst.byteOffset, FormatAssignment(Some(def), inst.operands), def.SpirName(),
                     FormatInstructionOperands(ctx, table, others, inst))
  }

  /** Ids below 10^9 keep the assignment column twelve wide. */
  lemma AssignmentColumn(def: Option<Op>, operands: seq<Word>)
    requires forall w :: w in operands ==> w < 1_000_000_000
    ensures FormatAssignment(def, operands).Ok? ==> |FormatAssignment(def, operands).value| == 12
  {
    if def.Some? && ResultIdPosition(def.value).Some? {
      var k := ResultIdPosition(def.value).value;
      if k < |operands| {
        assert operands[k] in operands;
        AssignmentWidth(operands[k]);
      }
    }
  }

  /** disassembleInstruction, for one context and table. */
  function LineOf(ctx: Context, table: Table, others: Formatters.Others): ParsedInstruction -> Written
  {
    inst => InstructionLine(ctx, table, others, inst)
  }

  /** The instruction lines, in order, up to and including the first that fails. */
  function Body(ctx: Context, table: Table, others: Formatters.Others, insts: seq<ParsedInstruction>): Outcome
  {
    Collect(MapLines(LineOf(ctx, table, others), insts))
  }

  /** Body in terms of the instructions: one line each in order, or the lines before the first failing one and its unfinished text. */
  lemma BodyMeaning(ctx: Context, table: Table, others: Formatters.Others, insts: seq<ParsedInstruction>)
    ensures var o := Body(ctx, table, others, insts); var k := |o.lines|;
      k <= |insts|
      && (forall j :: 0 <= j < k ==> InstructionLine(ctx, table, others, insts[j]) == Written(o.lines[j], None))
      && (o.failure.None? <==> forall j :: 0 <= j < |insts| ==> InstructionLine(ctx, table, others, insts[j]).failure.None?)
      && (o.failure.None? ==> k == |insts| && o.partial == "")
      && (o.failure.Some? ==> k < |insts| && InstructionLine(ctx, table, others, insts[k]) == Written(o.partial, o.failure))
  {
    CollectLinesMeaning(LineOf(ctx, table, others), insts);
  }

  /** Once the lines of a prefix have failed, the rest of the list is not written. */
  lemma LaterInstructions(ctx: Context, table: Table, others: Formatters.Others, insts: seq<ParsedInstruction>, k: nat)
    requires k <= |insts| && Body(ctx, table, others, insts[..k]).failure.Some?
    ensures Body(ctx, table, others, insts) == Body(ctx, table, others, insts[..k])
  {
    CollectLinesAfterFailure(LineOf(ctx, table, others), insts, k);
  }

  /** The formatter table the disassembler creates. */
  function CreatedTable(): Table
  {
    CreateOk();
    Create().value
  }

  /**
   * disassemble: both analyses run over the whole list before anything is
   * written; a failure there writes nothing. Then the banner and the lines.
   */
  function Output(mode: IdMode, header: Header, insts: seq<ParsedInstruction>, others: Formatters.Others): Outcome
  {
    match IdentifiersOf(insts)
    case Err(f) => Outcome([], "", Some(f))
    case Ok(identifiers) =>
      match TypesOf(insts)
      case Err(f) => Outcome([], "", Some(f))
      case Ok(types) =>
        var body := Body(Context(identifiers, types, mode), CreatedTable(), others, insts);
        Outcome(Banner(header) + body.lines, body.partial, body.failure)
  }

  /** Output once both analyses have succeeded: the banner, then the body. */
  lemma OutputAnalysed(mode: IdMode, header: Header, insts: seq<ParsedInstruction>, others: Formatters.Others)
    requires IdentifiersOf(insts).Ok? && TypesOf(insts).Ok?
    ensures var body := Body(Context(IdentifiersOf(insts).value, TypesOf(insts).value, mode), CreatedTable(), others, insts);
      Output(mode, header, insts, others) == Outcome(Banner(header) + body.lines, body.partial, body.failure)
  {
  }

  /** When both analyses succeed, the output is the banner followed by the instruction lines. */
  lemma OutputShape(mode: IdMode, header: Header, insts: seq<ParsedInstruction>, others: Formatters.Others)
    requires IdentifiersOf(insts).Ok? && TypesOf(insts).Ok?
    ensures var o := Output(mode, header, insts, others);
      |o.lines| >= 6 && o.lines[..6] == Banner(header)
      && var ctx := Context(IdentifiersOf(insts).value, TypesOf(insts).value, mode);
      o.lines[6..] == Body(ctx, CreatedTable(), others, insts).lines
  {
    var o := Output(mode, header, insts, others);
    var ctx := Context(IdentifiersOf(insts).value, TypesOf(insts).value, mode);
    var body := Body(ctx, CreatedTable(), others, insts);
    assert o.lines == Banner(header) + body.lines;
  }

  /** A failing analysis writes nothing, not even the banner. */
  lemma AnalysisFailureWritesNothing(mode: IdMode, header: Header, insts: seq<ParsedInstruction>, others: Formatters.Others)
    requires IdentifiersOf(insts).Err? || TypesOf(insts).Err?
    ensures Output(mode, header, insts, others).lines == [] && Output(mode, header, insts, others).partial == ""
    ensures Output(mode, header, insts, others).failure ==
      Some(if IdentifiersOf(insts).Err? then IdentifiersOf(insts).error else TypesOf(insts).error)
  {
  }

  /** disassembleInstruction at the start of a line: the whole line, or the part of it written before a failure. */
  method DisassembleInstruction(writer: Writer, ctx: Context, table: Table, others: Formatters.Others, inst: ParsedInstruction)
    returns (failure: Option<Failure>)
    requires writer.current == ""
    modifies writer
    ensures var w := InstructionLine(ctx, table, others, inst);
      failure == w.failure
      && (failure.None? ==> writer.lines == old(writer.lines) + [w.text] && writer.current == "")
      && (failure.Some? ==> writer.lines == old(writer.lines) && writer.current == w.text)
  {
    var definition := ByOpCode(inst.opCode);
    if definition.None? {
      DisassembleRaw(inst, writer);
      return None;
    }
    var assignment := FormatAssignment(definition, inst.operands);
    var operands := FormatInstructionOperands(ctx, table, others, inst);
    failure := DisassembleRegistered(writer, inst.byteOffset, assignment, definition.value.SpirName(), operands);
  }

  /** The loop of disassemble: one line per instruction, until one fails. */
  method DisassembleBody(writer: Writer, ctx: Context, table: Table, others: Formatters.Others, instructions: seq<ParsedInstruction>)
    returns (failure: Option<Failure>)
    requires writer.current == ""
    modifies writer
    ensures var o := Body(ctx, table, others, instructions);
      writer.lines == old(writer.lines) + o.lines && writer.current == o.partial && failure == o.failure
  {
    ghost var start := writer.lines;
    ghost var ws := MapLines(LineOf(ctx, table, others), instructions);
    for i := 0 to |instructions|
      invariant writer.current == "" && Collect(ws[..i]).failure.None? && Collect(ws[..i]).partial == ""
      invariant writer.lines == start + Collect(ws[..i]).lines
    {
      CollectNext(start, ws, i, writer.lines);
      assert ws[i] == InstructionLine(ctx, table, others, instructions[i]);
      failure := DisassembleInstruction(writer, ctx, table, others, instructions[i]);
      if failure.Some? {
        CollectAfterFailure(ws, i + 1);
        return;
      }
    }
    CollectWhole(ws);
    failure := None;
  }

  /** disassemble: the analyses, then the banner and one line per instruction until one fails. */
  method Disassemble(mode: IdMode, header: Header, instructions: seq<ParsedInstruction>, others: Formatters.Others)
    returns (writer: Writer, failure: Option<Failure>)
    ensures var o := Output(mode, header, instructions, others);
      writer.lines == o.lines && writer.current == o.partial && failure == o.failure
  {
    writer := new Writer();
    var identifiers := Identifiers.Of(instructions);
    if identifiers.Err? {
      assert Output(mode, header, instructions, others) == Outcome([], "", Some(identifiers.error));
      return writer, Some(identifiers.error);
    }
    var types := Types.Of(instructions);
    if types.Err? {
      assert Output(mode, header, instructions, others) == Outcome([], "", Some(types.error));
      return writer, Some(types.error);
    }
    var context := Context(identifiers.value, types.value, mode);
    var table := CreatedTable();
    ghost var banner := Banner(header);
    ghost var body := Body(context, table, others, instructions);
    OutputAnalysed(mode, header, instructions, others);
    assert Output(mode, header, instructions, others) == Outcome(banner + body.lines, body.partial, body.failure);
    WriteBanner(writer, header);
    failure := DisassembleBody(writer, context, table, others, instructions);
  }
}

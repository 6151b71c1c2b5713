/**
 * SMOpDisassemblers: the fixed list of per-instruction formatters, collected
 * into a table keyed by the instruction each formatter is for, and the lookup
 * that picks a formatter for a parsed instruction, falling back to the raw
 * formatter.
 */
module OpDisassemblers {
  import opened Base
  import opened Failures
  import opened Registry
  import opened Instructions
  import opened ParserApi
  import opened DisassemblerContext
  import Formatters

  /** An SMDAbstractOpDisassembler: a formatter for the one instruction fixed when it is made. */
  datatype OpDisassembler = OpDisassembler(instruction: Op)

  /** What findDisassembler hands back: an instruction's own formatter, or SMRawDisassembler. */
  datatype Formatter = Raw | Specific(disassembler: OpDisassembler)

  /** The table from an instruction to its formatter. */
  type Table = map<Op, OpDisassembler>

  /** OP_DISASSEMBLERS: the 27 formatters, in the order they are listed. */
  const OP_DISASSEMBLERS: seq<OpDisassembler> := [
    OpDisassembler(OpAccessChain), OpDisassembler(OpCapability), OpDisassembler(OpCompositeConstruct),
    OpDisassembler(OpCompositeExtract), OpDisassembler(OpConstant), OpDisassembler(OpDecorate),
    OpDisassembler(OpEntryPoint), OpDisassembler(OpExtInstImport), OpDisassembler(OpFunction),
    OpDisassembler(OpFunctionEnd), OpDisassembler(OpLabel), OpDisassembler(OpLoad),
    OpDisassembler(OpMemberDecorate), OpDisassembler(OpMemberName), OpDisassembler(OpMemoryModel),
    OpDisassembler(OpName), OpDisassembler(OpReturn), OpDisassembler(OpSource),
    OpDisassembler(OpStore), OpDisassembler(OpTypeFloat), OpDisassembler(OpTypeFunction),
    OpDisassembler(OpTypeInt), OpDisassembler(OpTypePointer), OpDisassembler(OpTypeStruct),
    OpDisassembler(OpTypeVector), OpDisassembler(OpTypeVoid), OpDisassembler(OpVariable)]

  /** No two formatters of the list are for the same instruction. */
  predicate DistinctInstructions(ds: seq<OpDisassembler>)
  {
    forall i, j :: 0 <= i < j < |ds| ==> ds[i].instruction != ds[j].instruction
  }

  /** The instructions a list of formatters is for. */
  function InstructionsOf(ds: seq<OpDisassembler>): set<Op>
  {
    set i | 0 <= i < |ds| :: ds[i].instruction
  }

  /** collectToMap: Collectors.toMap keyed by instruction(), which fails on a second formatter for one key. */
  function CollectToMap(ds: seq<OpDisassembler>): Result<Table, Failure>
  {
    if ds == [] then Ok(map[])
    else
      match CollectToMap(ds[..|ds| - 1])
      case Err(f) => Err(f)
      case Ok(m) =>
        var d := ds[|ds| - 1];
        if d.instruction in m then Err(DuplicateKey) else Ok(m[d.instruction := d])
  }

  /** One formatter more: its instruction joins the ones before it. */
  lemma InstructionsOfLast(ds: seq<OpDisassembler>)
    requires ds != []
    ensures InstructionsOf(ds) == InstructionsOf(ds[..|ds| - 1]) + {ds[|ds| - 1].instruction}
  {
    var init := ds[..|ds| - 1];
    forall op | op in InstructionsOf(ds) ensures op in InstructionsOf(init) + {ds[|ds| - 1].instruction} {
      var i :| 0 <= i < |ds| && ds[i].instruction == op;
      if i < |init| {
        assert op == init[i].instruction;
      }
    }
    forall op | op in InstructionsOf(init) ensures op in InstructionsOf(ds) {
      var i :| 0 <= i < |init| && init[i].instruction == op;
      assert ds[i].instruction == op;
    }
  }

  /** Collecting succeeds exactly when the formatters are for distinct instructions. */
  lemma {:induction false} CollectToMapOk(ds: seq<OpDisassembler>)
    ensures CollectToMap(ds).Ok? <==> DistinctInstructions(ds)
    ensures CollectToMap(ds).Ok? ==> CollectToMap(ds).value.Keys == InstructionsOf(ds)
  {
    if ds != [] {
      var init := ds[..|ds| - 1];
      var d := ds[|ds| - 1];
      CollectToMapOk(init);
      InstructionsOfLast(ds);
      assert forall i :: 0 <= i < |init| ==> init[i] == ds[i];
      if CollectToMap(init).Ok? && DistinctInstructions(init) && d.instruction in CollectToMap(init).value {
        var i :| 0 <= i < |init| && init[i].instruction == d.instruction;
        assert ds[i].instruction == ds[|ds| - 1].instruction;
      }
    }
  }

  /** The collected table holds one entry per formatter, each under the instruction that formatter is for. */
  lemma {:induction false} CollectToMapEntries(ds: seq<OpDisassembler>)
    requires CollectToMap(ds).Ok?
    ensures |CollectToMap(ds).value| == |ds|
    ensures forall op :: op in CollectToMap(ds).value ==> CollectToMap(ds).value[op].instruction == op
  {
    if ds != [] {
      var init := ds[..|ds| - 1];
      CollectToMapEntries(init);
      var m := CollectToMap(init).value;
      assert CollectToMap(ds).value == m[ds[|ds| - 1].instruction := ds[|ds| - 1]];
    }
  }

  /** The position of each listed formatter's instruction in the list, and -1 for every other instruction. */
  function Position(op: Op): int
  {
    match op
    case OpAccessChain => 0        case OpCapability => 1       case OpCompositeConstruct => 2
    case OpCompositeExtract => 3   case OpConstant => 4         case OpDecorate => 5
    case OpEntryPoint => 6         case OpExtInstImport => 7    case OpFunction => 8
    case OpFunctionEnd => 9        case OpLabel => 10           case OpLoad => 11
    case OpMemberDecorate => 12    case OpMemberName => 13      case OpMemoryModel => 14
    case OpName => 15              case OpReturn => 16          case OpSource => 17
    case OpStore => 18             case OpTypeFloat => 19       case OpTypeFunction => 20
    case OpTypeInt => 21           case OpTypePointer => 22     case OpTypeStruct => 23
    case OpTypeVector => 24        case OpTypeVoid => 25        case OpVariable => 26
    case _ => -1
  }

  lemma PositionsFirst()
    ensures forall i :: 0 <= i < 9 ==> Position(OP_DISASSEMBLERS[i].instruction) == i
  {
  }

  lemma PositionsSecond()
    ensures forall i :: 9 <= i < 18 ==> Position(OP_DISASSEMBLERS[i].instruction) == i
  {
  }

  lemma PositionsThird()
    ensures forall i :: 18 <= i < |OP_DISASSEMBLERS| ==> Position(OP_DISASSEMBLERS[i].instruction) == i
  {
  }

  /** The 27 listed formatters are for 27 different instructions. */
  lemma ListedDistinct()
    ensures DistinctInstructions(OP_DISASSEMBLERS)
  {
    PositionsFirst();
    PositionsSecond();
    PositionsThird();
  }

  /** create: the table of the listed formatters. */
  function Create(): Result<Table, Failure>
  {
    CollectToMap(OP_DISASSEMBLERS)
  }

  /** create never fails: it gives a table of 27 formatters, each under its own instruction. */
  lemma CreateOk()
    ensures Create().Ok?
    ensures |Create().value| == 27
    ensures Create().value.Keys == InstructionsOf(OP_DISASSEMBLERS)
    ensures forall op :: op in Create().value ==> Create().value[op] == OpDisassembler(op)
  {
    ListedDistinct();
    CollectToMapOk(OP_DISASSEMBLERS);
    CollectToMapEntries(OP_DISASSEMBLERS);
  }

  /** A position in the list leads back to the instruction it was given for. */
  lemma PositionInverse(op: Op)
    ensures 0 <= Position(op) < 27 ==> OP_DISASSEMBLERS[Position(op)].instruction == op
  {
    match op
    case OpAccessChain =>
    case OpCapability =>
    case OpCompositeConstruct =>
    case OpCompositeExtract =>
    case OpConstant =>
    case OpDecorate =>
    case OpEntryPoint =>
    case OpExtInstImport =>
    case OpFunction =>
    case OpFunctionEnd =>
    case OpLabel =>
    case OpLoad =>
    case OpMemberDecorate =>
    case OpMemberName =>
    case OpMemoryModel =>
    case OpName =>
    case OpReturn =>
    case OpSource =>
    case OpStore =>
    case OpTypeFloat =>
    case OpTypeFunction =>
    case OpTypeInt =>
    case OpTypePointer =>
    case OpTypeStruct =>
    case OpTypeVector =>
    case OpTypeVoid =>
    case OpVariable =>
    case _ =>
  }

  /** A listed instruction is exactly one whose position is in the list. */
  lemma ListedIff(op: Op)
    ensures op in InstructionsOf(OP_DISASSEMBLERS) <==> 0 <= Position(op) < 27
  {
    PositionsFirst();
    PositionsSecond();
    PositionsThird();
    PositionInverse(op);
  }

  /** findDisassembler: the registered instruction's formatter when the table has one, the raw formatter otherwise. */
  function FindDisassembler(table: Table, inst: ParsedInstruction): (f: Formatter)
    ensures f.Specific? <==> ByOpCode(inst.opCode).Some? && ByOpCode(inst.opCode).value in table
    ensures f.Specific? ==> f.disassembler == table[ByOpCode(inst.opCode).value]
  {
    match ByOpCode(inst.opCode)
    case None => Raw
    case Some(i) => if i in table then Specific(table[i]) else Raw
  }

  /**
   * With the created table, an instruction gets a formatter of its own
   * exactly when its opcode is registered and listed, and that formatter is
   * for the very instruction the opcode names, so its opcode check passes.
   */
  lemma FoundFormatter(inst: ParsedInstruction)
    ensures Create().Ok?
    ensures var f := FindDisassembler(Create().value, inst);
      (f.Specific? <==> ByOpCode(inst.opCode).Some? && 0 <= Position(ByOpCode(inst.opCode).value) < 27)
      && (f.Specific? ==> f.disassembler.instruction == ByOpCode(inst.opCode).value
                          && f.disassembler.instruction.Value() == inst.opCode)
  {
    CreateOk();
    if ByOpCode(inst.opCode).Some? {
      ListedIff(ByOpCode(inst.opCode).value);
    }
  }

  /** An opcode no instruction has is formatted raw. */
  lemma UnregisteredIsRaw(table: Table, inst: ParsedInstruction)
    requires forall op: Op :: op.Value() != inst.opCode
    ensures FindDisassembler(table, inst) == Raw
  {
  }

  /** SMOpDisassemblerType.disassemble: the raw formatter's tokens, or the guarded formatter's. */
  function Format(f: Formatter, ctx: Context, inst: ParsedInstruction, others: Formatters.Others): (r: Formatters.Tokens)
    ensures f.Raw? ==> r == Ok(Formatters.RawTokens(inst.operands))
    ensures f.Specific? ==> r == Formatters.Disassemble(f.disassembler.instruction, ctx, inst, others)
  {
    match f
    case Raw => Ok(Formatters.RawTokens(inst.operands))
    case Specific(d) => Formatters.Disassemble(d.instruction, ctx, inst, others)
  }

  /** A formatter the created table hands out always passes the opcode check: only the count check stands before its tokens. */
  lemma FoundPassesOpcodeCheck(ctx: Context, inst: ParsedInstruction, others: Formatters.Others)
    ensures Create().Ok?
    ensures var f := FindDisassembler(Create().value, inst);
      f.Specific? ==> var op := f.disassembler.instruction;
        Format(f, ctx, inst, others) ==
          if |inst.operands| < op.MinimumOperandCount() then Err(TooFewOperands(op.MinimumOperandCount(), |inst.operands|))
          else Formatters.Actual(op, ctx, inst, others)
  {
    FoundFormatter(inst);
  }
}

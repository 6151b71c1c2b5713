/**
 * The per-opcode formatters: each turns a parsed instruction's operands into
 * the tokens printed after the mnemonic. SMDAbstractOpDisassembler guards
 * every formatter with an opcode check and an operand-count check;
 * SMRawDisassembler prints every operand as a decimal literal.
 *
 * Operands are read with List.get, which throws on a missing index; the
 * enumerations' ofInteger throws on an unknown value. Both are failures here.
 */
module Formatters {
  import opened Base
  import opened Text
  import opened Failures
  import opened Registry
  import opened Enumerations
  import opened ParserApi
  import opened DisassemblerContext
  import Formatting
  import Identifiers

  type Tokens = Result<seq<string>, Failure>

  /** The formatters of the opcodes not modelled one by one: a parameter of every disassembly. */
  type Others = (Op, Context, ParsedInstruction) -> Tokens

  /** The ids of a list of operands, written in order. */
  function IdStrings(ctx: Context, xs: seq<Word>): (r: seq<string>)
    ensures |r| == |xs| && forall k :: 0 <= k < |xs| ==> r[k] == IdString(ctx, xs[k])
  {
    seq(|xs|, k requires 0 <= k < |xs| => IdString(ctx, xs[k]))
  }

  /** One id more at the end of the list is one written id more. */
  lemma IdStringsNext(ctx: Context, xs: seq<Word>, i: nat)
    requires i < |xs|
    ensures IdStrings(ctx, xs[..i + 1]) == IdStrings(ctx, xs[..i]) + [IdString(ctx, xs[i])]
  {
    assert xs[..i + 1][..i] == xs[..i];
  }

  /** X.ofInteger(operand.intValue()).spirName(). */
  function Name(kind: EnumKind, operand: Word): Result<string, Failure>
  {
    EnumName(kind, IntValue(operand))
  }

  // ---------------------------------------------------------------- OpStore

  /** OpStore: pointer and object ids, then the memory access, "None" when it is absent. */
  function StoreTokens(ctx: Context, ops: seq<Word>): (r: Tokens)
    ensures |ops| < 2 ==> r == Err(MissingOperand(|ops|, |ops|))
    ensures r.Ok? ==> |r.value| == 3 && r.value[..2] == IdStrings(ctx, ops[..2])
    ensures |ops| == 2 ==> r.Ok? && r.value[2] == MemoryAccess.None.SpirName()
    ensures |ops| >= 3 ==> (r.Ok? <==> Name(EnumKind.MemoryAccessKind, ops[2]).Ok?)
    ensures |ops| >= 3 && r.Ok? ==> r.value[2] == Name(EnumKind.MemoryAccessKind, ops[2]).value
  {
    if |ops| == 0 then Err(MissingOperand(0, 0))
    else if |ops| == 1 then Err(MissingOperand(1, 1))
    else if |ops| >= 3 then
      match Name(EnumKind.MemoryAccessKind, ops[2])
      case Err(f) => Err(f)
      case Ok(access) => Ok([IdString(ctx, ops[0]), IdString(ctx, ops[1]), access])
    else Ok([IdString(ctx, ops[0]), IdString(ctx, ops[1]), MemoryAccess.None.SpirName()])
  }

  /** SMDOpStore.disassembleActual: append the tokens one by one. */
  method DisassembleStore(ctx: Context, ops: seq<Word>) returns (r: Tokens)
    ensures r == StoreTokens(ctx, ops)
  {
    var items: seq<string> := [];
    if |ops| == 0 {
      return Err(MissingOperand(0, 0));
    }
    items := items + [IdString(ctx, ops[0])];
    if |ops| == 1 {
      return Err(MissingOperand(1, 1));
    }
    items := items + [IdString(ctx, ops[1])];
    if |ops| >= 3 {
      var access: Result<string, Failure> := Name(EnumKind.MemoryAccessKind, ops[2]);
      if access.Err? {
        return Err(access.error);
      }
      items := items + [access.value];
      assert items == [IdString(ctx, ops[0]), IdString(ctx, ops[1]), access.value];
    } else {
      items := items + [MemoryAccess.None.SpirName()];
      assert items == [IdString(ctx, ops[0]), IdString(ctx, ops[1]), MemoryAccess.None.SpirName()];
    }
    return Ok(items);
  }

  /** Operands after the memory access are never read. */
  lemma StoreIgnoresRest(ctx: Context, ops: seq<Word>, extra: seq<Word>)
    requires |ops| >= 3
    ensures StoreTokens(ctx, ops + extra) == StoreTokens(ctx, ops)
  {
    assert (ops + extra)[..3] == ops[..3];
  }

  // ---------------------------------------------------- OpCompositeConstruct

  /** OpCompositeConstruct: the result type, then the constituents; the result id is skipped. */
  function CompositeConstructTokens(ctx: Context, ops: seq<Word>): (r: Tokens)
    ensures ops == [] ==> r == Err(MissingOperand(0, 0))
    ensures |ops| == 1 ==> r == Err(SliceStartPastEnd(2, 1))
    ensures |ops| >= 2 ==> r.Ok? && |r.value| == |ops| - 1
    ensures r.Ok? ==> r.value[0] == IdString(ctx, ops[0]) && r.value[1..] == IdStrings(ctx, ops[2..])
  {
    if |ops| == 0 then Err(MissingOperand(0, 0))
    else if |ops| < 2 then Err(SliceStartPastEnd(2, |ops|))
    else Ok([IdString(ctx, ops[0])] + IdStrings(ctx, ops[2..]))
  }

  /** SMDOpCompositeConstruct.disassembleActual: the result type, then a loop over the constituents. */
  method DisassembleCompositeConstruct(ctx: Context, ops: seq<Word>) returns (r: Tokens)
    ensures r == CompositeConstructTokens(ctx, ops)
  {
    if |ops| == 0 {
      return Err(MissingOperand(0, 0));
    }
    var items := [IdString(ctx, ops[0])];
    if |ops| < 2 {
      return Err(SliceStartPastEnd(2, |ops|));
    }
    var rest := ops[2..];
    for i := 0 to |rest|
      invariant items == [IdString(ctx, ops[0])] + IdStrings(ctx, rest[..i])
    {
      IdStringsNext(ctx, rest, i);
      items := items + [IdString(ctx, rest[i])];
    }
    assert rest[..|rest|] == rest;
    return Ok(items);
  }

  /** The result id of a composite is never written. */
  lemma CompositeConstructSkipsResult(ctx: Context, ops: seq<Word>, v: Word)
    requires |ops| >= 2
    ensures CompositeConstructTokens(ctx, ops[1 := v]) == CompositeConstructTokens(ctx, ops)
  {
    assert ops[1 := v][2..] == ops[2..];
  }

  // ------------------------------------------------------------ OpVariable

  /** OpVariable: the result type, the storage class, then the initializer when there is one. */
  function VariableTokens(ctx: Context, ops: seq<Word>): (r: Tokens)
    ensures ops == [] ==> r == Err(MissingOperand(0, 0))
    ensures 1 <= |ops| < 3 ==> r == Err(MissingOperand(2, |ops|))
    ensures |ops| >= 3 ==> (r.Ok? <==> Name(EnumKind.StorageClassKind, ops[2]).Ok?)
    ensures r.Ok? ==> |r.value| == (if |ops| >= 4 then 3 else 2)
    ensures r.Ok? ==> r.value[0] == IdString(ctx, ops[0]) && r.value[1] == Name(EnumKind.StorageClassKind, ops[2]).value
    ensures r.Ok? && |ops| >= 4 ==> r.value[2] == IdString(ctx, ops[3])
  {
    if |ops| == 0 then Err(MissingOperand(0, 0))
    else if |ops| < 3 then Err(MissingOperand(2, |ops|))
    else
      match Name(EnumKind.StorageClassKind, ops[2])
      case Err(f) => Err(f)
      case Ok(storage) =>
        Ok([IdString(ctx, ops[0]), storage] + (if |ops| >= 4 then [IdString(ctx, ops[3])] else []))
  }

  /** SMDOpVariable.disassembleActual: append the tokens, the initializer only when present. */
  method DisassembleVariable(ctx: Context, ops: seq<Word>) returns (r: Tokens)
    ensures r == VariableTokens(ctx, ops)
  {
    if |ops| == 0 {
      return Err(MissingOperand(0, 0));
    }
    var items := [IdString(ctx, ops[0])];
    if |ops| < 3 {
      return Err(MissingOperand(2, |ops|));
    }
    var storage: Result<string, Failure> := Name(EnumKind.StorageClassKind, ops[2]);
    if storage.Err? {
      return Err(storage.error);
    }
    items := items + [storage.value];
    assert items == [IdString(ctx, ops[0]), storage.value];
    if |ops| >= 4 {
      items := items + [IdString(ctx, ops[3])];
    }
    assert items == [IdString(ctx, ops[0]), storage.value] + (if |ops| >= 4 then [IdString(ctx, ops[3])] else []);
    return Ok(items);
  }

  /** Neither the result id nor anything after the initializer is written. */
  lemma VariableIgnores(ctx: Context, ops: seq<Word>, v: Word, extra: seq<Word>)
    requires |ops| >= 4
    ensures VariableTokens(ctx, ops[1 := v] + extra) == VariableTokens(ctx, ops)
  {
    var p := ops[1 := v] + extra;
    assert p[0] == ops[0] && p[2] == ops[2] && p[3] == ops[3];
  }

  // --------------------------------------------------------- OpMemoryModel

  /** OpMemoryModel: the addressing model and the memory model; the context is not consulted. */
  function MemoryModelTokens(ops: seq<Word>): (r: Tokens)
    ensures r.Ok? <==> |ops| >= 2 && Name(EnumKind.AddressingModelKind, ops[0]).Ok? && Name(EnumKind.MemoryModelKind, ops[1]).Ok?
    ensures r.Ok? ==> r.value == [Name(EnumKind.AddressingModelKind, ops[0]).value, Name(EnumKind.MemoryModelKind, ops[1]).value]
    ensures ops == [] ==> r == Err(MissingOperand(0, 0))
    ensures |ops| == 1 && Name(EnumKind.AddressingModelKind, ops[0]).Ok? ==> r == Err(MissingOperand(1, 1))
  {
    if |ops| == 0 then Err(MissingOperand(0, 0))
    else
      match Name(EnumKind.AddressingModelKind, ops[0])
      case Err(f) => Err(f)
      case Ok(addressing) =>
        if |ops| < 2 then Err(MissingOperand(1, |ops|))
        else
          match Name(EnumKind.MemoryModelKind, ops[1])
          case Err(f) => Err(f)
          case Ok(memory) => Ok([addressing, memory])
  }

  // ------------------------------------------------------------ OpFunction

  /** OpFunction: the result type, the function control and the function type; the result id is skipped. */
  function FunctionTokens(ctx: Context, ops: seq<Word>): (r: Tokens)
    ensures r.Ok? <==> |ops| >= 4 && Name(EnumKind.FunctionControlKind, ops[2]).Ok?
    ensures r.Ok? ==> r.value == [IdString(ctx, ops[0]), Name(EnumKind.FunctionControlKind, ops[2]).value, IdString(ctx, ops[3])]
    ensures |ops| < 3 ==> r == Err(MissingOperand(if ops == [] then 0 else 2, |ops|))
    ensures |ops| == 3 && Name(EnumKind.FunctionControlKind, ops[2]).Ok? ==> r == Err(MissingOperand(3, 3))
  {
    if |ops| == 0 then Err(MissingOperand(0, 0))
    else if |ops| < 3 then Err(MissingOperand(2, |ops|))
    else
      match Name(EnumKind.FunctionControlKind, ops[2])
      case Err(f) => Err(f)
      case Ok(control) =>
        if |ops| < 4 then Err(MissingOperand(3, |ops|))
        else Ok([IdString(ctx, ops[0]), control, IdString(ctx, ops[3])])
  }

  // ---------------------------------------------------------- OpCapability

  /** OpCapability: the capability's name; later operands are ignored. */
  function CapabilityTokens(ops: seq<Word>): (r: Tokens)
    ensures ops == [] ==> r == Err(MissingOperand(0, 0))
    ensures ops != [] ==> (r.Ok? <==> Name(EnumKind.CapabilityKind, ops[0]).Ok?)
    ensures ops != [] && r.Ok? ==> r.value == [Name(EnumKind.CapabilityKind, ops[0]).value]
    ensures ops != [] && r.Err? ==> r.error == UnknownEnumValue(IntValue(ops[0]))
  {
    if |ops| == 0 then Err(MissingOperand(0, 0))
    else
      match Name(EnumKind.CapabilityKind, ops[0])
      case Err(f) => Err(f)
      case Ok(capability) => Ok([capability])
  }

  // -------------------------------------------------------- OpTypeFunction

  /** OpTypeFunction: every operand after the result id, as an id; it never fails. */
  function TypeFunctionTokens(ctx: Context, ops: seq<Word>): (r: seq<string>)
    ensures |r| == if ops == [] then 0 else |ops| - 1
    ensures forall k :: 1 <= k < |ops| ==> r[k - 1] == IdString(ctx, ops[k])
  {
    if ops == [] then [] else IdStrings(ctx, ops[1..])
  }

  // ----------------------------------------------------------- OpTypeFloat

  /** OpTypeFloat: the width, as a literal. */
  function TypeFloatTokens(ops: seq<Word>): (r: Tokens)
    ensures |ops| < 2 ==> r == Err(MissingOperand(1, |ops|))
    ensures |ops| >= 2 ==> r == Ok([Formatting.Literal(ops[1])])
  {
    if |ops| < 2 then Err(MissingOperand(1, |ops|)) else Ok([Formatting.Literal(ops[1])])
  }

  // ------------------------------------------------------------------ raw

  /** SMRawDisassembler: every operand as its unsigned decimal literal, in order; no check, no failure. */
  function RawTokens(ops: seq<Word>): (r: seq<string>)
    ensures |r| == |ops|
  {
    seq(|ops|, k requires 0 <= k < |ops| => Formatting.Literal(ops[k]))
  }

  /** Each raw token is "$" and digits denoting the operand at the same position. */
  lemma RawTokensMeaning(ops: seq<Word>, k: nat)
    requires k < |ops|
    ensures var t := RawTokens(ops)[k];
      |t| >= 2 && t[0] == '$' && IsDigits(t[1..]) && DigitsValue(t[1..]) == ops[k] && '-' !in t
  {
    Formatting.LiteralWord(ops[k]);
  }

  // ---------------------------------------------------------------- guard

  /** The instructions whose formatters are modelled here. */
  predicate Modelled(op: Op)
  {
    op in {OpStore, OpCompositeConstruct, OpVariable, OpMemoryModel, OpFunction, OpCapability, OpTypeFunction, OpTypeFloat}
  }

  /** disassembleActual of the formatter for `op`. */
  function Actual(op: Op, ctx: Context, inst: ParsedInstruction, others: Others): Tokens
  {
    var ops := inst.operands;
    match op
    case OpStore => StoreTokens(ctx, ops)
    case OpCompositeConstruct => CompositeConstructTokens(ctx, ops)
    case OpVariable => VariableTokens(ctx, ops)
    case OpMemoryModel => MemoryModelTokens(ops)
    case OpFunction => FunctionTokens(ctx, ops)
    case OpCapability => CapabilityTokens(ops)
    case OpTypeFunction => Ok(TypeFunctionTokens(ctx, ops))
    case OpTypeFloat => TypeFloatTokens(ops)
    case _ => others(op, ctx, inst)
  }

  /** The opcode-mismatch failure as SMDAbstractOpDisassembler writes it: the parsed opcode comes first. */
  function MismatchAsWritten(op: Op, parsed: nat): (f: Failure)
    ensures f.OpcodeMismatch? && f.expected == parsed && f.received == op.Value()
  {
    OpcodeMismatch(parsed, op.Value())
  }

  /** An OpStore formatter handed opcode 61 reports that it expected 61 and received 62. */
  lemma MismatchAsWrittenSwapped()
    ensures MismatchAsWritten(OpStore, OpLoad.Value()) == OpcodeMismatch(61, 62)
  {
  }

  /** The opcode-mismatch failure as its message means it: the formatter's opcode was expected. */
  function Mismatch(op: Op, parsed: nat): (f: Failure)
    ensures f.OpcodeMismatch? && f.expected == op.Value() && f.received == parsed
  {
    OpcodeMismatch(op.Value(), parsed)
  }

  /**
   * SMDAbstractOpDisassembler.disassemble: the opcode must be the formatter's,
   * then there must be at least the instruction's minimum operand count, and
   * only then are tokens produced. A foreign opcode is reported with the
   * message's arguments in the order the source passes them.
   */
  function Disassemble(op: Op, ctx: Context, inst: ParsedInstruction, others: Others): (r: Tokens)
    ensures inst.opCode != op.Value() ==> r == Err(MismatchAsWritten(op, inst.opCode))
    ensures inst.opCode == op.Value() && |inst.operands| < op.MinimumOperandCount() ==>
      r == Err(TooFewOperands(op.MinimumOperandCount(), |inst.operands|))
    ensures inst.opCode == op.Value() && |inst.operands| >= op.MinimumOperandCount() ==> r == Actual(op, ctx, inst, others)
  {
    if inst.opCode != op.Value() then Err(MismatchAsWritten(op, inst.opCode))
    else if |inst.operands| < op.MinimumOperandCount() then Err(TooFewOperands(op.MinimumOperandCount(), |inst.operands|))
    else Actual(op, ctx, inst, others)
  }

  /** The same guard with the mismatch failure corrected: the formatter's opcode is the expected one. */
  function DisassembleCorrected(op: Op, ctx: Context, inst: ParsedInstruction, others: Others): (r: Tokens)
    ensures inst.opCode != op.Value() ==> r == Err(Mismatch(op, inst.opCode))
    ensures inst.opCode == op.Value() && |inst.operands| < op.MinimumOperandCount() ==>
      r == Err(TooFewOperands(op.MinimumOperandCount(), |inst.operands|))
    ensures inst.opCode == op.Value() && |inst.operands| >= op.MinimumOperandCount() ==> r == Actual(op, ctx, inst, others)
  {
    if inst.opCode != op.Value() then Err(Mismatch(op, inst.opCode))
    else if |inst.operands| < op.MinimumOperandCount() then Err(TooFewOperands(op.MinimumOperandCount(), |inst.operands|))
    else Actual(op, ctx, inst, others)
  }

  /**
   * The code as written and the corrected guard give the same result on every
   * instruction whose opcode is the formatter's; on any other they fail with
   * the same two opcodes in swapped roles.
   */
  lemma DisassembleCorrectedAgrees(op: Op, ctx: Context, inst: ParsedInstruction, others: Others)
    ensures inst.opCode == op.Value() ==> Disassemble(op, ctx, inst, others) == DisassembleCorrected(op, ctx, inst, others)
    ensures inst.opCode != op.Value() ==>
      var w := Disassemble(op, ctx, inst, others);
      var c := DisassembleCorrected(op, ctx, inst, others);
      w.Err? && c.Err? && w.error.OpcodeMismatch? && c.error.OpcodeMismatch? &&
      w.error.expected == c.error.received && w.error.received == c.error.expected &&
      w != c
  {
  }

  /**
   * Past the guard, no modelled formatter reads a missing operand: its only
   * possible failure is an enumeration value it does not know.
   */
  lemma GuardedNeverMissing(op: Op, ctx: Context, inst: ParsedInstruction, others: Others)
    requires Modelled(op)
    ensures var r := Disassemble(op, ctx, inst, others);
      r.Err? ==> r.error.OpcodeMismatch? || r.error.TooFewOperands? || r.error.UnknownEnumValue?
  {
    if inst.opCode == op.Value() && |inst.operands| >= op.MinimumOperandCount() {
      MinimumCount(op);
      ActualNeverMissing(op, ctx, inst, others);
    }
  }

  /** The minimum operand counts of the modelled instructions, read off their operand lists. */
  lemma MinimumCount(op: Op)
    requires Modelled(op)
    ensures op.MinimumOperandCount() == match op
      case OpVariable => 3
      case OpFunction => 4
      case OpCapability => 1
      case _ => 2
  {
    match op
    case OpStore => StoreMinimum();
    case OpCompositeConstruct => CompositeConstructMinimum();
    case OpVariable => VariableMinimum();
    case OpMemoryModel => MemoryModelMinimum();
    case OpFunction => FunctionMinimum();
    case OpCapability => CapabilityMinimum();
    case OpTypeFunction => TypeFunctionMinimum();
    case OpTypeFloat => TypeFloatMinimum();
  }

  lemma StoreMinimum()
    ensures OpStore.MinimumOperandCount() == 2
  {
    var ops := OpStore.Operands();
    assert |ops| == 3 && ops[0].quantifier == One && ops[1].quantifier == One && ops[2].quantifier == Optional;
  }

  lemma CompositeConstructMinimum()
    ensures OpCompositeConstruct.MinimumOperandCount() == 2
  {
    var ops := OpCompositeConstruct.Operands();
    assert |ops| == 3 && ops[0].quantifier == One && ops[1].quantifier == One && ops[2].quantifier == Repeated;
  }

  lemma VariableMinimum()
    ensures OpVariable.MinimumOperandCount() == 3
  {
    var ops := OpVariable.Operands();
    assert |ops| == 4 && ops[0].quantifier == One && ops[1].quantifier == One && ops[2].quantifier == One && ops[3].quantifier == Optional;
  }

  lemma MemoryModelMinimum()
    ensures OpMemoryModel.MinimumOperandCount() == 2
  {
    var ops := OpMemoryModel.Operands();
    assert |ops| == 2 && ops[0].quantifier == One && ops[1].quantifier == One;
  }

  lemma FunctionMinimum()
    ensures OpFunction.MinimumOperandCount() == 4
  {
    var ops := OpFunction.Operands();
    assert |ops| == 4 && ops[0].quantifier == One && ops[1].quantifier == One && ops[2].quantifier == One && ops[3].quantifier == One;
  }

  lemma CapabilityMinimum()
    ensures OpCapability.MinimumOperandCount() == 1
  {
    var ops := OpCapability.Operands();
    assert |ops| == 1 && ops[0].quantifier == One;
  }

  lemma TypeFunctionMinimum()
    ensures OpTypeFunction.MinimumOperandCount() == 2
  {
    var ops := OpTypeFunction.Operands();
    assert |ops| == 3 && ops[0].quantifier == One && ops[1].quantifier == One && ops[2].quantifier == Repeated;
  }

  lemma TypeFloatMinimum()
    ensures OpTypeFloat.MinimumOperandCount() == 2
  {
    var ops := OpTypeFloat.Operands();
    assert |ops| == 2 && ops[0].quantifier == One && ops[1].quantifier == One;
  }

  /** With the minimum operand count present, a modelled formatter fails only on an unknown enumeration value. */
  lemma ActualNeverMissing(op: Op, ctx: Context, inst: ParsedInstruction, others: Others)
    requires Modelled(op)
    requires |inst.operands| >= match op
      case OpVariable => 3
      case OpFunction => 4
      case OpCapability => 1
      case _ => 2
    ensures var r := Actual(op, ctx, inst, others); r.Err? ==> r.error.UnknownEnumValue?
  {
  }

  // ------------------------------------------------------------- examples

  /** A context that writes ids by number, as the formatter tests' context does. */
  const NUMERIC: Context := Context(Identifiers.EMPTY, map[], RawNumeric)
}

/**
 * The formatter examples of the disassembler's test suite, each run through
 * the opcode and operand-count guard with a context that writes ids by number.
 */
module FormatterExamples {
  import opened Base
  import opened Text
  import opened Failures
  import opened Registry
  import opened Enumerations
  import opened ParserApi
  import opened Formatters
  import Formatting
  import DisassemblerContext

  /** The formatters of the other opcodes do not matter here. */
  const NO_OTHERS: Others := (op: Op, ctx: DisassemblerContext.Context, inst: ParsedInstruction) => Ok([])

  /** An instruction as the tests build it: the word count is the operand count. */
  function TestInstruction(op: Op, operands: seq<Word>): ParsedInstruction
  {
    ParsedInstruction(op.Value(), |operands|, operands, 0)
  }

  function Run(op: Op, operands: seq<Word>): Tokens
  {
    Disassemble(op, NUMERIC, TestInstruction(op, operands), NO_OTHERS)
  }

  /** A one- or two-digit id as the examples print it by number. */
  lemma Id(x: Word, s: string)
    requires (x < 10 && s == ['%', DigitChar(x)]) || (10 <= x < 100 && s == ['%', DigitChar(x / 10), DigitChar(x % 10)])
    ensures DisassemblerContext.IdString(NUMERIC, x) == s
  {
    if x >= 10 {
      assert NatToString(x / 10) == [DigitChar(x / 10)];
    }
  }

  /** Past the guard, a modelled formatter's own tokens. */
  lemma RunIsActual(op: Op, operands: seq<Word>)
    requires Modelled(op)
    requires |operands| >= match op
      case OpVariable => 3
      case OpFunction => 4
      case OpCapability => 1
      case _ => 2
    ensures Run(op, operands) == Actual(op, NUMERIC, TestInstruction(op, operands), NO_OTHERS)
  {
    MinimumCount(op);
  }

  /** The tokens of OpCompositeConstruct 13 0 17 23: the result type, then the constituents. */
  lemma CompositeConstructTokensExample()
    ensures CompositeConstructTokens(NUMERIC, [13, 0, 17, 23]) == Ok(["%13", "%17", "%23"])
  {
    var ops: seq<Word> := [13, 0, 17, 23];
    assert ops[2..] == [17, 23];
    Id(13, "%13");
    Id(17, "%17");
    Id(23, "%23");
    var r := IdStrings(NUMERIC, ops[2..]);
    assert r == ["%17", "%23"] by {
      assert r[0] == "%17" && r[1] == "%23";
    }
    assert ["%13"] + r == ["%13", "%17", "%23"];
  }

  /** OpCompositeConstruct 13 0 17 23 gives %13 %17 %23. */
  lemma CompositeConstructExample()
    ensures Run(OpCompositeConstruct, [13, 0, 17, 23]) == Ok(["%13", "%17", "%23"])
  {
    CompositeConstructTokensExample();
    RunIsActual(OpCompositeConstruct, [13, 0, 17, 23]);
    assert Actual(OpCompositeConstruct, NUMERIC, TestInstruction(OpCompositeConstruct, [13, 0, 17, 23]), NO_OTHERS)
        == CompositeConstructTokens(NUMERIC, [13, 0, 17, 23]);
  }

  /** The tokens of OpVariable 14 0 Output, without and with the initializer 33. */
  lemma VariableTokensExamples()
    ensures VariableTokens(NUMERIC, [14, 0, 3]) == Ok(["%14", "Output"])
    ensures VariableTokens(NUMERIC, [14, 0, 3, 33]) == Ok(["%14", "Output", "%33"])
  {
    assert StorageClassOfInteger(3) == Ok(StorageClass.Output);
    assert Name(EnumKind.StorageClassKind, 3) == Ok("Output");
    Id(14, "%14");
    Id(33, "%33");
    assert ["%14", "Output"] + [] == ["%14", "Output"];
    assert ["%14", "Output"] + ["%33"] == ["%14", "Output", "%33"];
  }

  /** OpVariable 14 0 Output gives %14 Output; with an initializer 33 it adds %33. */
  lemma VariableExamples()
    ensures Run(OpVariable, [14, 0, StorageClass.Output.Value()]) == Ok(["%14", "Output"])
    ensures Run(OpVariable, [14, 0, StorageClass.Output.Value(), 33]) == Ok(["%14", "Output", "%33"])
  {
    VariableTokensExamples();
    assert StorageClass.Output.Value() == 3;
    RunIsActual(OpVariable, [14, 0, 3]);
    assert Actual(OpVariable, NUMERIC, TestInstruction(OpVariable, [14, 0, 3]), NO_OTHERS) == VariableTokens(NUMERIC, [14, 0, 3]);
    RunIsActual(OpVariable, [14, 0, 3, 33]);
    assert Actual(OpVariable, NUMERIC, TestInstruction(OpVariable, [14, 0, 3, 33]), NO_OTHERS) == VariableTokens(NUMERIC, [14, 0, 3, 33]);
  }

  /** OpMemoryModel Logical GLSL450 gives Logical GLSL450. */
  lemma MemoryModelExample()
    ensures Run(OpMemoryModel, [AddressingModel.Logical.Value(), MemoryModel.GLSL450.Value()]) == Ok(["Logical", "GLSL450"])
  {
    RunIsActual(OpMemoryModel, [0, 1]);
  }

  /** The tokens of OpFunction 13 0 Const 17. */
  lemma FunctionTokensExample()
    ensures FunctionTokens(NUMERIC, [13, 0, 8, 17]) == Ok(["%13", "Const", "%17"])
  {
    assert FunctionControlOfInteger(8) == Ok(FunctionControl.Const);
    assert Name(EnumKind.FunctionControlKind, 8) == Ok("Const");
    Id(13, "%13");
    Id(17, "%17");
  }

  /** OpFunction 13 0 Const 17 gives %13 Const %17. */
  lemma FunctionExample()
    ensures Run(OpFunction, [13, 0, FunctionControl.Const.Value(), 17]) == Ok(["%13", "Const", "%17"])
  {
    FunctionTokensExample();
    assert FunctionControl.Const.Value() == 8;
    RunIsActual(OpFunction, [13, 0, 8, 17]);
    assert Actual(OpFunction, NUMERIC, TestInstruction(OpFunction, [13, 0, 8, 17]), NO_OTHERS) == FunctionTokens(NUMERIC, [13, 0, 8, 17]);
  }

  /** OpCapability Shader gives Shader; a value no capability has fails. */
  lemma CapabilityExamples()
    ensures Run(OpCapability, [Capability.Shader.Value()]) == Ok(["Shader"])
    ensures Run(OpCapability, [0x7fff_ffff]) == Err(UnknownEnumValue(0x7fff_ffff))
  {
    MaxValueUnknown(EnumKind.CapabilityKind);
    RunIsActual(OpCapability, [1]);
    RunIsActual(OpCapability, [0x7fff_ffff]);
  }

  /** The tokens of OpTypeFloat 0 32: the width as a literal. */
  lemma TypeFloatTokensExample()
    ensures TypeFloatTokens([0, 32]) == Ok(["$32"])
  {
    assert NatToString(32) == "32";
    assert Formatting.Literal(32) == "$32";
  }

  /** OpTypeFloat 0 32 gives $32. */
  lemma TypeFloatExample()
    ensures Run(OpTypeFloat, [0, 32]) == Ok(["$32"])
  {
    TypeFloatTokensExample();
    RunIsActual(OpTypeFloat, [0, 32]);
  }

  /** The tokens of OpStore 3 5 Aligned, and of OpStore 3 5. */
  lemma StoreTokensExamples()
    ensures StoreTokens(NUMERIC, [3, 5, 2]) == Ok(["%3", "%5", "Aligned"])
    ensures StoreTokens(NUMERIC, [3, 5]) == Ok(["%3", "%5", "None"])
  {
    assert MemoryAccessOfInteger(2) == Ok(MemoryAccess.Aligned);
    assert Name(EnumKind.MemoryAccessKind, 2) == Ok("Aligned");
    Id(3, "%3");
    Id(5, "%5");
  }

  /** OpStore 3 5 Aligned gives %3 %5 Aligned, and without the memory access %3 %5 None. */
  lemma StoreExamples()
    ensures Run(OpStore, [3, 5, MemoryAccess.Aligned.Value()]) == Ok(["%3", "%5", "Aligned"])
    ensures Run(OpStore, [3, 5]) == Ok(["%3", "%5", "None"])
  {
    StoreTokensExamples();
    assert MemoryAccess.Aligned.Value() == 2;
    RunIsActual(OpStore, [3, 5, 2]);
    assert Actual(OpStore, NUMERIC, TestInstruction(OpStore, [3, 5, 2]), NO_OTHERS) == StoreTokens(NUMERIC, [3, 5, 2]);
    RunIsActual(OpStore, [3, 5]);
    assert Actual(OpStore, NUMERIC, TestInstruction(OpStore, [3, 5]), NO_OTHERS) == StoreTokens(NUMERIC, [3, 5]);
  }

  /**
   * A formatter handed another opcode fails before producing anything; as
   * written, the parsed opcode 61 is reported as the expected one.
   */
  lemma MismatchExample()
    ensures Disassemble(OpStore, NUMERIC, TestInstruction(OpLoad, [3, 5]), NO_OTHERS) == Err(OpcodeMismatch(61, 62))
  {
    assert OpLoad.Value() == 61 && OpStore.Value() == 62;
  }

  /** The corrected guard reports the formatter's opcode 62 as expected and the parsed 61 as received. */
  lemma MismatchCorrectedExample()
    ensures DisassembleCorrected(OpStore, NUMERIC, TestInstruction(OpLoad, [3, 5]), NO_OTHERS) == Err(OpcodeMismatch(62, 61))
  {
    assert OpLoad.Value() == 61 && OpStore.Value() == 62;
  }

  /** A formatter handed too few operands fails before producing anything. */
  lemma TooFewExample()
    ensures Run(OpFunction, [13, 0]) == Err(TooFewOperands(4, 2))
  {
    FunctionMinimum();
  }
}

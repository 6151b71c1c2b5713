/**
 * The generated SPIR-V tables the disassembler consults: the SMInstruction
 * enumeration (opcode, SPIR-V name, operand list, minimum operand count) and
 * the value enumerations of the operand kinds, with their ofInteger lookups.
 * The model carries the part of the SPIR-V grammar these tables are
 * generated from that the formatters of this model need.
 */
module Registry {
  import opened Base

  /** SMOperandKind: the kind of an operand in the grammar. */
  datatype OperandKind =
    | IdResultType | IdResult | IdRef
    | LiteralInteger | LiteralString | LiteralContextDependentNumber | LiteralExtInstInteger
    | SourceLanguageKind | AddressingModelKind | MemoryModelKind | ExecutionModelKind
    | ExecutionModeKind | CapabilityKind | StorageClassKind | FunctionControlKind
    | MemoryAccessKind | DecorationKind

  /** SMOperandQuantifier. */
  datatype Quantifier = One | Optional | Repeated

  /** SMOperand: one operand of an instruction's definition. */
  datatype OperandDef = OperandDef(kind: OperandKind, quantifier: Quantifier, name: string)

  /** The constants of the SMInstruction enumeration, in declaration (grammar) order. */
  datatype Op =
    | OpNop | OpUndef | OpSourceContinued | OpSource | OpSourceExtension | OpName
    | OpMemberName | OpString | OpLine | OpExtension | OpExtInstImport | OpExtInst
    | OpMemoryModel | OpEntryPoint | OpExecutionMode | OpCapability | OpTypeVoid
    | OpTypeBool | OpTypeInt | OpTypeFloat | OpTypeVector | OpTypeArray | OpTypeStruct
    | OpTypePointer | OpTypeFunction | OpConstantTrue | OpConstant | OpConstantComposite
    | OpFunction | OpFunctionParameter | OpFunctionEnd | OpFunctionCall | OpVariable
    | OpLoad | OpStore | OpAccessChain | OpDecorate | OpMemberDecorate
    | OpCompositeConstruct | OpCompositeExtract | OpFAdd | OpLabel | OpBranch
    | OpReturn | OpReturnValue | OpDecorateString | OpDecorateStringGOOGLE
  {
    /** value(): the opcode. */
    function Value(): (v: nat)
      ensures v < 0x1_0000
    {
      match this
      case OpNop => 0
      case OpUndef => 1
      case OpSourceContinued => 2
      case OpSource => 3
      case OpSourceExtension => 4
      case OpName => 5
      case OpMemberName => 6
      case OpString => 7
      case OpLine => 8
      case OpExtension => 10
      case OpExtInstImport => 11
      case OpExtInst => 12
      case OpMemoryModel => 14
      case OpEntryPoint => 15
      case OpExecutionMode => 16
      case OpCapability => 17
      case OpTypeVoid => 19
      case OpTypeBool => 20
      case OpTypeInt => 21
      case OpTypeFloat => 22
      case OpTypeVector => 23
      case OpTypeArray => 28
      case OpTypeStruct => 30
      case OpTypePointer => 32
      case OpTypeFunction => 33
      case OpConstantTrue => 41
      case OpConstant => 43
      case OpConstantComposite => 44
      case OpFunction => 54
      case OpFunctionParameter => 55
      case OpFunctionEnd => 56
      case OpFunctionCall => 57
      case OpVariable => 59
      case OpLoad => 61
      case OpStore => 62
      case OpAccessChain => 65
      case OpDecorate => 71
      case OpMemberDecorate => 72
      case OpCompositeConstruct => 80
      case OpCompositeExtract => 81
      case OpFAdd => 129
      case OpLabel => 248
      case OpBranch => 249
      case OpReturn => 253
      case OpReturnValue => 254
      case OpDecorateString => 5632
      case OpDecorateStringGOOGLE => 5632
    }

    /** spirName(): the instruction's name in the SPIR-V grammar. */
    function SpirName(): string
    {
      match this
      case OpNop => "OpNop"
      case OpUndef => "OpUndef"
      case OpSourceContinued => "OpSourceContinued"
      case OpSource => "OpSource"
      case OpSourceExtension => "OpSourceExtension"
      case OpName => "OpName"
      case OpMemberName => "OpMemberName"
      case OpString => "OpString"
      case OpLine => "OpLine"
      case OpExtension => "OpExtension"
      case OpExtInstImport => "OpExtInstImport"
      case OpExtInst => "OpExtInst"
      case OpMemoryModel => "OpMemoryModel"
      case OpEntryPoint => "OpEntryPoint"
      case OpExecutionMode => "OpExecutionMode"
      case OpCapability => "OpCapability"
      case OpTypeVoid => "OpTypeVoid"
      case OpTypeBool => "OpTypeBool"
      case OpTypeInt => "OpTypeInt"
      case OpTypeFloat => "OpTypeFloat"
      case OpTypeVector => "OpTypeVector"
      case OpTypeArray => "OpTypeArray"
      case OpTypeStruct => "OpTypeStruct"
      case OpTypePointer => "OpTypePointer"
      case OpTypeFunction => "OpTypeFunction"
      case OpConstantTrue => "OpConstantTrue"
      case OpConstant => "OpConstant"
      case OpConstantComposite => "OpConstantComposite"
      case OpFunction => "OpFunction"
      case OpFunctionParameter => "OpFunctionParameter"
      case OpFunctionEnd => "OpFunctionEnd"
      case OpFunctionCall => "OpFunctionCall"
      case OpVariable => "OpVariable"
      case OpLoad => "OpLoad"
      case OpStore => "OpStore"
      case OpAccessChain => "OpAccessChain"
      case OpDecorate => "OpDecorate"
      case OpMemberDecorate => "OpMemberDecorate"
      case OpCompositeConstruct => "OpCompositeConstruct"
      case OpCompositeExtract => "OpCompositeExtract"
      case OpFAdd => "OpFAdd"
      case OpLabel => "OpLabel"
      case OpBranch => "OpBranch"
      case OpReturn => "OpReturn"
      case OpReturnValue => "OpReturnValue"
      case OpDecorateString => "OpDecorateString"
      case OpDecorateStringGOOGLE => "OpDecorateStringGOOGLE"
    }

    /** operands(): the operand list of the instruction's definition. */
    function Operands(): seq<OperandDef>
    {
      match this
      case OpNop => []
      case OpUndef => [Ty(), Res()]
      case OpSourceContinued => [Req(LiteralString, "Continued Source")]
      case OpSource =>
        [Req(SourceLanguageKind, ""), Req(LiteralInteger, "Version"),
         Opt(IdRef, "File"), Opt(LiteralString, "Source")]
      case OpSourceExtension => [Req(LiteralString, "Extension")]
      case OpName => [Req(IdRef, "Target"), Req(LiteralString, "Name")]
      case OpMemberName => [Req(IdRef, "Type"), Req(LiteralInteger, "Member"), Req(LiteralString, "Name")]
      case OpString => [Res(), Req(LiteralString, "String")]
      case OpLine => [Req(IdRef, "File"), Req(LiteralInteger, "Line"), Req(LiteralInteger, "Column")]
      case OpExtension => [Req(LiteralString, "Name")]
      case OpExtInstImport => [Res(), Req(LiteralString, "Name")]
      case OpExtInst =>
        [Ty(), Res(), Req(IdRef, "Set"), Req(LiteralExtInstInteger, "Instruction"),
         Many(IdRef, "Operand 1, +\nOperand 2, +\n...")]
      case OpMemoryModel => [Req(AddressingModelKind, ""), Req(MemoryModelKind, "")]
      case OpEntryPoint =>
        [Req(ExecutionModelKind, ""), Req(IdRef, "Entry Point"), Req(LiteralString, "Name"),
         Many(IdRef, "Interface")]
      case OpExecutionMode => [Req(IdRef, "Entry Point"), Req(ExecutionModeKind, "Mode")]
      case OpCapability => [Req(CapabilityKind, "Capability")]
      case OpTypeVoid => [Res()]
      case OpTypeBool => [Res()]
      case OpTypeInt => [Res(), Req(LiteralInteger, "Width"), Req(LiteralInteger, "Signedness")]
      case OpTypeFloat => [Res(), Req(LiteralInteger, "Width")]
      case OpTypeVector => [Res(), Req(IdRef, "Component Type"), Req(LiteralInteger, "Component Count")]
      case OpTypeArray => [Res(), Req(IdRef, "Element Type"), Req(IdRef, "Length")]
      case OpTypeStruct => [Res(), Many(IdRef, "Member 0 type, +\nmember 1 type, +\n...")]
      case OpTypePointer => [Res(), Req(StorageClassKind, ""), Req(IdRef, "Type")]
      case OpTypeFunction => [Res(), Req(IdRef, "Return Type"), Many(IdRef, "Parameter 0 Type, +\nParameter 1 Type, +\n...")]
      case OpConstantTrue => [Ty(), Res()]
      case OpConstant => [Ty(), Res(), Req(LiteralContextDependentNumber, "Value")]
      case OpConstantComposite => [Ty(), Res(), Many(IdRef, "Constituents")]
      case OpFunction => [Ty(), Res(), Req(FunctionControlKind, ""), Req(IdRef, "Function Type")]
      case OpFunctionParameter => [Ty(), Res()]
      case OpFunctionEnd => []
      case OpFunctionCall => [Ty(), Res(), Req(IdRef, "Function"), Many(IdRef, "Argument 0, +\nArgument 1, +\n...")]
      case OpVariable => [Ty(), Res(), Req(StorageClassKind, ""), Opt(IdRef, "Initializer")]
      case OpLoad => [Ty(), Res(), Req(IdRef, "Pointer"), Opt(MemoryAccessKind, "")]
      case OpStore => [Req(IdRef, "Pointer"), Req(IdRef, "Object"), Opt(MemoryAccessKind, "")]
      case OpAccessChain => [Ty(), Res(), Req(IdRef, "Base"), Many(IdRef, "Indexes")]
      case OpDecorate => [Req(IdRef, "Target"), Req(DecorationKind, "")]
      case OpMemberDecorate => [Req(IdRef, "Structure Type"), Req(LiteralInteger, "Member"), Req(DecorationKind, "")]
      case OpCompositeConstruct => [Ty(), Res(), Many(IdRef, "Constituents")]
      case OpCompositeExtract => [Ty(), Res(), Req(IdRef, "Composite"), Many(LiteralInteger, "Indexes")]
      case OpFAdd => [Ty(), Res(), Req(IdRef, "Operand 1"), Req(IdRef, "Operand 2")]
      case OpLabel => [Res()]
      case OpBranch => [Req(IdRef, "Target Label")]
      case OpReturn => []
      case OpReturnValue => [Req(IdRef, "Value")]
      case OpDecorateString => [Req(IdRef, "Target"), Req(DecorationKind, "")]
      case OpDecorateStringGOOGLE => [Req(IdRef, "Target"), Req(DecorationKind, "")]
    }

    /** minimumOperandCount(): the number of leading operands quantified exactly once. */
    function MinimumOperandCount(): (n: nat)
      ensures n <= |Operands()|
    {
      LeadingOnes(Operands())
    }
  }

  function Ty(): OperandDef { OperandDef(IdResultType, One, "") }
  function Res(): OperandDef { OperandDef(IdResult, One, "") }
  function Req(kind: OperandKind, name: string): OperandDef { OperandDef(kind, One, name) }
  function Opt(kind: OperandKind, name: string): OperandDef { OperandDef(kind, Optional, name) }
  function Many(kind: OperandKind, name: string): OperandDef { OperandDef(kind, Repeated, name) }

  /** The length of the longest prefix of operands quantified exactly once. */
  function LeadingOnes(operands: seq<OperandDef>): (n: nat)
    ensures n <= |operands|
    ensures forall k :: 0 <= k < n ==> operands[k].quantifier == One
    ensures n < |operands| ==> operands[n].quantifier != One
  {
    if operands == [] || operands[0].quantifier != One then 0
    else 1 + LeadingOnes(operands[1..])
  }

  /** SMInstruction.values(): every constant, in declaration order. */
  const INSTRUCTIONS: seq<Op> :=
      [OpNop, OpUndef, OpSourceContinued, OpSource, OpSourceExtension, OpName]
    + [OpMemberName, OpString, OpLine, OpExtension, OpExtInstImport, OpExtInst]
    + [OpMemoryModel, OpEntryPoint, OpExecutionMode, OpCapability, OpTypeVoid, OpTypeBool]
    + [OpTypeInt, OpTypeFloat, OpTypeVector, OpTypeArray, OpTypeStruct, OpTypePointer]
    + [OpTypeFunction, OpConstantTrue, OpConstant, OpConstantComposite, OpFunction, OpFunctionParameter]
    + [OpFunctionEnd, OpFunctionCall, OpVariable, OpLoad, OpStore, OpAccessChain]
    + [OpDecorate, OpMemberDecorate, OpCompositeConstruct, OpCompositeExtract, OpFAdd, OpLabel]
    + [OpBranch, OpReturn, OpReturnValue, OpDecorateString, OpDecorateStringGOOGLE]

  /** The one alias pair of the instruction table: two names for opcode 5632. */
  predicate InstructionAliases(a: Op, b: Op)
  {
    (a == OpDecorateString && b == OpDecorateStringGOOGLE) || (a == OpDecorateStringGOOGLE && b == OpDecorateString)
  }

  /** The position of a constant in the table. */
  function Index(op: Op): nat
  {
    match op
      case OpNop => 0
      case OpUndef => 1
      case OpSourceContinued => 2
      case OpSource => 3
      case OpSourceExtension => 4
      case OpName => 5
      case OpMemberName => 6
      case OpString => 7
      case OpLine => 8
      case OpExtension => 9
      case OpExtInstImport => 10
      case OpExtInst => 11
      case OpMemoryModel => 12
      case OpEntryPoint => 13
      case OpExecutionMode => 14
      case OpCapability => 15
      case OpTypeVoid => 16
      case OpTypeBool => 17
      case OpTypeInt => 18
      case OpTypeFloat => 19
      case OpTypeVector => 20
      case OpTypeArray => 21
      case OpTypeStruct => 22
      case OpTypePointer => 23
      case OpTypeFunction => 24
      case OpConstantTrue => 25
      case OpConstant => 26
      case OpConstantComposite => 27
      case OpFunction => 28
      case OpFunctionParameter => 29
      case OpFunctionEnd => 30
      case OpFunctionCall => 31
      case OpVariable => 32
      case OpLoad => 33
      case OpStore => 34
      case OpAccessChain => 35
      case OpDecorate => 36
      case OpMemberDecorate => 37
      case OpCompositeConstruct => 38
      case OpCompositeExtract => 39
      case OpFAdd => 40
      case OpLabel => 41
      case OpBranch => 42
      case OpReturn => 43
      case OpReturnValue => 44
      case OpDecorateString => 45
      case OpDecorateStringGOOGLE => 46
  }

  /** Every constant is in the table, at its position. */
  lemma InstructionsComplete(op: Op)
    ensures Index(op) < |INSTRUCTIONS| && INSTRUCTIONS[Index(op)] == op
  {
  }

  /** The constant an opcode stands for, the first declared of an alias pair. */
  function OpOfValue(v: nat): Option<Op>
  {
    if v == 0 then Some(OpNop)
    else if v == 1 then Some(OpUndef)
    else if v == 2 then Some(OpSourceContinued)
    else if v == 3 then Some(OpSource)
    else if v == 4 then Some(OpSourceExtension)
    else if v == 5 then Some(OpName)
    else if v == 6 then Some(OpMemberName)
    else if v == 7 then Some(OpString)
    else if v == 8 then Some(OpLine)
    else if v == 10 then Some(OpExtension)
    else if v == 11 then Some(OpExtInstImport)
    else if v == 12 then Some(OpExtInst)
    else if v == 14 then Some(OpMemoryModel)
    else if v == 15 then Some(OpEntryPoint)
    else if v == 16 then Some(OpExecutionMode)
    else if v == 17 then Some(OpCapability)
    else if v == 19 then Some(OpTypeVoid)
    else if v == 20 then Some(OpTypeBool)
    else if v == 21 then Some(OpTypeInt)
    else if v == 22 then Some(OpTypeFloat)
    else if v == 23 then Some(OpTypeVector)
    else if v == 28 then Some(OpTypeArray)
    else if v == 30 then Some(OpTypeStruct)
    else if v == 32 then Some(OpTypePointer)
    else if v == 33 then Some(OpTypeFunction)
    else if v == 41 then Some(OpConstantTrue)
    else if v == 43 then Some(OpConstant)
    else if v == 44 then Some(OpConstantComposite)
    else if v == 54 then Some(OpFunction)
    else if v == 55 then Some(OpFunctionParameter)
    else if v == 56 then Some(OpFunctionEnd)
    else if v == 57 then Some(OpFunctionCall)
    else if v == 59 then Some(OpVariable)
    else if v == 61 then Some(OpLoad)
    else if v == 62 then Some(OpStore)
    else if v == 65 then Some(OpAccessChain)
    else if v == 71 then Some(OpDecorate)
    else if v == 72 then Some(OpMemberDecorate)
    else if v == 80 then Some(OpCompositeConstruct)
    else if v == 81 then Some(OpCompositeExtract)
    else if v == 129 then Some(OpFAdd)
    else if v == 248 then Some(OpLabel)
    else if v == 249 then Some(OpBranch)
    else if v == 253 then Some(OpReturn)
    else if v == 254 then Some(OpReturnValue)
    else if v == 5632 then Some(OpDecorateString)
    else None
  }

  /** The constant a name stands for, told apart by the name's length and a few of its characters. */
  function OpOfName(n: string): Option<Op>
  {
    if |n| == 5 then
      Some(OpNop)
    else if |n| == 6 then
      if n[3] == 'a' then
        Some(OpName)
      else if n[3] == 'i' then
        Some(OpLine)
      else if n[3] == 'o' then
        Some(OpLoad)
      else if n[3] == 'A' then
        Some(OpFAdd)
      else None
    else if |n| == 7 then
      if n[2] == 'U' then
        Some(OpUndef)
      else if n[2] == 'S' then
        Some(OpStore)
      else if n[2] == 'L' then
        Some(OpLabel)
      else None
    else if |n| == 8 then
      if n[3] == 'o' then
        Some(OpSource)
      else if n[3] == 't' then
        Some(OpString)
      else if n[3] == 'r' then
        Some(OpBranch)
      else if n[3] == 'e' then
        Some(OpReturn)
      else None
    else if |n| == 9 then
      if n[2] == 'E' then
        Some(OpExtInst)
      else if n[2] == 'T' then
        Some(OpTypeInt)
      else None
    else if |n| == 10 then
      if n[2] == 'T' then
        if n[6] == 'V' then
          Some(OpTypeVoid)
        else if n[6] == 'B' then
          Some(OpTypeBool)
        else None
      else if n[2] == 'C' then
        Some(OpConstant)
      else if n[2] == 'F' then
        Some(OpFunction)
      else if n[2] == 'V' then
        Some(OpVariable)
      else if n[2] == 'D' then
        Some(OpDecorate)
      else None
    else if |n| == 11 then
      if n[6] == 'n' then
        Some(OpExtension)
      else if n[6] == 'F' then
        Some(OpTypeFloat)
      else if n[6] == 'A' then
        Some(OpTypeArray)
      else None
    else if |n| == 12 then
      if n[6] == 'e' then
        Some(OpMemberName)
      else if n[6] == 'y' then
        Some(OpEntryPoint)
      else if n[6] == 'b' then
        Some(OpCapability)
      else if n[6] == 'V' then
        Some(OpTypeVector)
      else if n[6] == 'S' then
        Some(OpTypeStruct)
      else None
    else if |n| == 13 then
      if n[2] == 'M' then
        Some(OpMemoryModel)
      else if n[2] == 'T' then
        Some(OpTypePointer)
      else if n[2] == 'F' then
        Some(OpFunctionEnd)
      else if n[2] == 'A' then
        Some(OpAccessChain)
      else if n[2] == 'R' then
        Some(OpReturnValue)
      else None
    else if |n| == 14 then
      if n[2] == 'T' then
        Some(OpTypeFunction)
      else if n[2] == 'C' then
        Some(OpConstantTrue)
      else if n[2] == 'F' then
        Some(OpFunctionCall)
      else None
    else if |n| == 15 then
      if n[4] == 't' then
        Some(OpExtInstImport)
      else if n[4] == 'e' then
        Some(OpExecutionMode)
      else None
    else if |n| == 16 then
      if n[2] == 'M' then
        Some(OpMemberDecorate)
      else if n[2] == 'D' then
        Some(OpDecorateString)
      else None
    else if |n| == 17 then
      if n[8] == 'C' then
        Some(OpSourceContinued)
      else if n[8] == 'E' then
        Some(OpSourceExtension)
      else None
    else if |n| == 18 then
      Some(OpCompositeExtract)
    else if |n| == 19 then
      if n[2] == 'C' then
        Some(OpConstantComposite)
      else if n[2] == 'F' then
        Some(OpFunctionParameter)
      else None
    else if |n| == 20 then
      Some(OpCompositeConstruct)
    else if |n| == 22 then
      Some(OpDecorateStringGOOGLE)
    else None
  }

  /** The opcode leads back to its constant, and the name always does. */
  lemma Decodes(op: Op)
    ensures OpOfName(op.SpirName()) == Some(op)
    ensures op == OpDecorateStringGOOGLE || OpOfValue(op.Value()) == Some(op)
  {
    match op
    case OpNop => DecodesNop();
    case OpUndef => DecodesUndef();
    case OpSourceContinued => DecodesSourceContinued();
    case OpSource => DecodesSource();
    case OpSourceExtension => DecodesSourceExtension();
    case OpName => DecodesName();
    case OpMemberName => DecodesMemberName();
    case OpString => DecodesString();
    case OpLine => DecodesLine();
    case OpExtension => DecodesExtension();
    case OpExtInstImport => DecodesExtInstImport();
    case OpExtInst => DecodesExtInst();
    case OpMemoryModel => DecodesMemoryModel();
    case OpEntryPoint => DecodesEntryPoint();
    case OpExecutionMode => DecodesExecutionMode();
    case OpCapability => DecodesCapability();
    case OpTypeVoid => DecodesTypeVoid();
    case OpTypeBool => DecodesTypeBool();
    case OpTypeInt => DecodesTypeInt();
    case OpTypeFloat => DecodesTypeFloat();
    case OpTypeVector => DecodesTypeVector();
    case OpTypeArray => DecodesTypeArray();
    case OpTypeStruct => DecodesTypeStruct();
    case OpTypePointer => DecodesTypePointer();
    case OpTypeFunction => DecodesTypeFunction();
    case OpConstantTrue => DecodesConstantTrue();
    case OpConstant => DecodesConstant();
    case OpConstantComposite => DecodesConstantComposite();
    case OpFunction => DecodesFunction();
    case OpFunctionParameter => DecodesFunctionParameter();
    case OpFunctionEnd => DecodesFunctionEnd();
    case OpFunctionCall => DecodesFunctionCall();
    case OpVariable => DecodesVariable();
    case OpLoad => DecodesLoad();
    case OpStore => DecodesStore();
    case OpAccessChain => DecodesAccessChain();
    case OpDecorate => DecodesDecorate();
    case OpMemberDecorate => DecodesMemberDecorate();
    case OpCompositeConstruct => DecodesCompositeConstruct();
    case OpCompositeExtract => DecodesCompositeExtract();
    case OpFAdd => DecodesFAdd();
    case OpLabel => DecodesLabel();
    case OpBranch => DecodesBranch();
    case OpReturn => DecodesReturn();
    case OpReturnValue => DecodesReturnValue();
    case OpDecorateString => DecodesDecorateString();
    case OpDecorateStringGOOGLE => DecodesDecorateStringGOOGLE();
  }

  lemma DecodesNop()
    ensures OpOfName(OpNop.SpirName()) == Some(OpNop)
    ensures OpOfValue(OpNop.Value()) == Some(OpNop)
  {
  }

  lemma DecodesUndef()
    ensures OpOfName(OpUndef.SpirName()) == Some(OpUndef)
    ensures OpOfValue(OpUndef.Value()) == Some(OpUndef)
  {
  }

  lemma DecodesSourceContinued()
    ensures OpOfName(OpSourceContinued.SpirName()) == Some(OpSourceContinued)
    ensures OpOfValue(OpSourceContinued.Value()) == Some(OpSourceContinued)
  {
  }

  lemma DecodesSource()
    ensures OpOfName(OpSource.SpirName()) == Some(OpSource)
    ensures OpOfValue(OpSource.Value()) == Some(OpSource)
  {
  }

  lemma DecodesSourceExtension()
    ensures OpOfName(OpSourceExtension.SpirName()) == Some(OpSourceExtension)
    ensures OpOfValue(OpSourceExtension.Value()) == Some(OpSourceExtension)
  {
  }

  lemma DecodesName()
    ensures OpOfName(OpName.SpirName()) == Some(OpName)
    ensures OpOfValue(OpName.Value()) == Some(OpName)
  {
  }

  lemma DecodesMemberName()
    ensures OpOfName(OpMemberName.SpirName()) == Some(OpMemberName)
    ensures OpOfValue(OpMemberName.Value()) == Some(OpMemberName)
  {
  }

  lemma DecodesString()
    ensures OpOfName(OpString.SpirName()) == Some(OpString)
    ensures OpOfValue(OpString.Value()) == Some(OpString)
  {
  }

  lemma DecodesLine()
    ensures OpOfName(OpLine.SpirName()) == Some(OpLine)
    ensures OpOfValue(OpLine.Value()) == Some(OpLine)
  {
  }

  lemma DecodesExtension()
    ensures OpOfName(OpExtension.SpirName()) == Some(OpExtension)
    ensures OpOfValue(OpExtension.Value()) == Some(OpExtension)
  {
  }

  lemma DecodesExtInstImport()
    ensures OpOfName(OpExtInstImport.SpirName()) == Some(OpExtInstImport)
    ensures OpOfValue(OpExtInstImport.Value()) == Some(OpExtInstImport)
  {
  }

  lemma DecodesExtInst()
    ensures OpOfName(OpExtInst.SpirName()) == Some(OpExtInst)
    ensures OpOfValue(OpExtInst.Value()) == Some(OpExtInst)
  {
  }

  lemma DecodesMemoryModel()
    ensures OpOfName(OpMemoryModel.SpirName()) == Some(OpMemoryModel)
    ensures OpOfValue(OpMemoryModel.Value()) == Some(OpMemoryModel)
  {
  }

  lemma DecodesEntryPoint()
    ensures OpOfName(OpEntryPoint.SpirName()) == Some(OpEntryPoint)
    ensures OpOfValue(OpEntryPoint.Value()) == Some(OpEntryPoint)
  {
  }

  lemma DecodesExecutionMode()
    ensures OpOfName(OpExecutionMode.SpirName()) == Some(OpExecutionMode)
    ensures OpOfValue(OpExecutionMode.Value()) == Some(OpExecutionMode)
  {
  }

  lemma DecodesCapability()
    ensures OpOfName(OpCapability.SpirName()) == Some(OpCapability)
    ensures OpOfValue(OpCapability.Value()) == Some(OpCapability)
  {
  }

  lemma DecodesTypeVoid()
    ensures OpOfName(OpTypeVoid.SpirName()) == Some(OpTypeVoid)
    ensures OpOfValue(OpTypeVoid.Value()) == Some(OpTypeVoid)
  {
  }

  lemma DecodesTypeBool()
    ensures OpOfName(OpTypeBool.SpirName()) == Some(OpTypeBool)
    ensures OpOfValue(OpTypeBool.Value()) == Some(OpTypeBool)
  {
  }

  lemma DecodesTypeInt()
    ensures OpOfName(OpTypeInt.SpirName()) == Some(OpTypeInt)
    ensures OpOfValue(OpTypeInt.Value()) == Some(OpTypeInt)
  {
  }

  lemma DecodesTypeFloat()
    ensures OpOfName(OpTypeFloat.SpirName()) == Some(OpTypeFloat)
    ensures OpOfValue(OpTypeFloat.Value()) == Some(OpTypeFloat)
  {
  }

  lemma DecodesTypeVector()
    ensures OpOfName(OpTypeVector.SpirName()) == Some(OpTypeVector)
    ensures OpOfValue(OpTypeVector.Value()) == Some(OpTypeVector)
  {
  }

  lemma DecodesTypeArray()
    ensures OpOfName(OpTypeArray.SpirName()) == Some(OpTypeArray)
    ensures OpOfValue(OpTypeArray.Value()) == Some(OpTypeArray)
  {
  }

  lemma DecodesTypeStruct()
    ensures OpOfName(OpTypeStruct.SpirName()) == Some(OpTypeStruct)
    ensures OpOfValue(OpTypeStruct.Value()) == Some(OpTypeStruct)
  {
  }

  lemma DecodesTypePointer()
    ensures OpOfName(OpTypePointer.SpirName()) == Some(OpTypePointer)
    ensures OpOfValue(OpTypePointer.Value()) == Some(OpTypePointer)
  {
  }

  lemma DecodesTypeFunction()
    ensures OpOfName(OpTypeFunction.SpirName()) == Some(OpTypeFunction)
    ensures OpOfValue(OpTypeFunction.Value()) == Some(OpTypeFunction)
  {
  }

  lemma DecodesConstantTrue()
    ensures OpOfName(OpConstantTrue.SpirName()) == Some(OpConstantTrue)
    ensures OpOfValue(OpConstantTrue.Value()) == Some(OpConstantTrue)
  {
  }

  lemma DecodesConstant()
    ensures OpOfName(OpConstant.SpirName()) == Some(OpConstant)
    ensures OpOfValue(OpConstant.Value()) == Some(OpConstant)
  {
  }

  lemma DecodesConstantComposite()
    ensures OpOfName(OpConstantComposite.SpirName()) == Some(OpConstantComposite)
    ensures OpOfValue(OpConstantComposite.Value()) == Some(OpConstantComposite)
  {
  }

  lemma DecodesFunction()
    ensures OpOfName(OpFunction.SpirName()) == Some(OpFunction)
    ensures OpOfValue(OpFunction.Value()) == Some(OpFunction)
  {
  }

  lemma DecodesFunctionParameter()
    ensures OpOfName(OpFunctionParameter.SpirName()) == Some(OpFunctionParameter)
    ensures OpOfValue(OpFunctionParameter.Value()) == Some(OpFunctionParameter)
  {
  }

  lemma DecodesFunctionEnd()
    ensures OpOfName(OpFunctionEnd.SpirName()) == Some(OpFunctionEnd)
    ensures OpOfValue(OpFunctionEnd.Value()) == Some(OpFunctionEnd)
  {
  }

  lemma DecodesFunctionCall()
    ensures OpOfName(OpFunctionCall.SpirName()) == Some(OpFunctionCall)
    ensures OpOfValue(OpFunctionCall.Value()) == Some(OpFunctionCall)
  {
  }

  lemma DecodesVariable()
    ensures OpOfName(OpVariable.SpirName()) == Some(OpVariable)
    ensures OpOfValue(OpVariable.Value()) == Some(OpVariable)
  {
  }

  lemma DecodesLoad()
    ensures OpOfName(OpLoad.SpirName()) == Some(OpLoad)
    ensures OpOfValue(OpLoad.Value()) == Some(OpLoad)
  {
  }

  lemma DecodesStore()
    ensures OpOfName(OpStore.SpirName()) == Some(OpStore)
    ensures OpOfValue(OpStore.Value()) == Some(OpStore)
  {
  }

  lemma DecodesAccessChain()
    ensures OpOfName(OpAccessChain.SpirName()) == Some(OpAccessChain)
    ensures OpOfValue(OpAccessChain.Value()) == Some(OpAccessChain)
  {
  }

  lemma DecodesDecorate()
    ensures OpOfName(OpDecorate.SpirName()) == Some(OpDecorate)
    ensures OpOfValue(OpDecorate.Value()) == Some(OpDecorate)
  {
  }

  lemma DecodesMemberDecorate()
    ensures OpOfName(OpMemberDecorate.SpirName()) == Some(OpMemberDecorate)
    ensures OpOfValue(OpMemberDecorate.Value()) == Some(OpMemberDecorate)
  {
  }

  lemma DecodesCompositeConstruct()
    ensures OpOfName(OpCompositeConstruct.SpirName()) == Some(OpCompositeConstruct)
    ensures OpOfValue(OpCompositeConstruct.Value()) == Some(OpCompositeConstruct)
  {
  }

  lemma DecodesCompositeExtract()
    ensures OpOfName(OpCompositeExtract.SpirName()) == Some(OpCompositeExtract)
    ensures OpOfValue(OpCompositeExtract.Value()) == Some(OpCompositeExtract)
  {
  }

  lemma DecodesFAdd()
    ensures OpOfName(OpFAdd.SpirName()) == Some(OpFAdd)
    ensures OpOfValue(OpFAdd.Value()) == Some(OpFAdd)
  {
  }

  lemma DecodesLabel()
    ensures OpOfName(OpLabel.SpirName()) == Some(OpLabel)
    ensures OpOfValue(OpLabel.Value()) == Some(OpLabel)
  {
  }

  lemma DecodesBranch()
    ensures OpOfName(OpBranch.SpirName()) == Some(OpBranch)
    ensures OpOfValue(OpBranch.Value()) == Some(OpBranch)
  {
  }

  lemma DecodesReturn()
    ensures OpOfName(OpReturn.SpirName()) == Some(OpReturn)
    ensures OpOfValue(OpReturn.Value()) == Some(OpReturn)
  {
  }

  lemma DecodesReturnValue()
    ensures OpOfName(OpReturnValue.SpirName()) == Some(OpReturnValue)
    ensures OpOfValue(OpReturnValue.Value()) == Some(OpReturnValue)
  {
  }

  lemma DecodesDecorateString()
    ensures OpOfName(OpDecorateString.SpirName()) == Some(OpDecorateString)
    ensures OpOfValue(OpDecorateString.Value()) == Some(OpDecorateString)
  {
  }

  lemma DecodesDecorateStringGOOGLE()
    ensures OpOfName(OpDecorateStringGOOGLE.SpirName()) == Some(OpDecorateStringGOOGLE)
    ensures OpDecorateStringGOOGLE.Value() == OpDecorateString.Value()
  {
  }

  /** Opcodes are pairwise distinct except for the declared alias pair. */
  lemma InstructionValuesDistinct(a: Op, b: Op)
    requires a.Value() == b.Value()
    ensures a == b || InstructionAliases(a, b)
  {
    Decodes(a);
    Decodes(b);
    DecodesDecorateString();
    DecodesDecorateStringGOOGLE();
  }

  /** Names are pairwise distinct, aliases included. */
  lemma InstructionNamesDistinct(a: Op, b: Op)
    requires a.SpirName() == b.SpirName()
    ensures a == b
  {
    Decodes(a);
    Decodes(b);
  }
}

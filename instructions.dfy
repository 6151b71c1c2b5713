/**
 * SMInstructions: the opcode registry, a map from opcode to instruction built
 * once from SMInstruction.values(), and its total lookup.
 */
module Instructions {
  import opened Base
  import opened Registry

  /** The map makeByOpCode builds from a list of constants: each put overwrites an earlier one. */
  function ByOpCodeOf(values: seq<Op>): map<int, Op>
  {
    if values == [] then map[]
    else ByOpCodeOf(values[..|values| - 1])[values[|values| - 1].Value() := values[|values| - 1]]
  }

  /** makeByOpCode: put every constant under its opcode, in order. */
  method MakeByOpCode(values: seq<Op>) returns (byOpCode: map<int, Op>)
    ensures byOpCode == ByOpCodeOf(values)
  {
    byOpCode := map[];
    for i := 0 to |values|
      invariant byOpCode == ByOpCodeOf(values[..i])
    {
      assert values[..i + 1][..i] == values[..i];
      byOpCode := byOpCode[values[i].Value() := values[i]];
    }
    assert values[..|values|] == values;
  }

  /** The map holds exactly the opcodes of the constants, each under an instruction with that opcode. */
  lemma {:induction false} ByOpCodeOfSound(values: seq<Op>, opCode: int)
    ensures opCode in ByOpCodeOf(values) <==> exists k :: 0 <= k < |values| && values[k].Value() == opCode
    ensures opCode in ByOpCodeOf(values) ==> ByOpCodeOf(values)[opCode].Value() == opCode
    ensures opCode in ByOpCodeOf(values) ==> ByOpCodeOf(values)[opCode] in values
  {
    if values != [] {
      var init := values[..|values| - 1];
      ByOpCodeOfSound(init, opCode);
      if opCode in ByOpCodeOf(init) {
        var k :| 0 <= k < |init| && init[k].Value() == opCode;
        assert values[k] == init[k];
      }
      if exists k :: 0 <= k < |values| && values[k].Value() == opCode {
        var k :| 0 <= k < |values| && values[k].Value() == opCode;
        if k < |init| {
          assert init[k] == values[k];
        }
      }
    }
  }

  /** Of the constants sharing an opcode, the one declared last is in the map. */
  lemma {:induction false} ByOpCodeOfLast(values: seq<Op>, k: nat)
    requires k < |values|
    requires forall j :: k < j < |values| ==> values[j].Value() != values[k].Value()
    ensures values[k].Value() in ByOpCodeOf(values) && ByOpCodeOf(values)[values[k].Value()] == values[k]
  {
    var init := values[..|values| - 1];
    if k < |values| - 1 {
      assert init[k] == values[k];
      ByOpCodeOfLast(init, k);
    }
  }

  /** BY_OPCODE: the map built from SMInstruction.values(). */
  const BY_OPCODE: map<int, Op> := ByOpCodeOf(INSTRUCTIONS)

  /** byOpCode: the instruction registered under an opcode, if any; it never throws. */
  function ByOpCode(opCode: int): (r: Option<Op>)
    ensures r.Some? ==> r.value.Value() == opCode
    ensures r.None? <==> forall op: Op :: op.Value() != opCode
  {
    ByOpCodeOfSound(INSTRUCTIONS, opCode);
    if opCode in BY_OPCODE then Some(BY_OPCODE[opCode])
    else
      assert forall op: Op :: op.Value() != opCode by {
        forall op: Op ensures op.Value() != opCode {
          InstructionsComplete(op);
        }
      }
      None
  }

  /** Every constant's opcode is registered, under the constant itself unless a later alias shares it. */
  lemma ByOpCodeComplete(op: Op)
    ensures ByOpCode(op.Value()).Some?
    ensures !InstructionAliases(op, OpDecorateStringGOOGLE) ==> ByOpCode(op.Value()) == Some(op)
  {
    var r := ByOpCode(op.Value()).value;
    InstructionValuesDistinct(op, r);
  }

  /** The alias pair: opcode 5632 gives the constant declared last, OpDecorateStringGOOGLE. */
  lemma ByOpCodeLastAlias()
    ensures ByOpCode(5632) == Some(OpDecorateStringGOOGLE)
  {
    var k := |INSTRUCTIONS| - 1;
    assert INSTRUCTIONS[k] == OpDecorateStringGOOGLE;
    ByOpCodeOfLast(INSTRUCTIONS, k);
  }
}

/**
 * SMTypes: the table from a type's result id to the type instruction that
 * defines it, built in one pass over the instruction list.
 */
module Types {
  import opened Base
  import opened Failures
  import opened Registry
  import opened Instructions
  import opened ParserApi

  /** The nine type-declaring instructions the table records. */
  predicate IsTypeOp(op: Op)
  {
    op in {OpTypeInt, OpTypeFunction, OpTypePointer, OpTypeStruct, OpTypeVector,
           OpTypeVoid, OpTypeArray, OpTypeBool, OpTypeFloat}
  }

  /** The type kind an instruction declares: its registered definition when that is a type instruction. */
  function KindOf(inst: ParsedInstruction): (k: Option<Op>)
    ensures k.Some? ==> IsTypeOp(k.value) && k.value.Value() == inst.opCode
    ensures k.None? <==> ByOpCode(inst.opCode).None? || !IsTypeOp(ByOpCode(inst.opCode).value)
  {
    match ByOpCode(inst.opCode)
    case None => None
    case Some(op) => if IsTypeOp(op) then Some(op) else None
  }

  /** One step of the loop: a type instruction puts its kind under its first operand. */
  function Record(t: map<Word, Op>, inst: ParsedInstruction): (r: Result<map<Word, Op>, Failure>)
    ensures KindOf(inst).None? ==> r == Ok(t)
    ensures KindOf(inst).Some? && inst.operands == [] ==> r == Err(MissingOperand(0, 0))
    ensures KindOf(inst).Some? && inst.operands != [] ==>
      r.Ok? && r.value.Keys == t.Keys + {inst.operands[0]} && r.value[inst.operands[0]] == KindOf(inst).value
      && forall id :: id in t && id != inst.operands[0] ==> r.value[id] == t[id]
  {
    match KindOf(inst)
    case None => Ok(t)
    case Some(kind) =>
      if |inst.operands| == 0 then Err(MissingOperand(0, 0))
      else Ok(t[inst.operands[0] := kind])
  }

  /** The table of a list of instructions; a failure ends the pass. */
  function TypesOf(insts: seq<ParsedInstruction>): Result<map<Word, Op>, Failure>
  {
    if insts == [] then Ok(map[])
    else
      match TypesOf(insts[..|insts| - 1])
      case Err(e) => Err(e)
      case Ok(t) => Record(t, insts[|insts| - 1])
  }

  /** SMTypes.of: put every type instruction's kind under its result id. */
  method Of(instructions: seq<ParsedInstruction>) returns (r: Result<map<Word, Op>, Failure>)
    ensures r == TypesOf(instructions)
  {
    var idToType: map<Word, Op> := map[];
    for i := 0 to |instructions|
      invariant TypesOf(instructions[..i]) == Ok(idToType)
    {
      var instruction := instructions[i];
      assert instructions[..i + 1][..i] == instructions[..i];
      var definitionOpt := ByOpCode(instruction.opCode);
      if definitionOpt.None? {
        continue;
      }
      var definition := definitionOpt.value;
      if IsTypeOp(definition) {
        if |instruction.operands| == 0 {
          LaterInstructions(instructions, i + 1);
          return Err(MissingOperand(0, 0));
        }
        var id := instruction.operands[0];
        idToType := idToType[id := definition];
      }
    }
    assert instructions[..|instructions|] == instructions;
    r := Ok(idToType);
  }

  /** Once the pass has failed on the first k instructions, the rest do not matter. */
  lemma {:induction false} LaterInstructions(insts: seq<ParsedInstruction>, k: nat)
    requires k <= |insts| && TypesOf(insts[..k]).Err?
    ensures TypesOf(insts) == TypesOf(insts[..k])
    decreases |insts|
  {
    if k < |insts| {
      var init := insts[..|insts| - 1];
      assert init[..k] == insts[..k];
      LaterInstructions(init, k);
    } else {
      assert insts[..k] == insts;
    }
  }

  /** The pass succeeds exactly when every type instruction has a result-id operand. */
  lemma {:induction false} TypesOfOk(insts: seq<ParsedInstruction>)
    ensures TypesOf(insts).Ok? <==> forall k :: 0 <= k < |insts| && KindOf(insts[k]).Some? ==> insts[k].operands != []
  {
    if insts != [] {
      var init := insts[..|insts| - 1];
      TypesOfOk(init);
      assert forall k :: 0 <= k < |init| ==> init[k] == insts[k];
    }
  }

  /** Instructions that declare no type leave the table as it is, wherever they stand. */
  lemma {:induction false} OthersIgnored(a: seq<ParsedInstruction>, x: ParsedInstruction, b: seq<ParsedInstruction>)
    requires KindOf(x).None?
    ensures TypesOf(a + [x] + b) == TypesOf(a + b)
    decreases |b|
  {
    if b == [] {
      assert a + [x] + b == a + [x] && (a + [x])[..|a|] == a;
      assert a + b == a;
    } else {
      var b' := b[..|b| - 1];
      assert (a + [x] + b)[..|a + [x] + b| - 1] == a + [x] + b';
      assert (a + b)[..|a + b| - 1] == a + b';
      assert (a + [x] + b)[|a + [x] + b| - 1] == (a + b)[|a + b| - 1];
      OthersIgnored(a, x, b');
    }
  }

  /** The instruction declares a type with result id `id`. */
  predicate Declares(inst: ParsedInstruction, id: Word)
  {
    KindOf(inst).Some? && inst.operands != [] && inst.operands[0] == id
  }

  /** The table holds exactly the result ids the type instructions declare. */
  lemma {:induction false} TypesOfDomain(insts: seq<ParsedInstruction>, id: Word)
    requires TypesOf(insts).Ok?
    ensures id in TypesOf(insts).value <==> exists k :: 0 <= k < |insts| && Declares(insts[k], id)
  {
    if insts != [] {
      var init := insts[..|insts| - 1];
      var last := insts[|insts| - 1];
      assert TypesOf(init).Ok?;
      var t := TypesOf(init).value;
      assert TypesOf(insts) == Record(t, last);
      TypesOfDomain(init, id);
      assert id in TypesOf(insts).value <==> id in t || Declares(last, id);
      if id in TypesOf(insts).value {
        if id in t {
          var k :| 0 <= k < |init| && Declares(init[k], id);
          assert insts[k] == init[k];
        } else {
          assert Declares(insts[|insts| - 1], id);
        }
      } else {
        forall k | 0 <= k < |insts|
          ensures !Declares(insts[k], id)
        {
          if k < |init| {
            assert insts[k] == init[k];
          }
        }
      }
    }
  }

  /** Every kind in the table is one of the nine type instructions. */
  lemma {:induction false} TypesOfKinds(insts: seq<ParsedInstruction>, id: Word)
    requires TypesOf(insts).Ok? && id in TypesOf(insts).value
    ensures IsTypeOp(TypesOf(insts).value[id])
  {
    var init := insts[..|insts| - 1];
    if id in TypesOf(init).value && !Declares(insts[|insts| - 1], id) {
      TypesOfKinds(init, id);
    }
  }

  /** Each id holds the kind of the last type instruction declaring it: a later declaration overwrites. */
  lemma {:induction false} LastTypeWins(insts: seq<ParsedInstruction>, k: nat)
    requires k < |insts| && KindOf(insts[k]).Some? && insts[k].operands != [] && TypesOf(insts).Ok?
    requires forall l :: k < l < |insts| && KindOf(insts[l]).Some? && insts[l].operands != [] ==>
      insts[l].operands[0] != insts[k].operands[0]
    ensures insts[k].operands[0] in TypesOf(insts).value
    ensures TypesOf(insts).value[insts[k].operands[0]] == KindOf(insts[k]).value
  {
    TypesOfOk(insts);
    var init := insts[..|insts| - 1];
    if k < |init| {
      assert init[k] == insts[k];
      assert forall l :: k < l < |init| ==> init[l] == insts[l];
      TypesOfOk(init);
      LastTypeWins(init, k);
    }
  }

  /** A type declared, then declared again under the same id as another kind, ends with the later kind. */
  lemma Redeclared(x: ParsedInstruction, y: ParsedInstruction)
    requires KindOf(x).Some? && KindOf(y).Some? && x.operands != [] && y.operands != []
    requires x.operands[0] == y.operands[0]
    ensures TypesOf([x, y]) == Ok(map[x.operands[0] := KindOf(y).value])
  {
    assert [x, y][..1] == [x];
    assert [x][..0] == [];
    assert TypesOf([x]) == Record(map[], x);
    var id := x.operands[0];
    assert TypesOf([x, y]) == Ok(map[id := KindOf(x).value][id := KindOf(y).value]);
    assert map[id := KindOf(x).value][id := KindOf(y).value] == map[id := KindOf(y).value];
  }

  /** An OpTypeInt with result id 7 gives the table {7: OpTypeInt}. */
  lemma IntTypeExample()
    ensures TypesOf([ParsedInstruction(21, 4, [7, 32, 1], 0)]) == Ok(map[7 := OpTypeInt])
  {
    var inst := ParsedInstruction(21, 4, [7, 32, 1], 0);
    ByOpCodeComplete(OpTypeInt);
    assert [inst][..0] == [];
  }
}

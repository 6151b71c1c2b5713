/**
 * SMIdentifiers: the tables of names the OpName instructions of a module give
 * to ids, built in one pass over the instruction list.
 *
 * The pass is specified in two layers: each instruction contributes one
 * `Entry` (nothing, a missing id operand, or an id and its name), and the
 * tables are a fold of those entries. The properties of the tables are
 * proved on the fold.
 */
module Identifiers {
  import opened Base
  import opened Failures
  import opened Registry
  import opened Instructions
  import opened Strings
  import opened ParserApi

  /** The two tables: each name to the id it names, and each id to its name. */
  datatype SMIdentifiers = SMIdentifiers(nameToId: map<string, Word>, idToName: map<Word, string>)

  const EMPTY: SMIdentifiers := SMIdentifiers(map[], map[])

  /** What one instruction contributes to the tables. */
  datatype Entry = Skip | MissingId | Define(id: Word, name: string)

  /** An instruction whose opcode is registered as OpName. */
  predicate IsName(inst: ParsedInstruction)
  {
    ByOpCode(inst.opCode) == Some(OpName)
  }

  /** Exactly the instructions with opcode 5 are OpName instructions. */
  lemma IsNameOpCode(inst: ParsedInstruction)
    ensures IsName(inst) <==> inst.opCode == 5
  {
    if inst.opCode == 5 {
      var r := ByOpCode(5);
      assert OpName.Value() == 5;
      InstructionValuesDistinct(r.value, OpName);
    }
  }

  /** The name an OpName instruction gives: the literal string after the id, "_" when it is empty. */
  function NameText(operands: seq<Word>): (n: string)
    requires |operands| > 0
    ensures n != ""
    ensures ConsumeUtf8(operands, 1).value.text != "" ==> n == ConsumeUtf8(operands, 1).value.text
  {
    var text := ConsumeUtf8(operands, 1).value.text;
    if text == "" then "_" else text
  }

  /** The entry of one instruction: only registered OpName instructions define anything. */
  function EntryOf(inst: ParsedInstruction): (e: Entry)
    ensures e.Skip? <==> !IsName(inst)
    ensures e.MissingId? <==> IsName(inst) && inst.operands == []
    ensures e.Define? ==> e.id == inst.operands[0] && e.name == NameText(inst.operands)
  {
    if !IsName(inst) then Skip
    else if |inst.operands| == 0 then MissingId
    else Define(inst.operands[0], NameText(inst.operands))
  }

  /** The entries of a list of instructions, in order. */
  function EntriesOf(insts: seq<ParsedInstruction>): (es: seq<Entry>)
    ensures |es| == |insts|
  {
    if insts == [] then [] else EntriesOf(insts[..|insts| - 1]) + [EntryOf(insts[|insts| - 1])]
  }

  /** Each entry is the entry of the instruction at the same position. */
  lemma {:induction false} EntriesOfIndex(insts: seq<ParsedInstruction>, k: nat)
    requires k < |insts|
    ensures EntriesOf(insts)[k] == EntryOf(insts[k])
  {
    if k < |insts| - 1 {
      EntriesOfIndex(insts[..|insts| - 1], k);
    }
  }

  /** One step of the loop: a definition adds its name; a name already present, or a missing id, throws. */
  function Record(t: SMIdentifiers, e: Entry): (r: Result<SMIdentifiers, Failure>)
    ensures e.Skip? ==> r == Ok(t)
    ensures e.MissingId? ==> r == Err(MissingOperand(0, 0))
    ensures e.Define? ==> (r.Err? <==> e.name in t.nameToId)
    ensures e.Define? && r.Err? ==> r.error == NameRedefinition(e.name)
  {
    match e
    case Skip => Ok(t)
    case MissingId => Err(MissingOperand(0, 0))
    case Define(id, name) =>
      if name in t.nameToId then Err(NameRedefinition(name))
      else Ok(SMIdentifiers(t.nameToId[name := id], t.idToName[id := name]))
  }

  /** The loop from a given state over a list of entries; a failure ends it. */
  function RecordAll(start: Result<SMIdentifiers, Failure>, es: seq<Entry>): Result<SMIdentifiers, Failure>
  {
    if es == [] then start
    else
      match RecordAll(start, es[..|es| - 1])
      case Err(e) => Err(e)
      case Ok(t) => Record(t, es[|es| - 1])
  }

  /** The tables a list of entries builds from empty ones. */
  function Build(es: seq<Entry>): Result<SMIdentifiers, Failure>
  {
    RecordAll(Ok(EMPTY), es)
  }

  /** SMIdentifiers.of: the tables of a whole instruction list. */
  function IdentifiersOf(insts: seq<ParsedInstruction>): Result<SMIdentifiers, Failure>
  {
    Build(EntriesOf(insts))
  }

  /** SMIdentifiers.of: fill both maps in one pass over the instructions. */
  method Of(instructions: seq<ParsedInstruction>) returns (r: Result<SMIdentifiers, Failure>)
    ensures r == IdentifiersOf(instructions)
  {
    var nameToId: map<string, Word> := map[];
    var idToName: map<Word, string> := map[];
    for i := 0 to |instructions|
      invariant IdentifiersOf(instructions[..i]) == Ok(SMIdentifiers(nameToId, idToName))
    {
      var instruction := instructions[i];
      assert instructions[..i + 1][..i] == instructions[..i];
      ghost var e := EntryOf(instruction);
      assert EntriesOf(instructions[..i + 1]) == EntriesOf(instructions[..i]) + [e];
      var definitionOpt := ByOpCode(instruction.opCode);
      if definitionOpt.None? {
        continue;
      }
      var definition := definitionOpt.value;
      if definition == OpName {
        if |instruction.operands| == 0 {
          LaterInstructions(instructions, i + 1);
          return Err(MissingOperand(0, 0));
        }
        var id := instruction.operands[0];
        var name := ConsumeUtf8String(instruction.operands, 1);
        var text := name.value.text;
        if text == "" {
          text := "_";
        }
        if text in nameToId {
          LaterInstructions(instructions, i + 1);
          return Err(NameRedefinition(text));
        }
        nameToId := nameToId[text := id];
        idToName := idToName[id := text];
      }
    }
    assert instructions[..|instructions|] == instructions;
    r := Ok(SMIdentifiers(nameToId, idToName));
  }

  /** Once the loop has failed on the first k instructions, the rest do not matter. */
  lemma LaterInstructions(insts: seq<ParsedInstruction>, k: nat)
    requires k <= |insts| && IdentifiersOf(insts[..k]).Err?
    ensures IdentifiersOf(insts) == IdentifiersOf(insts[..k])
  {
    EntriesOfAppend(insts[..k], insts[k..]);
    assert insts[..k] + insts[k..] == insts;
    RecordAllAppend(Ok(EMPTY), EntriesOf(insts[..k]), EntriesOf(insts[k..]));
    RecordAllErr(IdentifiersOf(insts[..k]).error, EntriesOf(insts[k..]));
  }

  /** The entries of a + b are those of a, then those of b. */
  lemma {:induction false} EntriesOfAppend(a: seq<ParsedInstruction>, b: seq<ParsedInstruction>)
    ensures EntriesOf(a + b) == EntriesOf(a) + EntriesOf(b)
    decreases |b|
  {
    if b == [] {
      assert a + b == a;
    } else {
      assert (a + b)[..|a + b| - 1] == a + b[..|b| - 1];
      EntriesOfAppend(a, b[..|b| - 1]);
    }
  }

  /** Running the loop over a + b is running it over a, then over b. */
  lemma {:induction false} RecordAllAppend(start: Result<SMIdentifiers, Failure>, a: seq<Entry>, b: seq<Entry>)
    ensures RecordAll(start, a + b) == RecordAll(RecordAll(start, a), b)
    decreases |b|
  {
    if b == [] {
      assert a + b == a;
    } else {
      assert (a + b)[..|a + b| - 1] == a + b[..|b| - 1];
      RecordAllAppend(start, a, b[..|b| - 1]);
    }
  }

  /** A failure stays that failure. */
  lemma {:induction false} RecordAllErr(f: Failure, es: seq<Entry>)
    ensures RecordAll(Err(f), es) == Err(f)
  {
    if es != [] {
      RecordAllErr(f, es[..|es| - 1]);
    }
  }

  /** Instructions other than registered OpName leave the tables as they are, wherever they stand. */
  lemma OthersIgnored(a: seq<ParsedInstruction>, x: ParsedInstruction, b: seq<ParsedInstruction>)
    requires !IsName(x)
    ensures IdentifiersOf(a + [x] + b) == IdentifiersOf(a + b)
  {
    EntriesOfAppend(a + [x], b);
    EntriesOfAppend(a, [x]);
    EntriesOfAppend(a, b);
    assert [x][..0] == [];
    var ea := EntriesOf(a);
    RecordAllAppend(Ok(EMPTY), ea + [Skip], EntriesOf(b));
    RecordAllAppend(Ok(EMPTY), ea, EntriesOf(b));
    assert (ea + [Skip])[..|ea|] == ea;
    if Build(ea).Err? {
      RecordAllErr(Build(ea).error, [Skip]);
    }
  }

  /** Every name's id names it back: idToName[id] == n implies nameToId[n] == id. */
  predicate Consistent(t: SMIdentifiers)
  {
    forall id :: id in t.idToName ==> t.idToName[id] in t.nameToId && t.nameToId[t.idToName[id]] == id
  }

  /** Some entry defines the name n. */
  predicate Defines(es: seq<Entry>, n: string)
  {
    exists k :: 0 <= k < |es| && es[k].Define? && es[k].name == n
  }

  /** No entry misses its id and no two definitions give the same name. */
  predicate WellNamed(es: seq<Entry>)
  {
    && (forall k :: 0 <= k < |es| ==> !es[k].MissingId?)
    && (forall j, k :: 0 <= j < k < |es| && es[j].Define? && es[k].Define? ==> es[j].name != es[k].name)
  }

  /**
   * The tables are built exactly when no OpName lacks its id and all names
   * differ; then nameToId holds exactly the names given, and the two tables
   * agree with each other.
   */
  lemma {:induction false} BuildOk(es: seq<Entry>)
    ensures Build(es).Ok? <==> WellNamed(es)
    ensures Build(es).Ok? ==>
      && Consistent(Build(es).value)
      && forall n :: n in Build(es).value.nameToId <==> Defines(es, n)
  {
    if es != [] {
      var init := es[..|es| - 1];
      var e := es[|es| - 1];
      BuildOk(init);
      assert forall k :: 0 <= k < |init| ==> init[k] == es[k];
      if Build(init).Ok? {
        var t := Build(init).value;
        match e
        case Skip =>
          SkipKeeps(es);
        case MissingId =>
          assert !WellNamed(es);
        case Define(id, name) =>
          if name in t.nameToId {
            var j :| 0 <= j < |init| && init[j].Define? && init[j].name == name;
            assert !WellNamed(es) by {
              assert es[j].Define? && es[|es| - 1].Define?;
            }
          } else {
            DefineFresh(es, t);
          }
      }
    }
  }

  /** A last entry that defines nothing adds no name and keeps WellNamed as it was. */
  lemma SkipKeeps(es: seq<Entry>)
    requires es != [] && es[|es| - 1].Skip?
    ensures forall n :: Defines(es, n) <==> Defines(es[..|es| - 1], n)
    ensures WellNamed(es) <==> WellNamed(es[..|es| - 1])
  {
    var init := es[..|es| - 1];
    assert forall k :: 0 <= k < |init| ==> init[k] == es[k];
    forall n | Defines(es, n)
      ensures Defines(init, n)
    {
      var k :| 0 <= k < |es| && es[k].Define? && es[k].name == n;
      assert k < |init|;
    }
  }

  /** A last definition of a fresh name adds exactly that name and keeps the tables consistent. */
  lemma DefineFresh(es: seq<Entry>, t: SMIdentifiers)
    requires es != [] && es[|es| - 1].Define?
    requires Build(es[..|es| - 1]) == Ok(t) && Consistent(t)
    requires forall n :: n in t.nameToId <==> Defines(es[..|es| - 1], n)
    requires es[|es| - 1].name !in t.nameToId
    ensures WellNamed(es[..|es| - 1]) ==> WellNamed(es)
    ensures Build(es).Ok? && Consistent(Build(es).value)
    ensures forall n :: n in Build(es).value.nameToId <==> Defines(es, n)
  {
    var init := es[..|es| - 1];
    var name := es[|es| - 1].name;
    assert forall k :: 0 <= k < |init| ==> init[k] == es[k];
    assert Defines(es, name);
    forall n | Defines(es, n) && n != name
      ensures Defines(init, n)
    {
      var k :| 0 <= k < |es| && es[k].Define? && es[k].name == n;
      assert k < |init|;
    }
    forall j | 0 <= j < |init| && init[j].Define?
      ensures init[j].name != name
    {
      assert Defines(init, init[j].name);
    }
  }

  /** If the loop over all entries succeeds, so does the loop over all but the last. */
  lemma BuildOkInit(es: seq<Entry>)
    requires es != [] && Build(es).Ok?
    ensures Build(es[..|es| - 1]).Ok?
  {
  }

  /** Each definition's name is recorded under its id in nameToId. */
  lemma {:induction false} NamesRecorded(es: seq<Entry>, k: nat)
    requires k < |es| && es[k].Define? && Build(es).Ok?
    ensures es[k].name in Build(es).value.nameToId && Build(es).value.nameToId[es[k].name] == es[k].id
  {
    var init := es[..|es| - 1];
    BuildOkInit(es);
    if k < |init| {
      assert init[k] == es[k];
      NamesRecorded(init, k);
    }
  }

  /**
   * idToName maps each defined id to the name of the last definition of that
   * id: an id named twice keeps the later name.
   */
  lemma {:induction false} LastNameWins(es: seq<Entry>, k: nat)
    requires k < |es| && es[k].Define? && Build(es).Ok?
    requires forall l :: k < l < |es| && es[l].Define? ==> es[l].id != es[k].id
    ensures es[k].id in Build(es).value.idToName && Build(es).value.idToName[es[k].id] == es[k].name
  {
    var init := es[..|es| - 1];
    BuildOkInit(es);
    if k < |init| {
      assert init[k] == es[k];
      assert forall l :: k < l < |init| ==> init[l] == es[l];
      LastNameWins(init, k);
    }
  }

  /** idToName holds exactly the ids some definition names. */
  lemma {:induction false} NamedIds(es: seq<Entry>, id: Word)
    requires Build(es).Ok?
    ensures id in Build(es).value.idToName <==> exists k :: 0 <= k < |es| && es[k].Define? && es[k].id == id
  {
    if es != [] {
      var init := es[..|es| - 1];
      BuildOkInit(es);
      NamedIds(init, id);
      assert forall k :: 0 <= k < |init| ==> init[k] == es[k];
      if exists k :: 0 <= k < |es| && es[k].Define? && es[k].id == id {
        var k :| 0 <= k < |es| && es[k].Define? && es[k].id == id;
        if k < |init| {
          assert init[k].Define? && init[k].id == id;
        }
      }
    }
  }

  /** The entries of two instructions. */
  lemma EntriesOfPair(x: ParsedInstruction, y: ParsedInstruction)
    ensures EntriesOf([x, y]) == [EntryOf(x), EntryOf(y)]
  {
    assert [x][..0] == [];
    assert EntriesOf([x]) == [EntryOf(x)];
    EntriesOfAppend([x], [y]);
    assert [x] + [y] == [x, y];
  }

  /** The tables of two definitions. */
  lemma BuildPair(a: Entry, b: Entry)
    requires a.Define? && b.Define?
    ensures Build([a, b]) == Record(Record(EMPTY, a).value, b)
  {
    assert [a, b][..1] == [a];
    assert [a][..0] == [];
    assert RecordAll(Ok(EMPTY), []) == Ok(EMPTY);
    assert Build([a]) == Record(EMPTY, a);
  }

  /** A name given twice fails, even when both instructions name the same id. */
  lemma RepeatedNameFails(x: ParsedInstruction, y: ParsedInstruction)
    requires EntryOf(x).Define? && EntryOf(y).Define? && EntryOf(x).name == EntryOf(y).name
    ensures IdentifiersOf([x, y]) == Err(NameRedefinition(EntryOf(x).name))
  {
    EntriesOfPair(x, y);
    BuildPair(EntryOf(x), EntryOf(y));
  }

  /** The tables of two definitions of one id under different names. */
  lemma BuildRenamed(a: Entry, b: Entry)
    requires a.Define? && b.Define? && a.id == b.id && a.name != b.name
    ensures var r := Build([a, b]);
      r.Ok? && r.value.idToName == map[a.id := b.name] && r.value.nameToId == map[a.name := a.id, b.name := b.id]
  {
    BuildPair(a, b);
  }

  /** An id named twice with different texts keeps the later name, while nameToId keeps both texts. */
  lemma RenamedId(x: ParsedInstruction, y: ParsedInstruction)
    requires EntryOf(x).Define? && EntryOf(y).Define? && EntryOf(x).id == EntryOf(y).id
    requires EntryOf(x).name != EntryOf(y).name
    ensures var r := IdentifiersOf([x, y]);
      && r.Ok?
      && r.value.idToName == map[EntryOf(x).id := EntryOf(y).name]
      && r.value.nameToId == map[EntryOf(x).name := EntryOf(x).id, EntryOf(y).name := EntryOf(y).id]
  {
    EntriesOfPair(x, y);
    BuildRenamed(EntryOf(x), EntryOf(y));
  }
}

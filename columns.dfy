/**
 * The text layout of the disassembly: the offset, assignment and raw operand
 * columns, the banner, how an instruction's line is put together, and the
 * writer that collects lines until the first failure.
 */
module Columns {
  import opened Base
  import opened Text
  import opened Failures
  import opened ParserApi

  /** "%08x" of a long: at least eight lower-case hexadecimal digits, zero-filled. */
  function PaddedHex(n: nat): (s: string)
    ensures |s| >= 8 && IsHex(s) && HexValue(s) == n
    ensures n < 0x1_0000_0000 ==> s == Hex8(n)
  {
    if n < 0x1_0000_0000 then Hex8(n)
    else
      assert Pow16(8) == 0x1_0000_0000;
      HexStringLong(n, 8);
      HexStringValue(n);
      HexString(n)
  }

  /** formatOffset: "0x", the offset in hexadecimal, and " |". */
  function FormatOffset(offset: nat): (s: string)
    ensures |s| >= 12 && s[..2] == "0x" && s[|s| - 2..] == " |"
    ensures IsHex(s[2..|s| - 2]) && HexValue(s[2..|s| - 2]) == offset
    ensures offset < 0x1_0000_0000 ==> |s| == 12
  {
    var s := "0x" + PaddedHex(offset) + " |";
    assert s[2..|s| - 2] == PaddedHex(offset);
    s
  }

  /** formatRawOperand: "$0x" and the word in eight hexadecimal digits. */
  function FormatRawOperand(w: Word): (s: string)
    ensures |s| == 11 && s[..3] == "$0x" && IsHex(s[3..]) && HexValue(s[3..]) == w
  {
    var s := "$0x" + Hex8(w);
    assert s[3..] == Hex8(w);
    s
  }

  /** The empty assignment column: "%-12s" of "". */
  const BLANK: string := "            "

  /** "%12s" of "%<id> =": the assignment right-aligned in twelve columns, never cut. */
  function Assignment(id: Word): (s: string)
  {
    PadLeft("%" + NatToString(id) + " =", 12, ' ')
  }

  /** The assignment column is twelve wide unless the id needs more: spaces, then "%", the id's digits and " =". */
  lemma AssignmentShape(id: Word)
    ensures var s := Assignment(id); var k := |NatToString(id)|;
      |s| == (if k + 3 >= 12 then k + 3 else 12)
      && s[|s| - k - 3] == '%' && s[|s| - 2..] == " ="
      && (forall i :: 0 <= i < |s| - k - 3 ==> s[i] == ' ')
      && IsDigits(s[|s| - k - 2..|s| - 2]) && DigitsValue(s[|s| - k - 2..|s| - 2]) == id
  {
    var d := NatToString(id);
    var t := "%" + d + " =";
    var s := Assignment(id);
    var k := |d|;
    assert s[|s| - |t|..] == t;
    assert s[|s| - k - 3] == t[0];
    assert s[|s| - 2..] == t[|t| - 2..];
    assert t[1..|t| - 2] == d;
    assert s[|s| - k - 2..|s| - 2] == t[1..|t| - 2];
    NatToStringValue(id);
  }

  function Power10(k: nat): nat
  {
    if k == 0 then 1 else 10 * Power10(k - 1)
  }

  /** A number below 10^k has at most k decimal digits. */
  lemma {:induction false} DecimalLength(n: nat, k: nat)
    requires 1 <= k && n < Power10(k)
    ensures |NatToString(n)| <= k
  {
    if n >= 10 {
      assert k >= 2;
      assert n / 10 < Power10(k - 1);
      DecimalLength(n / 10, k - 1);
    }
  }

  /** Ids below 10^9 keep the assignment column exactly twelve wide. */
  lemma AssignmentWidth(id: Word)
    requires id < 1_000_000_000
    ensures |Assignment(id)| == 12
  {
    assert Power10(9) == 1_000_000_000;
    DecimalLength(id, 9);
  }

  /** What writing one instruction leaves: the text written, and the failure that stopped it, if any. */
  datatype Written = Written(text: string, failure: Option<Failure>)

  /** One raw operand's field: "$0x%08x" and the space after it. */
  function RawField(w: Word): (s: string)
    ensures |s| == 12 && s[..11] == FormatRawOperand(w) && s[11] == ' '
  {
    FormatRawOperand(w) + " "
  }

  /** The fields of the raw operands, one per operand. */
  function RawFields(ops: seq<Word>): (fs: seq<string>)
    ensures |fs| == |ops| && forall i :: 0 <= i < |ops| ==> fs[i] == RawField(ops[i]) && |fs[i]| == 12
  {
    seq(|ops|, i requires 0 <= i < |ops| => RawField(ops[i]))
  }

  /** Texts written one after another. */
  function Concat(fs: seq<string>): string
  {
    if fs == [] then "" else Concat(fs[..|fs| - 1]) + fs[|fs| - 1]
  }

  /** Texts of twelve characters each follow one another in twelve-character fields. */
  lemma {:induction false} ConcatFields(fs: seq<string>, k: nat)
    requires forall i :: 0 <= i < |fs| ==> |fs[i]| == 12
    ensures |Concat(fs)| == 12 * |fs|
    ensures k < |fs| ==> Concat(fs)[12 * k..12 * k + 12] == fs[k]
  {
    if fs != [] {
      var init := fs[..|fs| - 1];
      var r := Concat(init);
      var c := fs[|fs| - 1];
      ConcatFields(init, k);
      assert Concat(fs) == r + c;
      assert |r| == 12 * |init|;
      if k < |init| {
        assert 12 * k + 12 <= |r|;
        assert (r + c)[12 * k..12 * k + 12] == r[12 * k..12 * k + 12];
        assert init[k] == fs[k];
      } else if k == |init| {
        assert 12 * k == |r|;
        assert (r + c)[12 * k..12 * k + 12] == c;
      }
    }
  }

  /** The raw operands, field after field. */
  function RawOperands(ops: seq<Word>): string
  {
    Concat(RawFields(ops))
  }

  /** Operand k of a raw line sits in the k-th twelve-character field. */
  lemma RawOperandsFields(ops: seq<Word>, k: nat)
    ensures |RawOperands(ops)| == 12 * |ops|
    ensures k < |ops| ==> RawOperands(ops)[12 * k..12 * k + 12] == RawField(ops[k])
  {
    ConcatFields(RawFields(ops), k);
  }

  /** disassembleRaw's line: offset, the blank column, "?", then every operand in hexadecimal. */
  function RawLine(inst: ParsedInstruction): string
  {
    FormatOffset(inst.byteOffset) + " " + BLANK + " " + "?" + " " + RawOperands(inst.operands)
  }

  /** The raw line's layout around an offset of twelve characters. */
  lemma RawLayout(o: string, t: string)
    requires |o| == 12
    ensures var s := o + " " + BLANK + " " + "?" + " " + t;
      |s| == 28 + |t| && s[..12] == o && (forall i :: 12 <= i < 26 ==> s[i] == ' ') && s[26..28] == "? " && s[28..] == t
  {
    var s := o + " " + BLANK + " " + "?" + " " + t;
    assert s == o + (" " + BLANK + " " + "?" + " ") + t;
  }

  /** A raw line below 2^32 bytes: the offset in twelve columns, "?" at column 26, the operand fields from column 28. */
  lemma RawColumns(inst: ParsedInstruction)
    requires inst.byteOffset < 0x1_0000_0000
    ensures var s := RawLine(inst);
      |s| == 28 + 12 * |inst.operands| && s[..12] == FormatOffset(inst.byteOffset)
      && (forall i :: 12 <= i < 26 ==> s[i] == ' ') && s[26..28] == "? " && s[28..] == RawOperands(inst.operands)
  {
    RawOperandsFields(inst.operands, 0);
    RawLayout(FormatOffset(inst.byteOffset), RawOperands(inst.operands));
  }

  /**
   * The line of an instruction with a definition: the offset, the assignment,
   * the mnemonic and, when there are any, the operands. A failure leaves the
   * part of the line written before it.
   */
  function RegisteredLine(offset: nat, assignment: Result<string, Failure>, name: string, operands: Result<string, Failure>): Written
  {
    LineAfter(FormatOffset(offset), assignment, name, operands)
  }

  /** A registered instruction's line after the given offset column. */
  function LineAfter(o: string, assignment: Result<string, Failure>, name: string, operands: Result<string, Failure>): Written
  {
    var prefix := o + " ";
    if assignment.Err? then Written(prefix, Some(assignment.error))
    else
      var head := prefix + assignment.value + " " + name;
      if operands.Err? then Written(head, Some(operands.error))
      else if operands.value == "" then Written(head, None)
      else Written(head + " " + operands.value, None)
  }

  /**
   * With an offset below 2^32 and a twelve-wide assignment: the offset in the
   * first twelve columns, the assignment in columns 13 to 24, the mnemonic
   * from column 26, and the operands after one more space. The first failure
   * stops the line where it happens.
   */
  lemma RegisteredColumns(offset: nat, assignment: Result<string, Failure>, name: string, operands: Result<string, Failure>)
    requires offset < 0x1_0000_0000 && (assignment.Ok? ==> |assignment.value| == 12)
    ensures var w := RegisteredLine(offset, assignment, name, operands);
      |w.text| >= 13 && w.text[..12] == FormatOffset(offset) && w.text[12] == ' '
    ensures var w := RegisteredLine(offset, assignment, name, operands);
      assignment.Err? ==> w.failure == Some(assignment.error) && |w.text| == 13
    ensures var w := RegisteredLine(offset, assignment, name, operands);
      assignment.Ok? ==>
        |w.text| >= 26 + |name| && w.text[13..25] == assignment.value && w.text[25] == ' '
        && w.text[26..26 + |name|] == name
        && (operands.Err? ==> w.failure == Some(operands.error) && |w.text| == 26 + |name|)
        && (operands.Ok? ==> w.failure.None? && w.text[26 + |name|..] == if operands.value == "" then "" else " " + operands.value)
  {
    LineAfterColumns(FormatOffset(offset), assignment, name, operands);
  }

  /** RegisteredColumns for any offset column twelve wide. */
  lemma LineAfterColumns(o: string, assignment: Result<string, Failure>, name: string, operands: Result<string, Failure>)
    requires |o| == 12 && (assignment.Ok? ==> |assignment.value| == 12)
    ensures var w := LineAfter(o, assignment, name, operands);
      |w.text| >= 13 && w.text[..12] == o && w.text[12] == ' '
    ensures var w := LineAfter(o, assignment, name, operands);
      assignment.Err? ==> w.failure == Some(assignment.error) && |w.text| == 13
    ensures var w := LineAfter(o, assignment, name, operands);
      assignment.Ok? ==>
        |w.text| >= 26 + |name| && w.text[13..25] == assignment.value && w.text[25] == ' '
        && w.text[26..26 + |name|] == name
        && (operands.Err? ==> w.failure == Some(operands.error) && |w.text| == 26 + |name|)
        && (operands.Ok? ==> w.failure.None? && w.text[26 + |name|..] == if operands.value == "" then "" else " " + operands.value)
  {
    var w := LineAfter(o, assignment, name, operands);
    if assignment.Err? {
      assert w.text == o + " ";
      assert w.text[..12] == o;
    } else {
      var a := assignment.value;
      var rest := if operands.Ok? && operands.value != "" then " " + operands.value else "";
      assert w.text == o + " " + a + " " + name + rest by {
        assert o + " " + a + " " + name + "" == o + " " + a + " " + name;
      }
      HeadLayout(o, a, name, rest);
    }
  }

  /** The layout of a line with an assignment column, after an offset of twelve characters. */
  lemma HeadLayout(o: string, a: string, name: string, rest: string)
    requires |o| == 12 && |a| == 12
    ensures var t := o + " " + a + " " + name + rest;
      |t| == 26 + |name| + |rest| && t[..12] == o && t[12] == ' ' && t[13..25] == a && t[25] == ' '
      && t[26..26 + |name|] == name && t[26 + |name|..] == rest
      && t[..13] == o + " " && t[..26 + |name|] == o + " " + a + " " + name
  {
    var t := o + " " + a + " " + name + rest;
    assert t == o + [' '] + a + [' '] + name + rest;
  }

  /** The banner: version, generator, id bound and schema from the header, then a blank line. */
  function Banner(h: Header): (b: seq<string>)
    ensures |b| == 6 && b[0] == "; SPIR-V" && b[5] == ""
    ensures b[1] == "; Version " + NatToString(h.VersionMajor()) + "." + NatToString(h.VersionMinor())
    ensures |b[2]| > 15 && b[2][..15] == "; Generator: 0x"
    ensures IsHex(b[2][15..]) && HexValue(b[2][15..]) == h.generatorMagicNumber
    ensures b[3] == "; Bound: " + NatToString(h.idBound) && IsDigits(b[3][9..]) && DigitsValue(b[3][9..]) == h.idBound
    ensures b[4] == "; Schema: " + NatToString(h.schema) && IsDigits(b[4][10..]) && DigitsValue(b[4][10..]) == h.schema
  {
    var bound := "; Bound: " + NatToString(h.idBound);
    assert bound[9..] == NatToString(h.idBound);
    NatToStringValue(h.idBound);
    var schema := "; Schema: " + NatToString(h.schema);
    assert schema[10..] == NatToString(h.schema);
    NatToStringValue(h.schema);
    var g := "; Generator: 0x" + HexString(h.generatorMagicNumber);
    assert g[..15] == "; Generator: 0x";
    assert g[15..] == HexString(h.generatorMagicNumber);
    HexStringValue(h.generatorMagicNumber);
    [ "; SPIR-V",
      "; Version " + NatToString(h.VersionMajor()) + "." + NatToString(h.VersionMinor()),
      g,
      bound,
      schema,
      "" ]
  }

  /** What the writer holds: the finished lines, the unfinished one, and the failure that ended writing, if any. */
  datatype Outcome = Outcome(lines: seq<string>, partial: string, failure: Option<Failure>)

  /** Writing lines in order up to and including the first that fails. */
  function Collect(ws: seq<Written>): Outcome
  {
    if ws == [] then Outcome([], "", None)
    else
      var o := Collect(ws[..|ws| - 1]);
      var w := ws[|ws| - 1];
      if o.failure.Some? then o
      else if w.failure.None? then Outcome(o.lines + [w.text], "", None)
      else Outcome(o.lines, w.text, w.failure)
  }

  /**
   * Without a failure there is exactly one finished line per written line,
   * in order; with one, the lines before the first failing one, and its text
   * left unfinished.
   */
  lemma {:induction false} CollectMeaning(ws: seq<Written>)
    ensures var o := Collect(ws); var k := |o.lines|;
      k <= |ws|
      && (forall j :: 0 <= j < k ==> ws[j] == Written(o.lines[j], None))
      && (o.failure.None? ==> k == |ws| && o.partial == "")
      && (o.failure.Some? ==> k < |ws| && ws[k] == Written(o.partial, o.failure))
  {
    if ws != [] {
      var init := ws[..|ws| - 1];
      CollectMeaning(init);
      assert forall j :: 0 <= j < |init| ==> init[j] == ws[j];
    }
  }

  /** Once a prefix has failed, nothing after it is written. */
  lemma {:induction false} CollectAfterFailure(ws: seq<Written>, k: nat)
    requires k <= |ws| && Collect(ws[..k]).failure.Some?
    ensures Collect(ws) == Collect(ws[..k])
    decreases |ws|
  {
    if k < |ws| {
      var init := ws[..|ws| - 1];
      assert init[..k] == ws[..k];
      CollectAfterFailure(init, k);
    } else {
      assert ws[..k] == ws;
    }
  }

  /** Writing one more line after a prefix that has not failed: the finished lines grow by it, or writing stops at it. */
  lemma CollectNext(start: seq<string>, ws: seq<Written>, i: nat, lines: seq<string>)
    requires i < |ws| && Collect(ws[..i]).failure.None? && Collect(ws[..i]).partial == ""
    requires lines == start + Collect(ws[..i]).lines
    ensures ws[i].failure.None? ==>
      Collect(ws[..i + 1]).failure.None? && Collect(ws[..i + 1]).partial == ""
      && lines + [ws[i].text] == start + Collect(ws[..i + 1]).lines
    ensures ws[i].failure.Some? ==>
      Collect(ws[..i + 1]).failure == ws[i].failure && Collect(ws[..i + 1]).partial == ws[i].text
      && Collect(ws[..i + 1]).lines == Collect(ws[..i]).lines
  {
    assert ws[..i + 1][..i] == ws[..i];
    AppendTwice(start, Collect(ws[..i]).lines, [ws[i].text]);
  }

  /** The whole list is its longest prefix. */
  lemma CollectWhole(ws: seq<Written>)
    ensures Collect(ws[..|ws|]) == Collect(ws)
  {
    assert ws[..|ws|] == ws;
  }

  /** The line each instruction gets, in list order. */
  function MapLines(line: ParsedInstruction -> Written, insts: seq<ParsedInstruction>): seq<Written>
  {
    seq(|insts|, j requires 0 <= j < |insts| => line(insts[j]))
  }

  /**
   * The lines of a list of instructions, collected: one per instruction in
   * order, or those before the first failing one and its unfinished text.
   */
  lemma CollectLinesMeaning(line: ParsedInstruction -> Written, insts: seq<ParsedInstruction>)
    ensures var o := Collect(MapLines(line, insts)); var k := |o.lines|;
      k <= |insts|
      && (forall j :: 0 <= j < k ==> line(insts[j]) == Written(o.lines[j], None))
      && (o.failure.None? <==> forall j :: 0 <= j < |insts| ==> line(insts[j]).failure.None?)
      && (o.failure.None? ==> k == |insts| && o.partial == "")
      && (o.failure.Some? ==> k < |insts| && line(insts[k]) == Written(o.partial, o.failure))
  {
    CollectMeaning(MapLines(line, insts));
  }

  /** Once the lines of a prefix of the instructions have failed, the rest is not written. */
  lemma CollectLinesAfterFailure(line: ParsedInstruction -> Written, insts: seq<ParsedInstruction>, k: nat)
    requires k <= |insts| && Collect(MapLines(line, insts[..k])).failure.Some?
    ensures Collect(MapLines(line, insts)) == Collect(MapLines(line, insts[..k]))
  {
    var ws := MapLines(line, insts);
    assert ws[..k] == MapLines(line, insts[..k]);
    CollectAfterFailure(ws, k);
  }

  // ------------------------------------------------------------ the writer

  /** The buffered writer: the lines finished so far and the line being written. */
  class Writer {
    var lines: seq<string>
    var current: string

    constructor ()
      ensures lines == [] && current == ""
    {
      lines := [];
      current := "";
    }

    method Append(s: string)
      modifies this
      ensures lines == old(lines) && current == old(current) + s
    {
      current := current + s;
    }

    method NewLine()
      modifies this
      ensures lines == old(lines) + [old(current)] && current == ""
    {
      lines := lines + [current];
      current := "";
    }
  }

  /** Appending in two steps is appending the two parts at once. */
  lemma AppendTwice<T>(a: seq<T>, b: seq<T>, c: seq<T>)
    ensures a + b + c == a + (b + c)
  {
  }

  /** The operands of disassembleRaw: each in hexadecimal and followed by a space. */
  method WriteRawOperands(writer: Writer, operands: seq<Word>)
    modifies writer
    ensures writer.lines == old(writer.lines) && writer.current == old(writer.current) + RawOperands(operands)
  {
    ghost var head := writer.current;
    ghost var fields := RawFields(operands);
    for i := 0 to |operands|
      invariant writer.lines == old(writer.lines)
      invariant writer.current == head + Concat(fields[..i])
    {
      assert fields[..i + 1][..i] == fields[..i];
      assert Concat(fields[..i + 1]) == Concat(fields[..i]) + fields[i];
      writer.Append(FormatRawOperand(operands[i]));
      writer.Append(" ");
      AppendTwice(head + Concat(fields[..i]), FormatRawOperand(operands[i]), " ");
      AppendTwice(head, Concat(fields[..i]), fields[i]);
    }
    assert fields[..|operands|] == fields;
  }

  /** disassembleRaw: the raw line, operand by operand, at the start of a line. */
  method DisassembleRaw(inst: ParsedInstruction, writer: Writer)
    requires writer.current == ""
    modifies writer
    ensures writer.lines == old(writer.lines) + [RawLine(inst)] && writer.current == ""
  {
    ghost var offset := FormatOffset(inst.byteOffset);
    writer.Append(FormatOffset(inst.byteOffset));
    assert writer.current == offset;
    writer.Append(" ");
    writer.Append(BLANK);
    writer.Append(" ");
    writer.Append("?");
    writer.Append(" ");
    assert writer.current == offset + " " + BLANK + " " + "?" + " ";
    WriteRawOperands(writer, inst.operands);
    writer.NewLine();
  }

  /** The part of disassembleInstruction after the definition is found: the line piece by piece, stopping at the first failure. */
  method DisassembleRegistered(writer: Writer, offset: nat, assignment: Result<string, Failure>, name: string, operands: Result<string, Failure>)
    returns (failure: Option<Failure>)
    requires writer.current == ""
    modifies writer
    ensures var w := RegisteredLine(offset, assignment, name, operands);
      failure == w.failure
      && (failure.None? ==> writer.lines == old(writer.lines) + [w.text] && writer.current == "")
      && (failure.Some? ==> writer.lines == old(writer.lines) && writer.current == w.text)
  {
    ghost var o := FormatOffset(offset);
    writer.Append(FormatOffset(offset));
    assert writer.current == o;
    writer.Append(" ");
    if assignment.Err? {
      return Some(assignment.error);
    }
    writer.Append(assignment.value);
    writer.Append(" ");
    writer.Append(name);
    if operands.Err? {
      return Some(operands.error);
    }
    if operands.value != "" {
      writer.Append(" ");
      writer.Append(operands.value);
    }
    writer.NewLine();
    return None;
  }

  /** The banner's lines, one after another. */
  method WriteBanner(writer: Writer, header: Header)
    requires writer.current == ""
    modifies writer
    ensures writer.lines == old(writer.lines) + Banner(header) && writer.current == ""
  {
    var banner := Banner(header);
    for i := 0 to |banner|
      invariant writer.lines == old(writer.lines) + banner[..i] && writer.current == ""
    {
      writer.Append(banner[i]);
      assert writer.current == banner[i];
      writer.NewLine();
      assert banner[..i + 1] == banner[..i] + [banner[i]];
    }
    assert banner[..|banner|] == banner;
  }
}

/**
 * The pure helpers of the instruction enumeration generator: the minimum
 * operand count of an instruction, the quantifier of an operand, and the
 * Java constant name derived from a grammar name.
 */
module EnumGeneration {
  import opened Base
  import opened Text
  import opened Failures
  import opened Registry

  /** An operand of an instruction in the JSON grammar: kind, quantifier text and name. */
  datatype JsonOperand = JsonOperand(kind: string, quantifier: string, name: string)

  /** A quantifier that String.trim() reduces to the empty text. */
  predicate Blank(quantifier: string)
  {
    Trim(quantifier) == ""
  }

  /** instructionMinimumOperands: count the operands up to the first one with a non-blank quantifier. */
  method InstructionMinimumOperands(operands: seq<JsonOperand>) returns (required: nat)
    ensures required <= |operands|
    ensures forall k :: 0 <= k < required ==> Blank(operands[k].quantifier)
    ensures required < |operands| ==> !Blank(operands[required].quantifier)
  {
    required := 0;
    var index := 0;
    while index < |operands|
      invariant 0 <= index <= |operands| && required == index
      invariant forall k :: 0 <= k < required ==> Blank(operands[k].quantifier)
    {
      if !Blank(operands[index].quantifier) {
        break;
      }
      required := required + 1;
      index := index + 1;
    }
  }

  /** The three contracts above fix the count: no other number meets them. */
  lemma MinimumOperandsUnique(operands: seq<JsonOperand>, m: nat, n: nat)
    requires m <= |operands| && n <= |operands|
    requires forall k :: 0 <= k < m ==> Blank(operands[k].quantifier)
    requires m < |operands| ==> !Blank(operands[m].quantifier)
    requires forall k :: 0 <= k < n ==> Blank(operands[k].quantifier)
    requires n < |operands| ==> !Blank(operands[n].quantifier)
    ensures m == n
  {
  }

  /** transformQuantifier: the quantifier constant a grammar quantifier text stands for. */
  function TransformQuantifier(quantifier: string): (r: Result<Quantifier, Failure>)
    ensures r.Err? ==> r.error == UnrecognizedQuantifier(quantifier)
  {
    if quantifier == "" then Ok(One)
    else if quantifier == "?" then Ok(Optional)
    else if quantifier == "*" then Ok(Repeated)
    else Err(UnrecognizedQuantifier(quantifier))
  }

  /** The grammar's text for a quantifier. */
  function QuantifierText(q: Quantifier): string
  {
    match q
    case One => ""
    case Optional => "?"
    case Repeated => "*"
  }

  /** transformQuantifier accepts exactly the three texts of the grammar and inverts QuantifierText. */
  lemma TransformQuantifierInverse(quantifier: string, q: Quantifier)
    ensures TransformQuantifier(QuantifierText(q)) == Ok(q)
    ensures TransformQuantifier(quantifier) == Ok(q) <==> quantifier == QuantifierText(q)
  {
  }

  /** The operand definition the generator emits for a JSON operand (apostrophes are dropped from the name). */
  function TransformOperand(operand: JsonOperand, kind: OperandKind): Result<OperandDef, Failure>
  {
    match TransformQuantifier(operand.quantifier)
    case Ok(q) => Ok(OperandDef(kind, q, RemoveApostrophes(operand.name)))
    case Err(e) => Err(e)
  }

  /** String.replace("'", ""): every apostrophe goes, every other character stays. */
  function RemoveApostrophes(s: string): (r: string)
    ensures '\'' !in r
    ensures |r| <= |s|
  {
    if s == [] then [] else (if s[0] == '\'' then [] else [s[0]]) + RemoveApostrophes(s[1..])
  }

  /** A name without apostrophes is left as it is. */
  lemma {:induction false} RemoveApostrophesNone(s: string)
    ensures '\'' !in s ==> RemoveApostrophes(s) == s
  {
    if s != [] && '\'' !in s {
      assert s == [s[0]] + s[1..];
      RemoveApostrophesNone(s[1..]);
    }
  }

  /** Only apostrophes are removed: every other character keeps its number of occurrences. */
  lemma {:induction false} RemoveApostrophesKeeps(s: string)
    ensures multiset(RemoveApostrophes(s)) == multiset(s)['\'' := 0]
  {
    if s != [] {
      assert s == [s[0]] + s[1..];
      RemoveApostrophesKeeps(s[1..]);
    }
  }

  /** Removal works character by character, so it keeps the order of what remains. */
  lemma {:induction false} RemoveApostrophesAppend(a: string, b: string)
    ensures RemoveApostrophes(a + b) == RemoveApostrophes(a) + RemoveApostrophes(b)
  {
    if a == [] {
      assert a + b == b;
    } else {
      var head: string := if a[0] == '\'' then [] else [a[0]];
      assert (a + b)[0] == a[0] && (a + b)[1..] == a[1..] + b;
      RemoveApostrophesAppend(a[1..], b);
      assert RemoveApostrophes(a + b) == head + RemoveApostrophes(a[1..] + b);
      assert RemoveApostrophes(a) == head + RemoveApostrophes(a[1..]);
      assert head + (RemoveApostrophes(a[1..]) + RemoveApostrophes(b)) == (head + RemoveApostrophes(a[1..])) + RemoveApostrophes(b);
    }
  }

  /**
   * Where every quantifier is one the generator accepts, the minimum count it
   * derives from the texts is the number of leading operands quantified once.
   */
  lemma {:induction false} MinimumOperandsAgree(operands: seq<JsonOperand>, defs: seq<OperandDef>, n: nat)
    requires |defs| == |operands|
    requires forall k :: 0 <= k < |operands| ==> TransformQuantifier(operands[k].quantifier) == Ok(defs[k].quantifier)
    requires n <= |operands|
    requires forall k :: 0 <= k < n ==> Blank(operands[k].quantifier)
    requires n < |operands| ==> !Blank(operands[n].quantifier)
    ensures n == LeadingOnes(defs)
  {
    forall k | 0 <= k < |operands|
      ensures Blank(operands[k].quantifier) <==> defs[k].quantifier == One
    {
      BlankQuantifier(operands[k].quantifier);
    }
  }

  /** Of the grammar's three quantifier texts only the empty one is blank. */
  lemma BlankQuantifier(t: string)
    requires t == "" || t == "?" || t == "*"
    ensures Blank(t) <==> t == ""
  {
    if t != "" {
      assert !IsTrimmed(t[0]);
    }
  }

  /** Character.isUpperCase, for the ASCII letters. */
  predicate IsUpper(c: char)
  {
    'A' <= c <= 'Z'
  }

  /** Character.isAlphabetic(c) && Character.isLowerCase(c), for the ASCII letters. */
  predicate IsLower(c: char)
  {
    'a' <= c <= 'z'
  }

  /** Character.toUpperCase, for the ASCII letters. */
  function ToUpper(c: char): (u: char)
    ensures !IsLower(u)
    ensures IsLower(c) ==> IsUpper(u)
    ensures !IsLower(c) ==> u == c
  {
    if IsLower(c) then (c as int - 32) as char else c
  }

  /** Whether an underscore goes before the character at position k: an upper-case letter after a lower-case one. */
  predicate Boundary(s: string, k: nat)
    requires k < |s|
  {
    IsUpper(s[k]) && k > 0 && IsLower(s[k - 1])
  }

  /** The name after "SM_": each character upper-cased, an underscore before each lower-to-upper boundary. */
  function ConstantNameBody(s: string): string
  {
    if s == [] then []
    else ConstantNameBody(s[..|s| - 1]) + (if Boundary(s, |s| - 1) then "_" else "") + [ToUpper(s[|s| - 1])]
  }

  /** transformEnumConstantName: the StringBuilder loop, carrying the previous code point. */
  method TransformEnumConstantName(constantName: string) returns (r: string)
    ensures r == "SM_" + ConstantNameBody(constantName)
  {
    var upperCase := "SM_";
    var codepointNow: char := 0 as char;
    var codepointThen: char := 0 as char;
    for index := 0 to |constantName|
      invariant upperCase == "SM_" + ConstantNameBody(constantName[..index])
      invariant codepointThen == if index == 0 then 0 as char else constantName[index - 1]
    {
      codepointNow := constantName[index];
      assert constantName[..index + 1][..index] == constantName[..index];
      if IsUpper(codepointNow) {
        if IsLower(codepointThen) {
          upperCase := upperCase + "_";
        }
      }
      upperCase := upperCase + [ToUpper(codepointNow)];
      codepointThen := codepointNow;
    }
    assert constantName[..|constantName|] == constantName;
    r := upperCase;
  }

  /** The number of lower-to-upper boundaries in a name. */
  function Boundaries(s: string): nat
  {
    if s == [] then 0 else Boundaries(s[..|s| - 1]) + (if Boundary(s, |s| - 1) then 1 else 0)
  }

  /** The constant name is "SM_", then one character per input character and one underscore per boundary. */
  lemma {:induction false} ConstantNameLength(s: string)
    ensures |"SM_" + ConstantNameBody(s)| == 3 + |s| + Boundaries(s)
  {
    if s != [] {
      ConstantNameLength(s[..|s| - 1]);
    }
  }

  /** No lower-case letter survives. */
  lemma {:induction false} ConstantNameUpper(s: string)
    ensures forall k :: 0 <= k < |ConstantNameBody(s)| ==> !IsLower(ConstantNameBody(s)[k])
  {
    if s != [] {
      ConstantNameUpper(s[..|s| - 1]);
    }
  }

  /** The text without its underscores. */
  function WithoutUnderscores(s: string): string
  {
    if s == [] then [] else WithoutUnderscores(s[..|s| - 1]) + (if s[|s| - 1] == '_' then "" else [s[|s| - 1]])
  }

  /** Every character upper-cased. */
  function UpperCased(s: string): (r: string)
    ensures |r| == |s|
  {
    if s == [] then [] else UpperCased(s[..|s| - 1]) + [ToUpper(s[|s| - 1])]
  }

  lemma {:induction false} WithoutUnderscoresAppend(a: string, b: string)
    ensures WithoutUnderscores(a + b) == WithoutUnderscores(a) + WithoutUnderscores(b)
    decreases |b|
  {
    if b != [] {
      assert (a + b)[..|a + b| - 1] == a + b[..|b| - 1];
      WithoutUnderscoresAppend(a, b[..|b| - 1]);
    } else {
      assert a + b == a;
    }
  }

  /** One character is kept unless it is an underscore. */
  lemma WithoutUnderscoresSingle(c: char)
    ensures WithoutUnderscores([c]) == if c == '_' then "" else [c]
  {
    assert [c][..0] == [];
  }

  /** Taking the underscores back out of the name of an underscore-free text gives the text upper-cased. */
  lemma {:induction false} ConstantNameWithoutUnderscores(s: string)
    requires '_' !in s
    ensures WithoutUnderscores(ConstantNameBody(s)) == UpperCased(s)
  {
    if s != [] {
      var init, last := s[..|s| - 1], s[|s| - 1];
      assert last in s;
      assert '_' !in init by {
        forall c | c in init ensures c in s { }
      }
      ConstantNameWithoutUnderscores(init);
      var body := ConstantNameBody(init);
      var sep: string := if Boundary(s, |s| - 1) then "_" else "";
      assert ConstantNameBody(s) == body + sep + [ToUpper(last)];
      WithoutUnderscoresAppend(body + sep, [ToUpper(last)]);
      WithoutUnderscoresAppend(body, sep);
      if sep == "_" {
        WithoutUnderscoresSingle('_');
      } else {
        assert sep == [];
      }
      WithoutUnderscoresSingle(ToUpper(last));
      assert UpperCased(s) == UpperCased(init) + [ToUpper(last)];
    }
  }

  /** The first steps of the example "OpTypeFloat". */
  lemma ConstantNameOpT()
    ensures ConstantNameBody("OpT") == "OP_T"
  {
    assert "O"[..0] == "";
    assert ConstantNameBody("O") == "O";
    assert "Op"[..1] == "O";
    assert ConstantNameBody("Op") == "OP";
    assert "OpT"[..2] == "Op";
  }

  lemma ConstantNameOpType()
    ensures ConstantNameBody("OpType") == "OP_TYPE"
  {
    ConstantNameOpT();
    assert "OpTy"[..3] == "OpT";
    assert ConstantNameBody("OpTy") == "OP_TY";
    assert "OpTyp"[..4] == "OpTy";
    assert ConstantNameBody("OpTyp") == "OP_TYP";
    assert "OpType"[..5] == "OpTyp";
  }

  lemma ConstantNameOpTypeFlo()
    ensures ConstantNameBody("OpTypeFlo") == "OP_TYPE_FLO"
  {
    ConstantNameOpType();
    assert "OpTypeF"[..6] == "OpType";
    assert ConstantNameBody("OpTypeF") == "OP_TYPE_F";
    assert "OpTypeFl"[..7] == "OpTypeF";
    assert ConstantNameBody("OpTypeFl") == "OP_TYPE_FL";
    assert "OpTypeFlo"[..8] == "OpTypeFl";
  }

  /** An example: "OpTypeFloat" becomes "SM_OP_TYPE_FLOAT". */
  lemma ConstantNameOpTypeFloat()
    ensures "SM_" + ConstantNameBody("OpTypeFloat") == "SM_OP_TYPE_FLOAT"
  {
    ConstantNameOpTypeFlo();
    assert "OpTypeFloa"[..9] == "OpTypeFlo";
    assert ConstantNameBody("OpTypeFloa") == "OP_TYPE_FLOA";
    assert "OpTypeFloat"[..10] == "OpTypeFloa";
  }

  /** Step one of the example "GLSL450". */
  lemma ConstantNameGLSL()
    ensures ConstantNameBody("GLSL") == "GLSL"
  {
    assert "G"[..0] == "";
    assert ConstantNameBody("G") == "G";
    assert "GL"[..1] == "G";
    assert ConstantNameBody("GL") == "GL";
    assert "GLS"[..2] == "GL";
    assert ConstantNameBody("GLS") == "GLS";
    assert "GLSL"[..3] == "GLS";
    assert ConstantNameBody("GLSL") == "GLSL";
  }

  /** An example: "GLSL450" becomes "SM_GLSL450", with no underscore after a digit or capital. */
  lemma ConstantNameGLSL450()
    ensures "SM_" + ConstantNameBody("GLSL450") == "SM_GLSL450"
  {
    ConstantNameGLSL();
    assert "GLSL4"[..4] == "GLSL";
    assert ConstantNameBody("GLSL4") == "GLSL4";
    assert "GLSL45"[..5] == "GLSL4";
    assert ConstantNameBody("GLSL45") == "GLSL45";
    assert "GLSL450"[..6] == "GLSL45";
    assert ConstantNameBody("GLSL450") == "GLSL450";
  }
}

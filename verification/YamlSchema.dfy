/**
 Which texts are read as which values: the core schema of YAML 1.2.2 (section 10.3.2) as
 3rdparty/serde_yaml/src/de.rs has it, for plain scalars and for scalars under a core tag.
 */
module YamlSchema {
  import opened Wrappers
  import opened YamlInts
  import opened YamlValues
  import opened YamlScalars

  predicate SpellsNull(s: string) { s == "null" || s == "Null" || s == "NULL" || s == "~" }

  predicate SpellsTrue(s: string) { s == "true" || s == "True" || s == "TRUE" }

  predicate SpellsFalse(s: string) { s == "false" || s == "False" || s == "FALSE" }

  predicate SpellsInf(s: string) { s == ".inf" || s == ".Inf" || s == ".INF" }

  predicate SpellsNaN(s: string) { s == ".nan" || s == ".NaN" || s == ".NAN" }

  /** A signed or unsigned number of 64 bits. */
  predicate InRange(k: int) { -0x8000_0000_0000_0000 <= k <= 0xFFFF_FFFF_FFFF_FFFF }

  /** An infinity with a sign, or without one. */
  predicate SpellsPosInf(s: string) { SpellsInf(s) || (s != "" && s[0] == '+' && SpellsInf(s[1..])) }

  predicate SpellsNegInf(s: string) { s != "" && s[0] == '-' && SpellsInf(s[1..]) }

  // ---------------------------------------------------------------------------------
  // Plain scalars
  // ---------------------------------------------------------------------------------

  function PlainScalar(fp: FloatParser, s: string): Result<Value> {
    VisitScalar(fp, None, s, Plain, false)
  }

  lemma {:induction false} PlainNull(fp: FloatParser, s: string)
    ensures PlainScalar(fp, s) == Ok(Null) <==> SpellsNull(s) || s == ""
  {
  }

  lemma {:induction false} PlainBool(fp: FloatParser, s: string, b: bool)
    ensures PlainScalar(fp, s) == Ok(Bool(b)) <==> if b then SpellsTrue(s) else SpellsFalse(s)
  {
  }

  /** The float a text is, if it is neither null, a boolean nor an integer. */
  lemma {:induction false} PlainSpecial(fp: FloatParser, s: string)
    ensures PlainScalar(fp, s) == Ok(Num(Flt(PosInf))) <==> SpellsPosInf(s)
    ensures PlainScalar(fp, s) == Ok(Num(Flt(NegInf))) <==> SpellsNegInf(s)
    ensures PlainScalar(fp, s) == Ok(Num(Flt(NaN))) <==> SpellsNaN(s)
  {
    SpecialFloats(fp, s);
    if SpellsPosInf(s) || SpellsNegInf(s) || SpellsNaN(s) { SpecialIsVisited(fp, s); }
  }

  lemma {:induction false} SpecialIsVisited(fp: FloatParser, s: string)
    requires SpellsPosInf(s) || SpellsNegInf(s) || SpellsNaN(s)
    ensures ParseF64(fp, s).Some? ==> VisitUntaggedScalar(fp, s) == VisitF64(ParseF64(fp, s).value)
  {
    SpecialIsDot(s);
    DotIsNoInteger(s);
    SpecialIsNoWord(s);
  }

  lemma {:induction false} SpecialIsDot(s: string)
    requires SpellsPosInf(s) || SpellsNegInf(s) || SpellsNaN(s)
    ensures |Body(s)| > 0 && Body(s)[0] == '.' && (s[0] == '.' || s[0] == '+' || s[0] == '-')
  {
  }

  lemma {:induction false} SpecialIsNoWord(s: string)
    requires s != "" && (s[0] == '.' || s[0] == '+' || s[0] == '-')
    ensures !ParseNull(s) && ParseBool(s).None?
  {
  }

  lemma {:induction false} SpecialFloats(fp: FloatParser, s: string)
    ensures ParseF64(fp, s) == Some(PosInf) <==> SpellsPosInf(s)
    ensures ParseF64(fp, s) == Some(NegInf) <==> SpellsNegInf(s)
    ensures ParseF64(fp, s) == Some(NaN) <==> SpellsNaN(s)
  {
    if s != "" { assert s == [s[0]] + s[1..]; }
  }

  /** A literal begins with a sign or a digit. */
  lemma {:induction false} LiteralBegins(s: string)
    requires Literal(s).Some?
    ensures s != "" && (s[0] == '+' || s[0] == '-' || '0' <= s[0] <= '9')
  {
    var body := Body(s);
    if Radix(body) == 10 { DigitsAllDigits(body, 10, 0); }
  }

  /** The integer a literal denotes, as a signed or unsigned 64-bit number; -0 is 0. */
  lemma {:induction false} PlainInteger(fp: FloatParser, s: string, k: int)
    requires Literal(s) == Some(k) && InRange(k)
    ensures PlainScalar(fp, s) == Ok(Num(if k < 0 then NegInt(k) else PosInt(k)))
  {
    VisitIntIsLiteral(s);
    LiteralBegins(s);
    if '0' <= s[0] <= '9' { NumberIsNoWord(s); } else { SpecialIsNoWord(s); }
  }

  /** The digits of the largest radix, in either case. */
  lemma {:induction false} HexDigits(i: nat)
    requires i < 16
    ensures DigitValue("0123456789abcdef"[i], 16) == Some(i) && DigitValue("0123456789ABCDEF"[i], 16) == Some(i)
  {
  }

  lemma {:induction false} RadixTexts()
    ensures Literal("0x1F") == Some(31) && Literal("0o17") == Some(15) && Literal("-0b10") == Some(-2)
    ensures Literal("017") == None && Literal("+7") == Some(7)
  {
    assert Digits("1", 16) == Some(1) && "1F"[..1] == "1";
    assert Digits("1", 8) == Some(1) && "17"[..1] == "1";
    assert Digits("1", 2) == Some(1) && "10"[..1] == "1";
    assert Digits("1F", 16) == Some(31) && Digits("17", 8) == Some(15) && Digits("10", 2) == Some(2);
    assert "0o17"[1] != "0x"[1] && "0b10"[1] != "0x"[1] && "0b10"[1] != "0o"[1] && "017"[1] != "0x"[1];
    assert Radix("0x1F") == 16 && Radix("0o17") == 8 && Radix("0b10") == 2;
    assert "0x1F"[2..] == "1F" && "0o17"[2..] == "17" && "-0b10"[1..] == "0b10" && "0b10"[2..] == "10" && "+7"[1..] == "7";
  }

  lemma {:induction false} QuotedIsText(fp: FloatParser, s: string, style: Style)
    ensures style != Plain ==> VisitScalar(fp, None, s, style, false) == Ok(Str(s))
  {
  }

  // ---------------------------------------------------------------------------------
  // Scalars under a core tag
  // ---------------------------------------------------------------------------------

  /** A scalar in any style, under a tag that was not taken off before. */
  function UnderTag(fp: FloatParser, tag: string, s: string, style: Style): Result<Value> {
    VisitScalar(fp, Some(tag), s, style, false)
  }

  /** The tags differ in the last word. */
  lemma {:induction false} TagsDiffer()
    ensures |TAG_NULL| == |TAG_BOOL| == 22 && |TAG_INT| == 21 && |TAG_FLOAT| == 23 && TAG_NULL[18] != TAG_BOOL[18]
  {
  }

  lemma {:induction false} NullTag(fp: FloatParser, s: string, style: Style)
    ensures UnderTag(fp, "tag:yaml.org,2002:null", s, style) == if SpellsNull(s) then Ok(Null) else Err(InvalidValue)
  {
    TagsDiffer();
  }

  lemma {:induction false} BoolTag(fp: FloatParser, s: string, style: Style)
    ensures UnderTag(fp, "tag:yaml.org,2002:bool", s, style)
            == if SpellsTrue(s) then Ok(Bool(true)) else if SpellsFalse(s) then Ok(Bool(false)) else Err(InvalidValue)
  {
  }

  lemma {:induction false} IntTag(fp: FloatParser, s: string, style: Style)
    ensures var r := UnderTag(fp, "tag:yaml.org,2002:int", s, style);
            && (Literal(s).None? ==> r == Err(InvalidValue))
            && (Literal(s).Some? && InRange(Literal(s).value) ==>
                  r == Ok(Num(if Literal(s).value < 0 then NegInt(Literal(s).value) else PosInt(Literal(s).value))))
            && (Literal(s).Some? && !InRange(Literal(s).value) ==> r.Err?)
  {
    TagsDiffer();
    VisitIntIsLiteral(s);
  }

  lemma {:induction false} FloatTag(fp: FloatParser, s: string, style: Style)
    ensures var r := UnderTag(fp, "tag:yaml.org,2002:float", s, style);
            && (SpellsPosInf(s) <==> r == Ok(Num(Flt(PosInf)))) && (SpellsNegInf(s) <==> r == Ok(Num(Flt(NegInf))))
            && (SpellsNaN(s) <==> r == Ok(Num(Flt(NaN))))
            && (r.Ok? ==> r.value.Num? && r.value.n.Flt?) && (r.Err? ==> r == Err(InvalidValue))
  {
    TagsDiffer();
    SpecialFloats(fp, s);
  }
}

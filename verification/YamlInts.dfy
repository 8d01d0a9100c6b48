/**
 Integer literals in plain scalars (3rdparty/serde_yaml/src/de.rs).

 The source tries four parsers in turn, each built on `from_str_radix` at a fixed width.
 `Literal` is the reference they are measured against: one sign, one radix prefix, digits,
 with no width at all.
 */
module YamlInts {
  import opened Wrappers

  const U64_MAX: int := 0xFFFF_FFFF_FFFF_FFFF
  const I64_MIN: int := -0x8000_0000_0000_0000
  const I64_MAX: int := 0x7FFF_FFFF_FFFF_FFFF
  const U128_MAX: int := 0xFFFF_FFFF_FFFF_FFFF_FFFF_FFFF_FFFF_FFFF
  const I128_MIN: int := -0x8000_0000_0000_0000_0000_0000_0000_0000
  const I128_MAX: int := 0x7FFF_FFFF_FFFF_FFFF_FFFF_FFFF_FFFF_FFFF

  /** A machine integer type, by its range; it is signed exactly when `lo` is negative. */
  datatype IntType = IntType(lo: int, hi: int) {
    predicate Signed() { lo < 0 }
    predicate Holds(k: int) { lo <= k <= hi }
  }

  const U64 := IntType(0, U64_MAX)
  const I64 := IntType(I64_MIN, I64_MAX)
  const U128 := IntType(0, U128_MAX)
  const I128 := IntType(I128_MIN, I128_MAX)

  function DigitValue(c: char, radix: nat): Option<int> {
    var d :=
      if '0' <= c <= '9' then c as int - '0' as int
      else if 'a' <= c <= 'z' then c as int - 'a' as int + 10
      else if 'A' <= c <= 'Z' then c as int - 'A' as int + 10
      else 36;
    if d < radix then Some(d) else None
  }

  /** The number a nonempty digit string denotes, most significant digit first. */
  function Digits(s: string, radix: nat): (r: Option<int>)
    ensures r.Some? ==> r.value >= 0
  {
    if |s| == 0 then None
    else
      match DigitValue(s[|s| - 1], radix)
      case None => None
      case Some(d) =>
        if |s| == 1 then Some(d)
        else
          match Digits(s[..|s| - 1], radix)
          case None => None
          case Some(m) => Some(m * radix + d)
  }

  predicate StartsWithSign(s: string) {
    |s| > 0 && (s[0] == '+' || s[0] == '-')
  }

  /** `T::from_str_radix`: an optional sign the type admits, then digits, all within range. */
  function FromStrRadix(s: string, radix: nat, t: IntType): Option<int> {
    var negative := |s| > 0 && s[0] == '-' && t.Signed();
    var digits := if negative || (|s| > 0 && s[0] == '+') then s[1..] else s;
    match Digits(digits, radix)
    case None => None
    case Some(m) =>
      var k := if negative then -m else m;
      if t.Holds(k) then Some(k) else None
  }

  function Sign(s: string): string {
    if StartsWithSign(s) then s[..1] else ""
  }

  function Body(s: string): string {
    if StartsWithSign(s) then s[1..] else s
  }

  predicate ZeroPadded(digits: string) {
    |digits| > 1 && digits[0] == '0' && forall i :: 1 <= i < |digits| ==> '0' <= digits[i] <= '9'
  }

  predicate DigitsButNotNumber(s: string) {
    ZeroPadded(Body(s))
  }

  /** One radix arm of the unsigned parser: `None` is fall through, `Some(r)` is return `r`. */
  function RadixArm(unpositive: string, prefix: string, radix: nat, t: IntType): Option<Option<int>> {
    if prefix <= unpositive then
      var rest := unpositive[|prefix|..];
      if StartsWithSign(rest) then Some(None)
      else
        match FromStrRadix(rest, radix, t)
        case Some(k) => Some(Some(k))
        case None => None
    else None
  }

  /** One negative radix arm: the prefix is dropped and the sign put back. */
  function NegativeArm(s: string, prefix: string, radix: nat, t: IntType): Option<int> {
    if prefix <= s then FromStrRadix("-" + s[|prefix|..], radix, t) else None
  }

  function ParseUnsignedInt(s: string, t: IntType): Option<int> {
    var unpositive := if |s| > 0 && s[0] == '+' then s[1..] else s;
    match RadixArm(unpositive, "0x", 16, t)
    case Some(r) => r
    case None =>
      match RadixArm(unpositive, "0o", 8, t)
      case Some(r) => r
      case None =>
        match RadixArm(unpositive, "0b", 2, t)
        case Some(r) => r
        case None =>
          if StartsWithSign(unpositive) then None
          else if DigitsButNotNumber(s) then None
          else FromStrRadix(unpositive, 10, t)
  }

  function ParseSignedInt(s: string, t: IntType): Option<int> {
    var plus := |s| > 0 && s[0] == '+';
    var unpositive := if plus then s[1..] else s;
    if plus && StartsWithSign(unpositive) then None else
    match RadixArm(unpositive, "0x", 16, t)
    case Some(r) => r
    case None =>
      match NegativeArm(s, "-0x", 16, t)
      case Some(k) => Some(k)
      case None =>
        match RadixArm(unpositive, "0o", 8, t)
        case Some(r) => r
        case None =>
          match NegativeArm(s, "-0o", 8, t)
          case Some(k) => Some(k)
          case None =>
            match RadixArm(unpositive, "0b", 2, t)
            case Some(r) => r
            case None =>
              match NegativeArm(s, "-0b", 2, t)
              case Some(k) => Some(k)
              case None =>
                if DigitsButNotNumber(s) then None else FromStrRadix(unpositive, 10, t)
  }

  function ParseNegativeInt(s: string, t: IntType): Option<int> {
    match NegativeArm(s, "-0x", 16, t)
    case Some(k) => Some(k)
    case None =>
      match NegativeArm(s, "-0o", 8, t)
      case Some(k) => Some(k)
      case None =>
        match NegativeArm(s, "-0b", 2, t)
        case Some(k) => Some(k)
        case None =>
          if DigitsButNotNumber(s) then None else FromStrRadix(s, 10, t)
  }

  /** Which integer method of the visitor is called, if any. */
  datatype IntVisit = VisitU64(n: int) | VisitI64(n: int) | VisitU128(n: int) | VisitI128(n: int) | NotInt

  function VisitInt(s: string): IntVisit {
    match ParseUnsignedInt(s, U64)
    case Some(k) => VisitU64(k)
    case None =>
      match ParseNegativeInt(s, I64)
      case Some(k) => VisitI64(k)
      case None =>
        match ParseUnsignedInt(s, U128)
        case Some(k) => VisitU128(k)
        case None =>
          match ParseNegativeInt(s, I128)
          case Some(k) => VisitI128(k)
          case None => NotInt
  }

  // ---------------------------------------------------------------------------------
  // The reference: literals of unbounded width
  // ---------------------------------------------------------------------------------

  /** The radix a body announces, and the digits that follow the announcement. */
  function Radix(body: string): nat {
    if "0x" <= body then 16 else if "0o" <= body then 8 else if "0b" <= body then 2 else 10
  }

  function Magnitude(body: string): Option<int> {
    if Radix(body) != 10 then Digits(body[2..], Radix(body))
    else if ZeroPadded(body) then None
    else Digits(body, 10)
  }

  /** The integer a scalar denotes, whatever its size. */
  function Literal(s: string): Option<int> {
    match Magnitude(Body(s))
    case None => None
    case Some(m) => Some(if Sign(s) == "-" then -m else m)
  }

  function Within(k: Option<int>, t: IntType): Option<int> {
    if k.Some? && t.Holds(k.value) then k else None
  }

  lemma {:induction false} DigitsAllDigits(s: string, radix: nat, i: nat)
    requires Digits(s, radix).Some? && i < |s|
    ensures DigitValue(s[i], radix).Some?
  {
    if i < |s| - 1 {
      DigitsAllDigits(s[..|s| - 1], radix, i);
    }
  }

  /** A sign is no digit, so a digit string that starts with one denotes nothing. */
  lemma {:induction false} DigitsHaveNoSign(s: string, radix: nat)
    requires StartsWithSign(s) && radix <= 36
    ensures Digits(s, radix).None?
  {
    if Digits(s, radix).Some? {
      DigitsAllDigits(s, radix, 0);
    }
  }

  /** Neither is the letter of a radix prefix a decimal digit. */
  lemma {:induction false} PrefixIsNotDecimal(s: string)
    requires |s| >= 2 && s[1] in {'x', 'o', 'b'}
    ensures Digits(s, 10).None?
  {
    if Digits(s, 10).Some? {
      DigitsAllDigits(s, 10, 1);
    }
  }

  lemma {:induction false} RadixArmMeaning(body: string, prefix: string, radix: nat, t: IntType)
    requires !StartsWithSign(body) && |prefix| == 2 && radix <= 36 && t.lo <= 0
    ensures prefix <= body ==>
              var m := Digits(body[2..], radix);
              (m.Some? && t.Holds(m.value) ==> RadixArm(body, prefix, radix, t) == Some(m))
              && (!(m.Some? && t.Holds(m.value)) ==> RadixArm(body, prefix, radix, t) in {None, Some(None)})
    ensures !(prefix <= body) ==> RadixArm(body, prefix, radix, t) == None
  {
    if prefix <= body {
      var rest := body[2..];
      if StartsWithSign(rest) {
        DigitsHaveNoSign(rest, radix);
      }
    }
  }

  lemma {:induction false} NegativeArmMeaning(s: string, prefix: string, radix: nat, t: IntType)
    requires |prefix| == 3 && t.Signed()
    ensures NegativeArm(s, prefix, radix, t) ==
            if prefix <= s && Digits(s[3..], radix).Some? && t.Holds(-Digits(s[3..], radix).value)
            then Some(-Digits(s[3..], radix).value) else None
  {
    if prefix <= s {
      assert ("-" + s[3..])[1..] == s[3..];
    }
  }

  /** At any unsigned width the parser is the literal without a minus, cut to the range. */
  lemma {:induction false} UnsignedIsLiteral(s: string, t: IntType)
    requires t.lo == 0
    ensures ParseUnsignedInt(s, t) == if Sign(s) == "-" then None else Within(Literal(s), t)
  {
    var unpositive := if |s| > 0 && s[0] == '+' then s[1..] else s;
    if StartsWithSign(unpositive) {
      DigitsHaveNoSign(unpositive, 10);
      assert !("0x" <= unpositive) && !("0o" <= unpositive) && !("0b" <= unpositive);
      assert Sign(s) == "-" || Digits(Body(s), 10).None?;
    } else {
      assert unpositive == Body(s);
      RadixArmMeaning(unpositive, "0x", 16, t);
      RadixArmMeaning(unpositive, "0o", 8, t);
      RadixArmMeaning(unpositive, "0b", 2, t);
      if Radix(unpositive) != 10 {
        PrefixIsNotDecimal(unpositive);
      }
    }
  }

  lemma {:induction false} NegativeBody(s: string)
    requires Sign(s) == "-"
    ensures ("-0x" <= s <==> "0x" <= Body(s)) && ("-0o" <= s <==> "0o" <= Body(s)) && ("-0b" <= s <==> "0b" <= Body(s))
    ensures |s| >= 3 ==> s[3..] == Body(s)[2..]
  {
    var b := Body(s);
    assert s == "-" + b;
    assert s[0] == '-';
    if "0x" <= b { assert b == "0x" + b[2..]; assert s == "-0x" + b[2..]; }
    if "0o" <= b { assert b == "0o" + b[2..]; assert s == "-0o" + b[2..]; }
    if "0b" <= b { assert b == "0b" + b[2..]; assert s == "-0b" + b[2..]; }
    if "-0x" <= s { assert b[..2] == s[1..3] == "0x"; }
    if "-0o" <= s { assert b[..2] == s[1..3] == "0o"; }
    if "-0b" <= s { assert b[..2] == s[1..3] == "0b"; }
  }

  /** A minus sign: both signed parsers read the literal, cut to the range. */
  lemma {:induction false} MinusIsLiteral(s: string, t: IntType)
    requires t.Signed() && t.hi >= 0 && Sign(s) == "-"
    ensures ParseNegativeInt(s, t) == Within(Literal(s), t)
    ensures ParseSignedInt(s, t) == Within(Literal(s), t)
  {
    var b := Body(s);
    NegativeBody(s);
    NegativeArmMeaning(s, "-0x", 16, t);
    NegativeArmMeaning(s, "-0o", 8, t);
    NegativeArmMeaning(s, "-0b", 2, t);
    assert !("0x" <= s) && !("0o" <= s) && !("0b" <= s);
    if StartsWithSign(b) {
      DigitsHaveNoSign(b, 10);
      assert !("0x" <= b) && !("0o" <= b) && !("0b" <= b);
    }
    if Radix(b) != 10 {
      PrefixIsNotDecimal(b);
    }
  }

  /** No minus sign: the signed parser still reads the literal, cut to the range. */
  lemma {:induction false} PlusIsLiteral(s: string, t: IntType)
    requires t.Signed() && t.hi >= 0 && Sign(s) != "-"
    ensures ParseSignedInt(s, t) == Within(Literal(s), t)
    ensures ParseNegativeInt(s, t) == None || ParseNegativeInt(s, t) == Within(Literal(s), t)
  {
    var b := Body(s);
    assert !("-0x" <= s) && !("-0o" <= s) && !("-0b" <= s);
    if StartsWithSign(b) {
      DigitsHaveNoSign(b, 10);
      assert !("0x" <= b) && !("0o" <= b) && !("0b" <= b);
    } else {
      RadixArmMeaning(b, "0x", 16, t);
      RadixArmMeaning(b, "0o", 8, t);
      RadixArmMeaning(b, "0b", 2, t);
      if Radix(b) != 10 {
        PrefixIsNotDecimal(b);
      }
    }
  }

  /** The narrow signed parser agrees with the literal on every string. */
  lemma {:induction false} SignedIsLiteral(s: string, t: IntType)
    requires t.Signed() && t.hi >= 0
    ensures ParseSignedInt(s, t) == Within(Literal(s), t)
  {
    if Sign(s) == "-" { MinusIsLiteral(s, t); } else { PlusIsLiteral(s, t); }
  }

  /** What the four parsers in a row compute: the literal, at the narrowest type that holds it. */
  lemma {:induction false} VisitIntIsLiteral(s: string)
    ensures VisitInt(s) ==
            match Literal(s)
            case None => NotInt
            case Some(k) =>
              if Sign(s) != "-" && U64.Holds(k) then VisitU64(k)
              else if Sign(s) == "-" && I64.Holds(k) then VisitI64(k)
              else if Sign(s) != "-" && U128.Holds(k) then VisitU128(k)
              else if Sign(s) == "-" && I128.Holds(k) then VisitI128(k)
              else NotInt
  {
    UnsignedIsLiteral(s, U64);
    UnsignedIsLiteral(s, U128);
    if Sign(s) == "-" {
      MinusIsLiteral(s, I64);
      MinusIsLiteral(s, I128);
    } else {
      PlusIsLiteral(s, I64);
      PlusIsLiteral(s, I128);
    }
  }

  /** The two ways the source reads a 64-bit integer never disagree. */
  lemma {:induction false} IntegerParsersAgree(s: string, k: int)
    requires I64.Holds(k)
    ensures !VisitInt(s).NotInt? && VisitInt(s).n == k <==> ParseSignedInt(s, I64) == Some(k)
  {
    VisitIntIsLiteral(s);
    SignedIsLiteral(s, I64);
  }

  // ---------------------------------------------------------------------------------
  // Printing
  // ---------------------------------------------------------------------------------

  function DecimalDigit(d: nat): (c: char)
    requires d < 10
    ensures '0' <= c <= '9' && DigitValue(c, 10) == Some(d)
  {
    '0' + d as char
  }

  function DecimalNat(n: nat): (s: string)
    ensures |s| > 0
  {
    if n < 10 then [DecimalDigit(n)] else DecimalNat(n / 10) + [DecimalDigit(n % 10)]
  }

  /** `itoa`: the shortest decimal form. */
  function Decimal(k: int): string {
    if k < 0 then "-" + DecimalNat(-k) else DecimalNat(k)
  }

  predicate AllDecimal(s: string) {
    forall i :: 0 <= i < |s| ==> '0' <= s[i] <= '9'
  }

  lemma {:induction false} DigitsGrow(s: string, c: char, n: nat, d: nat)
    requires s != [] && Digits(s, 10) == Some(n) && DigitValue(c, 10) == Some(d)
    requires AllDecimal(s) && '0' <= c <= '9'
    ensures Digits(s + [c], 10) == Some(10 * n + d) && (s + [c])[0] == s[0] && AllDecimal(s + [c])
  {
    assert (s + [c])[..|s|] == s;
  }

  lemma {:induction false} DigitsOne(c: char, d: nat)
    requires DigitValue(c, 10) == Some(d) && '0' <= c <= '9'
    ensures Digits([c], 10) == Some(d) && AllDecimal([c]) && (c == '0' <==> d == 0)
  {
    assert [c][..0] == [];
  }

  lemma {:induction false} DecimalNatDigits(n: nat)
    ensures Digits(DecimalNat(n), 10) == Some(n)
    ensures DecimalNat(n) != [] && AllDecimal(DecimalNat(n))
    ensures DecimalNat(n)[0] == '0' <==> n == 0
    ensures n < 10 <==> |DecimalNat(n)| == 1
  {
    if n >= 10 {
      DecimalNatDigits(n / 10);
      DigitsGrow(DecimalNat(n / 10), DecimalDigit(n % 10), n / 10, n % 10);
    } else {
      DigitsOne(DecimalDigit(n), n);
    }
  }

  /** Every printed integer reads back as itself. */
  lemma {:induction false} DecimalIsLiteral(k: int)
    ensures Literal(Decimal(k)) == Some(k)
    ensures Sign(Decimal(k)) == if k < 0 then "-" else ""
    ensures |Decimal(k)| > 0 && (Decimal(k)[0] == '-' || '0' <= Decimal(k)[0] <= '9')
  {
    var m := if k < 0 then -k else k;
    DecimalNatDigits(m);
    var d := DecimalNat(m);
    assert '0' <= d[0] <= '9';
    assert !StartsWithSign(d);
    if k < 0 {
      assert Decimal(k)[1..] == d;
    }
    assert Body(Decimal(k)) == d;
    assert Radix(d) == 10 by {
      assert |d| >= 2 ==> d[1] !in {'x', 'o', 'b'};
    }
  }

  /** Round trip over the whole range a `Number` can hold, with the variant it came from. */
  lemma {:induction false} DecimalRoundTrip(k: int)
    requires I64_MIN <= k <= U64_MAX
    ensures VisitInt(Decimal(k)) == if k < 0 then VisitI64(k) else VisitU64(k)
  {
    DecimalIsLiteral(k);
    VisitIntIsLiteral(Decimal(k));
  }
}

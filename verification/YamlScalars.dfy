/**
 Resolution of scalars to values (3rdparty/serde_yaml/src/de.rs) and the style the serializer
 picks for a string (3rdparty/serde_yaml/src/ser.rs).

 Parsing of finite floats is the standard library's; every definition here takes it as a
 parameter, and every lemma holds for all of them.
 */
module YamlScalars {
  import opened Wrappers
  import opened YamlInts
  import opened YamlValues

  /** `str::parse::<f64>`, when it succeeds with a finite number. */
  type FloatParser = string -> Option<real>

  /** The style of a scalar as the parser reports it. */
  datatype Style = Plain | SingleQuoted | DoubleQuoted | BlockLiteral | BlockFolded

  /** The style the serializer asks the emitter for. */
  datatype StyleRequest = AnyStyle | PlainStyle | SingleQuotedStyle | LiteralStyle

  datatype Error =
    | RepetitionLimitExceeded
    | RecursionLimitExceeded
    | EndOfStream
    | InvalidType
    | InvalidValue
    | InvalidLength
    | DuplicateKey
    | UnknownAnchor
    | ParseError
    | MoreThanOneDocument
    | Panic  // an unwinding panic of the source

  datatype Result<+T> = Ok(value: T) | Err(error: Error) {
    predicate IsFailure() { Err? }
    function PropagateFailure<U>(): Result<U> requires Err? { Err(error) }
    function Extract(): T requires Ok? { value }
  }

  predicate ParseNull(s: string) {
    s == "null" || s == "Null" || s == "NULL" || s == "~"
  }

  function ParseBool(s: string): Option<bool> {
    if s == "true" || s == "True" || s == "TRUE" then Some(true)
    else if s == "false" || s == "False" || s == "FALSE" then Some(false)
    else None
  }

  function ParseF64(fp: FloatParser, s: string): Option<Float> {
    var plus := |s| > 0 && s[0] == '+';
    var unpositive := if plus then s[1..] else s;
    if plus && StartsWithSign(unpositive) then None
    else if unpositive == ".inf" || unpositive == ".Inf" || unpositive == ".INF" then Some(PosInf)
    else if s == "-.inf" || s == "-.Inf" || s == "-.INF" then Some(NegInf)
    else if s == ".nan" || s == ".NaN" || s == ".NAN" then Some(NaN)
    else
      match fp(unpositive)
      case Some(r) => Some(Finite(r))
      case None => None
  }

  /** The visitor method an untagged plain scalar ends up in. */
  datatype Visit = VisitUnit | VisitBool(b: bool) | VisitInteger(k: IntVisit) | VisitF64(f: Float) | VisitStr

  function VisitUntaggedScalar(fp: FloatParser, s: string): Visit {
    if s == "" || ParseNull(s) then VisitUnit
    else
      match ParseBool(s)
      case Some(b) => VisitBool(b)
      case None =>
        var k := VisitInt(s);
        if !k.NotInt? then VisitInteger(k)
        else if DigitsButNotNumber(s) then VisitStr
        else
          match ParseF64(fp, s)
          case Some(f) => VisitF64(f)
          case None => VisitStr
  }

  /** `Number::from(i64)`. */
  function FromI64(i: int): Number {
    if i < 0 then NegInt(i) else PosInt(i)
  }

  /** The value visitor's integer methods; it has none for the 128-bit types. */
  function IntegerValue(k: IntVisit): Result<Value> {
    match k
    case VisitU64(n) => Ok(Num(PosInt(n)))
    case VisitI64(i) => Ok(Num(FromI64(i)))
    case _ => Err(InvalidType)
  }

  function VisitedValue(visit: Visit, s: string): Result<Value> {
    match visit
    case VisitUnit => Ok(Null)
    case VisitBool(b) => Ok(Bool(b))
    case VisitInteger(k) => IntegerValue(k)
    case VisitF64(f) => Ok(Num(Flt(f)))
    case VisitStr => Ok(Str(s))
  }

  const TAG_NULL: string := "tag:yaml.org,2002:null"
  const TAG_BOOL: string := "tag:yaml.org,2002:bool"
  const TAG_INT: string := "tag:yaml.org,2002:int"
  const TAG_FLOAT: string := "tag:yaml.org,2002:float"

  /** A local tag names an enum variant: `!name`, or the bare `!`. */
  function ParseTag(tag: Option<string>): Option<string> {
    if tag.Some? && |tag.value| > 0 && tag.value[0] == '!' then
      Some(if |tag.value| > 1 then tag.value[1..] else tag.value)
    else None
  }

  /** `visit_scalar` with the visitor that builds a value. */
  function VisitScalar(fp: FloatParser, tag: Option<string>, s: string, style: Style, taggedAlready: bool): Result<Value> {
    if tag.Some? && !taggedAlready then
      if tag.value == TAG_BOOL then
        match ParseBool(s)
        case Some(b) => Ok(Bool(b))
        case None => Err(InvalidValue)
      else if tag.value == TAG_INT then
        var k := VisitInt(s);
        if k.NotInt? then Err(InvalidValue) else IntegerValue(k)
      else if tag.value == TAG_FLOAT then
        match ParseF64(fp, s)
        case Some(f) => Ok(Num(Flt(f)))
        case None => Err(InvalidValue)
      else if tag.value == TAG_NULL then
        if ParseNull(s) then Ok(Null) else Err(InvalidValue)
      else if "!" <= tag.value && style == Plain then VisitedValue(VisitUntaggedScalar(fp, s), s)
      else Ok(Str(s))
    else if style == Plain then VisitedValue(VisitUntaggedScalar(fp, s), s)
    else Ok(Str(s))
  }

  function ToLower(s: string): string {
    seq(|s|, i requires 0 <= i < |s| =>
      if 'A' <= s[i] <= 'Z' then (s[i] as int + 32) as char else s[i])
  }

  predicate AmbiguousString(s: string) {
    var lower := ToLower(s);
    ParseBool(lower).Some?
    || ParseNull(lower)
    || lower == ""
    || '0' <= lower[0] <= '9'
    || lower[0] == '-' || lower[0] == '.' || lower[0] == '+'
    || lower in ["y", "yes", "n", "no", "on", "off", "true", "false", "null", "nil", "~", "nan"]
  }

  /** The style `serialize_str` asks for. */
  function InferStyle(fp: FloatParser, s: string): StyleRequest {
    if '\n' in s then LiteralStyle
    else if VisitUntaggedScalar(fp, s).VisitStr? && !AmbiguousString(s) then AnyStyle
    else SingleQuotedStyle
  }

  /** The styles the emitter may use to honour a request. */
  predicate Honours(request: StyleRequest, style: Style) {
    match request
    case AnyStyle => true
    case PlainStyle => style == Plain
    case _ => style != Plain
  }

  /** The float text `serialize_f64` writes; finite ones are printed by `format`. */
  function FloatText(format: real -> string, f: Float): string {
    match f
    case Finite(r) => format(r)
    case PosInf => ".inf"
    case NegInf => "-.inf"
    case NaN => ".nan"
  }

  datatype PrintedScalar = PrintedScalar(text: string, style: StyleRequest)

  predicate IsScalar(v: Value) {
    v.Null? || v.Bool? || v.Num? || v.Str?
  }

  /** What the serializer writes for a value that is neither a collection nor tagged. */
  function PrintScalar(fp: FloatParser, format: real -> string, v: Value): PrintedScalar {
    match v
    case Bool(b) => PrintedScalar(if b then "true" else "false", PlainStyle)
    case Num(PosInt(u)) => PrintedScalar(Decimal(u), PlainStyle)
    case Num(NegInt(i)) => PrintedScalar(Decimal(i), PlainStyle)
    case Num(Flt(f)) => PrintedScalar(FloatText(format, f), PlainStyle)
    case Str(s) => PrintedScalar(s, InferStyle(fp, s))
    case _ => PrintedScalar("null", PlainStyle)
  }

  /** The library prints a finite float so that it is read back as that float. */
  predicate Printable(fp: FloatParser, format: real -> string, v: Value) {
    match v
    case Num(Flt(Finite(r))) => VisitUntaggedScalar(fp, format(r)) == VisitF64(Finite(r))
    case Sequence(items) => forall i :: 0 <= i < |items| ==> Printable(fp, format, items[i])
    case Mapping(entries) =>
      forall i :: 0 <= i < |entries| ==>
        Printable(fp, format, entries[i].key) && Printable(fp, format, entries[i].val)
    case Tagged(_, inner) => Printable(fp, format, inner)
    case _ => true
  }

  /** A scalar survives printing and reading, in every style that honours its request. */
  lemma {:induction false} ScalarRoundTrip(fp: FloatParser, format: real -> string, v: Value, style: Style)
    requires IsScalar(v) && Valid(v) && Printable(fp, format, v)
    requires Honours(PrintScalar(fp, format, v).style, style)
    ensures VisitScalar(fp, None, PrintScalar(fp, format, v).text, style, false) == Ok(v)
    ensures forall tag :: VisitScalar(fp, tag, PrintScalar(fp, format, v).text, style, true) == Ok(v)
  {
    var s := PrintScalar(fp, format, v).text;
    match v {
      case Num(PosInt(u)) => IntegerTextRoundTrip(fp, u);
      case Num(NegInt(i)) => IntegerTextRoundTrip(fp, i);
      case Num(Flt(f)) =>
        if !f.Finite? { SpecialFloatText(fp, f, s); }
      case _ =>
    }
  }

  lemma {:induction false} IntegerTextRoundTrip(fp: FloatParser, k: int)
    requires I64_MIN <= k <= U64_MAX
    ensures VisitUntaggedScalar(fp, Decimal(k)) == VisitInteger(if k < 0 then VisitI64(k) else VisitU64(k))
  {
    DecimalIsLiteral(k);
    DecimalRoundTrip(k);
    NumberIsNoWord(Decimal(k));
  }

  lemma {:induction false} NumberIsNoWord(s: string)
    requires |s| > 0 && (s[0] == '-' || s[0] == '.' || '0' <= s[0] <= '9')
    ensures !ParseNull(s) && ParseBool(s).None?
  {
  }

  lemma {:induction false} SpecialFloatText(fp: FloatParser, f: Float, s: string)
    requires (f == PosInf && s == ".inf") || (f == NegInf && s == "-.inf") || (f == NaN && s == ".nan")
    ensures VisitUntaggedScalar(fp, s) == VisitF64(f)
  {
    NumberIsNoWord(s);
    DotIsNoInteger(s);
  }

  lemma {:induction false} DotIsNoInteger(s: string)
    requires |Body(s)| > 0 && Body(s)[0] == '.'
    ensures VisitInt(s).NotInt? && !DigitsButNotNumber(s)
  {
    var b := Body(s);
    if Digits(b, 10).Some? { DigitsAllDigits(b, 10, 0); }
    VisitIntIsLiteral(s);
  }
}

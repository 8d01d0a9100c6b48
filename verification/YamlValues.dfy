/**
 The value tree (3rdparty/serde_yaml/src/value/mod.rs, number.rs, mapping.rs, value/tagged.rs).

 A mapping keeps its entries in insertion order; `Valid` says what an `IndexMap` guarantees,
 that no two keys are equal.
 */
module YamlValues {
  import opened YamlInts

  /** A double, with the finite ones taken as the numbers they are. */
  datatype Float = Finite(r: real) | PosInf | NegInf | NaN

  /** `PosInt` holds a u64; `NegInt` an i64 that is always negative. */
  datatype Number = PosInt(u: int) | NegInt(i: int) | Flt(f: Float)

  datatype Entry = Entry(key: Value, val: Value)

  datatype Value =
    | Null
    | Bool(b: bool)
    | Num(n: Number)
    | Str(s: string)
    | Sequence(items: seq<Value>)
    | Mapping(entries: seq<Entry>)
    | Tagged(tag: string, inner: Value)

  predicate NumberInRange(n: Number) {
    match n
    case PosInt(u) => 0 <= u <= U64_MAX
    case NegInt(i) => I64_MIN <= i < 0
    case Flt(_) => true
  }

  /** The leading `!` of a tag is not significant, unless it is the whole tag. */
  function NoBang(tag: string): string {
    if |tag| > 1 && tag[0] == '!' then tag[1..] else tag
  }

  /** `PartialEq` on values: tags up to `!`, mappings up to the order of their entries. */
  predicate Same(a: Value, b: Value)
    decreases a, 0
  {
    match (a, b)
    case (Sequence(xs), Sequence(ys)) =>
      |xs| == |ys| && forall i :: 0 <= i < |xs| ==> Same(xs[i], ys[i])
    case (Mapping(xs), Mapping(ys)) =>
      |xs| == |ys| && forall i :: 0 <= i < |xs| ==> EntryAmong(xs[i], ys)
    case (Tagged(t, x), Tagged(u, y)) => NoBang(t) == NoBang(u) && Same(x, y)
    case _ => a == b
  }

  predicate EntryAmong(e: Entry, entries: seq<Entry>)
    decreases e, 1
  {
    exists j :: 0 <= j < |entries| && Same(e.key, entries[j].key) && Same(e.val, entries[j].val)
  }

  predicate KeyIn(key: Value, entries: seq<Entry>) {
    exists i :: 0 <= i < |entries| && Same(entries[i].key, key)
  }

  predicate DistinctKeys(entries: seq<Entry>) {
    forall i, j :: 0 <= i < j < |entries| ==> !Same(entries[i].key, entries[j].key)
  }

  /** The values a program can build, apart from their tags. */
  predicate Valid(v: Value) {
    match v
    case Num(n) => NumberInRange(n)
    case Sequence(items) => forall i :: 0 <= i < |items| ==> Valid(items[i])
    case Mapping(entries) =>
      DistinctKeys(entries)
      && forall i :: 0 <= i < |entries| ==> Valid(entries[i].key) && Valid(entries[i].val)
    case Tagged(_, inner) => Valid(inner)
    case _ => true
  }

  /** No tag is the empty string, which `Tag::new` rejects. */
  predicate TagsNamed(v: Value)
    decreases v, 0
  {
    match v
    case Sequence(items) => forall i :: 0 <= i < |items| ==> TagsNamed(items[i])
    case Mapping(entries) => forall i :: 0 <= i < |entries| ==> TagsNamedEntry(entries[i])
    case Tagged(tag, inner) => tag != "" && TagsNamed(inner)
    case _ => true
  }

  predicate TagsNamedEntry(e: Entry)
    decreases e, 1
  {
    TagsNamed(e.key) && TagsNamed(e.val)
  }

  function Max(a: nat, b: nat): nat {
    if a < b then b else a
  }

  /** How many collections are nested inside each other at most. */
  function Depth(v: Value): nat
    decreases v, 1
  {
    match v
    case Sequence(items) => 1 + ItemsDepth(items)
    case Mapping(entries) => 1 + EntriesDepth(entries)
    case Tagged(_, inner) => Depth(inner)
    case _ => 0
  }

  function ItemsDepth(items: seq<Value>): nat
    decreases items, 0
  {
    if items == [] then 0 else Max(Depth(items[0]), ItemsDepth(items[1..]))
  }

  function EntriesDepth(entries: seq<Entry>): nat
    decreases entries, 0
  {
    if entries == [] then 0 else Max(EntryDepth(entries[0]), EntriesDepth(entries[1..]))
  }

  function EntryDepth(e: Entry): nat
    decreases e, 2
  {
    Max(Depth(e.key), Depth(e.val))
  }

  /** The same value with every tag changed by `f`. */
  function Retag(f: string -> string, v: Value): Value {
    match v
    case Sequence(items) => Sequence(seq(|items|, i requires 0 <= i < |items| => Retag(f, items[i])))
    case Mapping(entries) =>
      Mapping(seq(|entries|, i requires 0 <= i < |entries| =>
        Entry(Retag(f, entries[i].key), Retag(f, entries[i].val))))
    case Tagged(tag, inner) => Tagged(f(tag), Retag(f, inner))
    case _ => v
  }

  function RetagEntry(f: string -> string, e: Entry): Entry {
    Entry(Retag(f, e.key), Retag(f, e.val))
  }

  /** The same value with every tag in its normal form, without the leading `!`. */
  function Canon(v: Value): Value {
    Retag(NoBang, v)
  }
}

/**
 The order of values and mappings (3rdparty/serde_yaml/src/mapping.rs, number.rs).

 Two mappings are compared by sorting copies of their entries by key with `TotalCmp` first.
 That is sound because `TotalCmp` is a total order, and because equal mappings, whatever the
 order of their entries, sort to sequences that agree place by place.
 */
module YamlOrder {
  import opened YamlValues

  datatype Ordering = Less | Equal | Greater {
    function Flip(): Ordering {
      match this
      case Less => Greater
      case Equal => Equal
      case Greater => Less
    }

    function Then(next: Ordering): Ordering {
      if Equal? then next else this
    }
  }

  function CmpInt(a: int, b: int): Ordering {
    if a < b then Less else if a > b then Greater else Equal
  }

  function CmpReal(a: real, b: real): Ordering {
    if a < b then Less else if a > b then Greater else Equal
  }

  function CmpBool(a: bool, b: bool): Ordering {
    CmpInt(if a then 1 else 0, if b then 1 else 0)
  }

  function CmpString(a: string, b: string): Ordering {
    if a == [] then (if b == [] then Equal else Less)
    else if b == [] then Greater
    else CmpInt(a[0] as int, b[0] as int).Then(CmpString(a[1..], b[1..]))
  }

  /** Floats in their natural order, with NaN last. */
  function CmpFloat(a: Float, b: Float): Ordering {
    match (a, b)
    case (Finite(x), Finite(y)) => CmpReal(x, y)
    case (NaN, NaN) => Equal
    case (NaN, _) => Greater
    case (_, NaN) => Less
    case (NegInf, NegInf) => Equal
    case (NegInf, _) => Less
    case (_, NegInf) => Greater
    case (PosInf, PosInf) => Equal
    case (PosInf, _) => Greater
    case (_, PosInf) => Less
  }

  function CmpNumber(a: Number, b: Number): Ordering {
    match (a, b)
    case (PosInt(x), PosInt(y)) => CmpInt(x, y)
    case (NegInt(x), NegInt(y)) => CmpInt(x, y)
    case (NegInt(_), PosInt(_)) => Less
    case (PosInt(_), NegInt(_)) => Greater
    case (Flt(x), Flt(y)) => CmpFloat(x, y)
    case (_, Flt(_)) => Less
    case (Flt(_), _) => Greater
  }

  function CmpTag(a: string, b: string): Ordering {
    CmpString(NoBang(a), NoBang(b))
  }

  /** Values of different kinds compare by kind. */
  function Kind(v: Value): int {
    match v
    case Null => 0
    case Bool(_) => 1
    case Num(_) => 2
    case Str(_) => 3
    case Sequence(_) => 4
    case Mapping(_) => 5
    case Tagged(_, _) => 6
  }

  function TotalCmp(a: Value, b: Value): Ordering
    decreases a, 1
  {
    match (a, b)
    case (Bool(x), Bool(y)) => CmpBool(x, y)
    case (Num(x), Num(y)) => CmpNumber(x, y)
    case (Str(x), Str(y)) => CmpString(x, y)
    case (Sequence(x), Sequence(y)) => CmpItems(x, y)
    case (Mapping(x), Mapping(y)) => CmpEntries(x, y)
    case (Tagged(t, x), Tagged(u, y)) => CmpTag(t, u).Then(TotalCmp(x, y))
    case _ => CmpInt(Kind(a), Kind(b))
  }

  /** What `iter_cmp_by` computes over sequences. */
  function CmpItems(a: seq<Value>, b: seq<Value>): Ordering
    decreases a, 0
  {
    if a == [] then (if b == [] then Equal else Less)
    else if b == [] then Greater
    else TotalCmp(a[0], b[0]).Then(CmpItems(a[1..], b[1..]))
  }

  /** What it computes over mappings: by key, then by value. */
  function CmpEntries(a: seq<Entry>, b: seq<Entry>): Ordering
    decreases a, 0
  {
    if a == [] then (if b == [] then Equal else Less)
    else if b == [] then Greater
    else CmpEntry(a[0], b[0]).Then(CmpEntries(a[1..], b[1..]))
  }

  function CmpEntry(a: Entry, b: Entry): Ordering
    decreases a, 2
  {
    TotalCmp(a.key, b.key).Then(TotalCmp(a.val, b.val))
  }

  // ---------------------------------------------------------------------------------
  // A total order
  // ---------------------------------------------------------------------------------

  /** What three comparisons `ab`, `bc`, `ac` of a total preorder satisfy. */
  predicate Transitive(ab: Ordering, bc: Ordering, ac: Ordering) {
    && (ab.Less? && bc.Less? ==> ac.Less?)
    && (ab.Equal? ==> ac == bc)
    && (bc.Equal? ==> ac == ab)
    && (ab.Greater? && bc.Greater? ==> ac.Greater?)
  }

  lemma {:induction false} CmpStringLaws(a: string, b: string, c: string)
    ensures CmpString(a, a) == Equal
    ensures CmpString(b, a) == CmpString(a, b).Flip()
    ensures CmpString(a, b) == Equal <==> a == b
    ensures Transitive(CmpString(a, b), CmpString(b, c), CmpString(a, c))
    decreases |a|
  {
    if a != [] {
      CmpStringLaws(a[1..], if b == [] then [] else b[1..], if c == [] then [] else c[1..]);
      if b != [] && a[0] == b[0] && a[1..] == b[1..] {
        assert a == [a[0]] + a[1..] && b == [b[0]] + b[1..];
      }
    }
  }

  lemma {:induction false} CmpNumberLaws(a: Number, b: Number, c: Number)
    ensures CmpNumber(a, a) == Equal
    ensures CmpNumber(b, a) == CmpNumber(a, b).Flip()
    ensures CmpNumber(a, b) == Equal <==> a == b
    ensures Transitive(CmpNumber(a, b), CmpNumber(b, c), CmpNumber(a, c))
  {
  }

  lemma {:induction false} TotalCmpReflexive(a: Value)
    ensures TotalCmp(a, a) == Equal
    decreases a, 1
  {
    match a {
      case Sequence(x) => CmpItemsReflexive(x);
      case Mapping(x) => CmpEntriesReflexive(x);
      case Tagged(t, x) =>
        CmpStringLaws(NoBang(t), NoBang(t), NoBang(t));
        TotalCmpReflexive(x);
      case Str(s) => CmpStringLaws(s, s, s);
      case _ =>
    }
  }

  lemma {:induction false} CmpItemsReflexive(a: seq<Value>)
    ensures CmpItems(a, a) == Equal
    decreases a, 0
  {
    if a != [] {
      TotalCmpReflexive(a[0]);
      CmpItemsReflexive(a[1..]);
    }
  }

  lemma {:induction false} CmpEntriesReflexive(a: seq<Entry>)
    ensures CmpEntries(a, a) == Equal
    decreases a, 0
  {
    if a != [] {
      CmpEntryReflexive(a[0]);
      CmpEntriesReflexive(a[1..]);
    }
  }

  lemma {:induction false} CmpEntryReflexive(a: Entry)
    ensures CmpEntry(a, a) == Equal
    decreases a, 2
  {
    TotalCmpReflexive(a.key);
    TotalCmpReflexive(a.val);
  }

  /** Exchanging the operands turns the result around, so one of the two directions always holds. */
  lemma {:induction false} TotalCmpFlips(a: Value, b: Value)
    ensures TotalCmp(b, a) == TotalCmp(a, b).Flip()
    decreases a, 1
  {
    match (a, b) {
      case (Sequence(x), Sequence(y)) => CmpItemsFlips(x, y);
      case (Mapping(x), Mapping(y)) => CmpEntriesFlips(x, y);
      case (Tagged(t, x), Tagged(u, y)) =>
        CmpStringLaws(NoBang(t), NoBang(u), NoBang(t));
        TotalCmpFlips(x, y);
      case (Str(x), Str(y)) => CmpStringLaws(x, y, x);
      case (Num(x), Num(y)) => CmpNumberLaws(x, y, x);
      case _ =>
    }
  }

  lemma {:induction false} CmpItemsFlips(a: seq<Value>, b: seq<Value>)
    ensures CmpItems(b, a) == CmpItems(a, b).Flip()
    decreases a, 0
  {
    if a != [] && b != [] {
      TotalCmpFlips(a[0], b[0]);
      CmpItemsFlips(a[1..], b[1..]);
    }
  }

  lemma {:induction false} CmpEntriesFlips(a: seq<Entry>, b: seq<Entry>)
    ensures CmpEntries(b, a) == CmpEntries(a, b).Flip()
    decreases a, 0
  {
    if a != [] && b != [] {
      CmpEntryFlips(a[0], b[0]);
      CmpEntriesFlips(a[1..], b[1..]);
    }
  }

  lemma {:induction false} CmpEntryFlips(a: Entry, b: Entry)
    ensures CmpEntry(b, a) == CmpEntry(a, b).Flip()
    decreases a, 2
  {
    TotalCmpFlips(a.key, b.key);
    TotalCmpFlips(a.val, b.val);
  }

  /** Two comparisons decide the third. */
  lemma {:induction false} TotalCmpTransitive(a: Value, b: Value, c: Value)
    ensures Transitive(TotalCmp(a, b), TotalCmp(b, c), TotalCmp(a, c))
    decreases a, 1
  {
    if Kind(a) == Kind(b) == Kind(c) {
      match a {
        case Sequence(x) => CmpItemsTransitive(x, b.items, c.items);
        case Mapping(x) => CmpEntriesTransitive(x, b.entries, c.entries);
        case Tagged(t, x) =>
          CmpStringLaws(NoBang(t), NoBang(b.tag), NoBang(c.tag));
          TotalCmpTransitive(x, b.inner, c.inner);
        case Str(s) => CmpStringLaws(s, b.s, c.s);
        case Num(x) => CmpNumberLaws(x, b.n, c.n);
        case _ =>
      }
    } else {
      KindDecides(a, b);
      KindDecides(b, c);
      KindDecides(a, c);
    }
  }

  lemma {:induction false} KindDecides(a: Value, b: Value)
    ensures Kind(a) != Kind(b) ==> TotalCmp(a, b) == CmpInt(Kind(a), Kind(b))
  {
  }

  lemma {:induction false} CmpItemsTransitive(a: seq<Value>, b: seq<Value>, c: seq<Value>)
    ensures Transitive(CmpItems(a, b), CmpItems(b, c), CmpItems(a, c))
    decreases a, 0
  {
    if a != [] && b != [] && c != [] {
      TotalCmpTransitive(a[0], b[0], c[0]);
      CmpItemsTransitive(a[1..], b[1..], c[1..]);
    }
  }

  lemma {:induction false} CmpEntriesTransitive(a: seq<Entry>, b: seq<Entry>, c: seq<Entry>)
    ensures Transitive(CmpEntries(a, b), CmpEntries(b, c), CmpEntries(a, c))
    decreases a, 0
  {
    if a != [] && b != [] && c != [] {
      CmpEntryTransitive(a[0], b[0], c[0]);
      CmpEntriesTransitive(a[1..], b[1..], c[1..]);
    }
  }

  lemma {:induction false} CmpEntryTransitive(a: Entry, b: Entry, c: Entry)
    ensures Transitive(CmpEntry(a, b), CmpEntry(b, c), CmpEntry(a, c))
    decreases a, 2
  {
    TotalCmpTransitive(a.key, b.key, c.key);
    TotalCmpTransitive(a.val, b.val, c.val);
  }

  // ---------------------------------------------------------------------------------
  // Which order it is
  // ---------------------------------------------------------------------------------

  function IntegerOf(n: Number): int
    requires !n.Flt?
  {
    match n
    case PosInt(u) => u
    case NegInt(i) => i
  }

  /** Integers compare as their values, finite floats as theirs, and booleans with false first. */
  lemma {:induction false} ScalarsAsValues(a: Number, b: Number, x: real, y: real)
    ensures NumberInRange(a) && NumberInRange(b) && !a.Flt? && !b.Flt? ==>
              (TotalCmp(Num(a), Num(b)).Less? <==> IntegerOf(a) < IntegerOf(b))
    ensures TotalCmp(Num(Flt(Finite(x))), Num(Flt(Finite(y)))).Less? <==> x < y
    ensures TotalCmp(Bool(false), Bool(true)).Less?
  {
  }

  /** Integers come before floats; floats lie between the infinities, and NaN is behind them. */
  lemma {:induction false} FloatsBehindIntegers(n: Number, x: real)
    ensures !n.Flt? ==> TotalCmp(Num(n), Num(Flt(NegInf))).Less?
    ensures TotalCmp(Num(Flt(NegInf)), Num(Flt(Finite(x)))).Less? && TotalCmp(Num(Flt(Finite(x))), Num(Flt(PosInf))).Less?
    ensures TotalCmp(Num(Flt(PosInf)), Num(Flt(NaN))).Less?
  {
  }

  /** Null, booleans, numbers, strings, sequences, mappings, tagged values, in this order. */
  lemma {:induction false} KindsInOrder(b: bool, n: Number, s: string, items: seq<Value>, entries: seq<Entry>, tag: string, v: Value)
    ensures TotalCmp(Null, Bool(b)).Less? && TotalCmp(Bool(b), Num(n)).Less? && TotalCmp(Num(n), Str(s)).Less?
    ensures TotalCmp(Str(s), Sequence(items)).Less? && TotalCmp(Sequence(items), Mapping(entries)).Less?
    ensures TotalCmp(Mapping(entries), Tagged(tag, v)).Less?
  {
  }

  /** Tagged values compare by tag, up to a leading `!`, and then by what is tagged. */
  lemma {:induction false} TaggedByTag(t: string, u: string, a: Value, b: Value)
    ensures TotalCmp(Str(NoBang(t)), Str(NoBang(u))).Less? ==> TotalCmp(Tagged(t, a), Tagged(u, b)).Less?
    ensures NoBang(t) == NoBang(u) ==> TotalCmp(Tagged(t, a), Tagged(u, b)) == TotalCmp(a, b)
  {
    CmpStringLaws(NoBang(t), NoBang(u), NoBang(t));
  }

  /** Strings compare by their first difference, and a string comes before one it begins. */
  lemma {:induction false} StringsByFirstDifference(pre: string, x: char, y: char, s: string, t: string)
    ensures x < y ==> TotalCmp(Str(pre + [x] + s), Str(pre + [y] + t)).Less?
    ensures TotalCmp(Str(pre), Str(pre + [y] + t)).Less?
  {
    var a, b := pre + [x] + s, pre + [y] + t;
    if pre != "" {
      assert a[1..] == pre[1..] + [x] + s && b[1..] == pre[1..] + [y] + t;
      StringsByFirstDifference(pre[1..], x, y, s, t);
    }
  }

  /** So do sequences, by their first elements that do not compare equal. */
  lemma {:induction false} ItemsByFirstDifference(pre: seq<Value>, x: Value, y: Value, s: seq<Value>, t: seq<Value>)
    ensures TotalCmp(x, y).Less? ==> TotalCmp(Sequence(pre + [x] + s), Sequence(pre + [y] + t)).Less?
    ensures TotalCmp(Sequence(pre), Sequence(pre + [y] + t)).Less?
  {
    var a, b := pre + [x] + s, pre + [y] + t;
    if pre != [] {
      assert a[1..] == pre[1..] + [x] + s && b[1..] == pre[1..] + [y] + t;
      TotalCmpReflexive(pre[0]);
      ItemsByFirstDifference(pre[1..], x, y, s, t);
    }
  }

  /** And mappings, entry by entry: by key first, and by value where keys compare equal. */
  lemma {:induction false} EntriesByFirstDifference(pre: seq<Entry>, x: Entry, y: Entry, s: seq<Entry>, t: seq<Entry>)
    ensures TotalCmp(x.key, y.key).Less? || (TotalCmp(x.key, y.key).Equal? && TotalCmp(x.val, y.val).Less?) ==>
              TotalCmp(Mapping(pre + [x] + s), Mapping(pre + [y] + t)).Less?
    ensures TotalCmp(Mapping(pre), Mapping(pre + [y] + t)).Less?
  {
    var a, b := pre + [x] + s, pre + [y] + t;
    if pre != [] {
      assert a[1..] == pre[1..] + [x] + s && b[1..] == pre[1..] + [y] + t;
      CmpEntryReflexive(pre[0]);
      EntriesByFirstDifference(pre[1..], x, y, s, t);
    } else {
      assert a[0] == x && b[0] == y && CmpEntry(x, y) == TotalCmp(x.key, y.key).Then(TotalCmp(x.val, y.val));
      assert CmpEntries(a, b) == CmpEntry(x, y).Then(CmpEntries(a[1..], b[1..]));
    }
  }

  // ---------------------------------------------------------------------------------
  // Order and equality
  // ---------------------------------------------------------------------------------

  /** No mapping occurs in the value. */
  predicate MappingFree(v: Value) {
    match v
    case Sequence(items) => forall i :: 0 <= i < |items| ==> MappingFree(items[i])
    case Mapping(_) => false
    case Tagged(_, inner) => MappingFree(inner)
    case _ => true
  }

  /** What compares equal is equal; and what is equal compares equal, unless mappings are inside. */
  lemma {:induction false} EqualIsSame(a: Value, b: Value)
    ensures TotalCmp(a, b) == Equal ==> Same(a, b)
    ensures MappingFree(a) && Same(a, b) ==> TotalCmp(a, b) == Equal
    decreases a, 1
  {
    match (a, b) {
      case (Sequence(x), Sequence(y)) => EqualItemsAreSame(x, y);
      case (Mapping(x), Mapping(y)) => EqualEntriesAreSame(x, y);
      case (Tagged(t, x), Tagged(u, y)) =>
        CmpStringLaws(NoBang(t), NoBang(u), NoBang(t));
        EqualIsSame(x, y);
      case (Str(x), Str(y)) => CmpStringLaws(x, y, x);
      case (Num(x), Num(y)) => CmpNumberLaws(x, y, x);
      case _ =>
    }
  }

  lemma {:induction false} EqualItemsAreSame(a: seq<Value>, b: seq<Value>)
    ensures CmpItems(a, b) == Equal ==> |a| == |b| && forall i :: 0 <= i < |a| ==> Same(a[i], b[i])
    ensures MappingFree(Sequence(a)) && Same(Sequence(a), Sequence(b)) ==> CmpItems(a, b) == Equal
    decreases a, 0
  {
    if a != [] && b != [] {
      EqualIsSame(a[0], b[0]);
      EqualItemsAreSame(a[1..], b[1..]);
      if CmpItems(a, b) == Equal {
        forall i | 0 <= i < |a| ensures Same(a[i], b[i]) {
          if i > 0 { assert a[i] == a[1..][i - 1] && b[i] == b[1..][i - 1]; }
        }
      }
    }
  }

  lemma {:induction false} EqualEntriesAreSame(a: seq<Entry>, b: seq<Entry>)
    ensures CmpEntries(a, b) == Equal ==>
              |a| == |b| && forall i :: 0 <= i < |a| ==> Same(a[i].key, b[i].key) && Same(a[i].val, b[i].val)
    decreases a, 0
  {
    if a != [] && b != [] {
      EqualEntryIsSame(a[0], b[0]);
      EqualEntriesAreSame(a[1..], b[1..]);
      if CmpEntries(a, b) == Equal {
        forall i | 0 <= i < |a| ensures Same(a[i].key, b[i].key) && Same(a[i].val, b[i].val) {
          if i > 0 { assert a[i] == a[1..][i - 1] && b[i] == b[1..][i - 1]; }
        }
      }
    }
  }

  lemma {:induction false} EqualEntryIsSame(a: Entry, b: Entry)
    ensures CmpEntry(a, b) == Equal ==> Same(a.key, b.key) && Same(a.val, b.val)
    decreases a, 2
  {
    EqualIsSame(a.key, b.key);
    EqualIsSame(a.val, b.val);
  }

  /** `iter_cmp_by` itself, walking both sequences at once. */
  method IterCmp(a: seq<Value>, b: seq<Value>) returns (r: Ordering)
    ensures r == CmpItems(a, b)
  {
    var i := 0;
    while true
      invariant i <= |a| && i <= |b|
      invariant CmpItems(a, b) == CmpItems(a[i..], b[i..])
      decreases |a| - i
    {
      if i == |a| { return if i == |b| then Equal else Less; }
      if i == |b| { return Greater; }
      var next := TotalCmp(a[i], b[i]);
      if !next.Equal? { return next; }
      assert a[i..][1..] == a[i + 1..] && b[i..][1..] == b[i + 1..];
      i := i + 1;
    }
  }

  // ---------------------------------------------------------------------------------
  // Sorting entries by key
  // ---------------------------------------------------------------------------------

  /** What sorting by key promises. */
  predicate SortsTo(entries: seq<Entry>, sorted: seq<Entry>) {
    && multiset(sorted) == multiset(entries)
    && forall i, j :: 0 <= i < j < |sorted| ==> !TotalCmp(sorted[i].key, sorted[j].key).Greater?
  }

  predicate Increasing(entries: seq<Entry>) {
    forall i, j :: 0 <= i < j < |entries| ==> TotalCmp(entries[i].key, entries[j].key).Less?
  }

  lemma {:induction false} TwoPlaces(entries: seq<Entry>, x: Entry, y: Entry) returns (i: nat, j: nat)
    requires multiset{x, y} <= multiset(entries)
    ensures i < |entries| && j < |entries| && i != j && entries[i] == x && entries[j] == y
  {
    assert x in multiset{x, y} && x in multiset(entries);
    i :| 0 <= i < |entries| && entries[i] == x;
    var rest := entries[..i] + entries[i + 1..];
    OtherIsLeft(entries, i, y);
    var k :| 0 <= k < |rest| && rest[k] == y;
    j := if k < i then k else k + 1;
  }

  lemma {:induction false} OtherIsLeft(entries: seq<Entry>, i: nat, y: Entry)
    requires i < |entries| && multiset{entries[i], y} <= multiset(entries)
    ensures y in entries[..i] + entries[i + 1..]
  {
    var x, rest := entries[i], entries[..i] + entries[i + 1..];
    assert entries == entries[..i] + [x] + entries[i + 1..];
    assert multiset(entries) == multiset(rest) + multiset{x};
    assert multiset{x, y}[y] == multiset{x}[y] + 1;
    assert multiset(entries)[y] == multiset(rest)[y] + multiset{x}[y];
    assert y in multiset(rest);
  }

  /** Distinct keys stay distinct under any rearrangement, so the sorted keys strictly increase. */
  lemma {:induction false} SortedKeysIncrease(entries: seq<Entry>, sorted: seq<Entry>)
    requires DistinctKeys(entries) && SortsTo(entries, sorted)
    ensures Increasing(sorted)
  {
    forall i, j | 0 <= i < j < |sorted| ensures TotalCmp(sorted[i].key, sorted[j].key).Less? {
      var x, y := sorted[i], sorted[j];
      if TotalCmp(x.key, y.key).Equal? {
        assert sorted == sorted[..i] + [x] + sorted[i + 1..j] + [y] + sorted[j + 1..];
        assert multiset{x, y} <= multiset(sorted);
        var k, l := TwoPlaces(entries, x, y);
        EqualIsSame(x.key, y.key);
        TotalCmpFlips(x.key, y.key);
        EqualIsSame(y.key, x.key);
      }
    }
  }

  /** Entry `i` of one sequence and entry `j` of the other have equal keys and values. */
  predicate Partners(a: seq<Entry>, i: nat, b: seq<Entry>, j: nat) {
    i < |a| && j < |b| && TotalCmp(a[i].key, b[j].key).Equal? && Same(a[i].val, b[j].val)
  }

  lemma {:induction false} PartnersInOrder(a: seq<Entry>, b: seq<Entry>, i: nat, j: nat, i': nat, j': nat)
    requires Increasing(a) && Increasing(b) && i < i' && Partners(a, i, b, j) && Partners(a, i', b, j')
    ensures j < j'
  {
    TotalCmpTransitive(a[i].key, a[i'].key, b[j'].key);
    TotalCmpFlips(a[i].key, b[j].key);
    TotalCmpTransitive(b[j].key, a[i].key, b[j'].key);
    TotalCmpFlips(b[j].key, b[j'].key);
    TotalCmpReflexive(b[j].key);
  }

  predicate AllPaired(a: seq<Entry>, b: seq<Entry>) {
    forall i :: 0 <= i < |a| ==> HasPartner(a, i, b)
  }

  predicate HasPartner(a: seq<Entry>, i: nat, b: seq<Entry>) {
    exists j :: 0 <= j < |b| && Partners(a, i, b, j)
  }

  lemma {:induction false} PartnerNotBefore(a: seq<Entry>, b: seq<Entry>, i: nat, j: nat)
    requires Increasing(a) && Increasing(b) && AllPaired(a, b) && Partners(a, i, b, j)
    ensures i <= j
    decreases i
  {
    if i > 0 {
      assert HasPartner(a, i - 1, b);
      var k :| 0 <= k < |b| && Partners(a, i - 1, b, k);
      PartnerNotBefore(a, b, i - 1, k);
      PartnersInOrder(a, b, i - 1, k, i, j);
    }
  }

  lemma {:induction false} PartnerNotAfter(a: seq<Entry>, b: seq<Entry>, i: nat, j: nat)
    requires Increasing(a) && Increasing(b) && AllPaired(a, b) && Partners(a, i, b, j) && |a| == |b|
    ensures j <= i
    decreases |a| - i
  {
    if i < |a| - 1 {
      assert HasPartner(a, i + 1, b);
      var k :| 0 <= k < |b| && Partners(a, i + 1, b, k);
      PartnerNotAfter(a, b, i + 1, k);
      PartnersInOrder(a, b, i, j, i + 1, k);
    }
  }

  /**
   Equal mappings, whatever the order of their entries, sort to sequences whose keys compare
   equal and whose values are equal, place by place.
   */
  lemma {:induction false} EqualMappingsSortAlike(a: seq<Entry>, b: seq<Entry>, sa: seq<Entry>, sb: seq<Entry>)
    requires Same(Mapping(a), Mapping(b)) && DistinctKeys(a) && DistinctKeys(b)
    requires forall i :: 0 <= i < |a| ==> MappingFree(a[i].key)
    requires SortsTo(a, sa) && SortsTo(b, sb)
    ensures |sa| == |sb| && forall i :: 0 <= i < |sa| ==> Partners(sa, i, sb, i)
  {
    SortedKeysIncrease(a, sa);
    SortedKeysIncrease(b, sb);
    assert |sa| == |multiset(sa)| == |a| && |sb| == |multiset(sb)| == |b|;
    forall i | 0 <= i < |sa| ensures HasPartner(sa, i, sb) {
      assert sa[i] in multiset(a);
      var k :| 0 <= k < |a| && a[k] == sa[i];
      assert EntryAmong(a[k], b);
      var l :| 0 <= l < |b| && Same(a[k].key, b[l].key) && Same(a[k].val, b[l].val);
      EqualIsSame(a[k].key, b[l].key);
      assert b[l] in multiset(sb);
      var j :| 0 <= j < |sb| && sb[j] == b[l];
      assert Partners(sa, i, sb, j);
    }
    forall i | 0 <= i < |sa| ensures Partners(sa, i, sb, i) {
      assert HasPartner(sa, i, sb);
      var j :| 0 <= j < |sb| && Partners(sa, i, sb, j);
      PartnerNotBefore(sa, sb, i, j);
      PartnerNotAfter(sa, sb, i, j);
    }
  }
}

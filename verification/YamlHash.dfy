/**
 Equality and hashing of values (3rdparty/serde_yaml/src/value/mod.rs, value/tagged.rs,
 number.rs, mapping.rs).

 A value is hashed by the writes it makes to a hasher. A mapping hashes each entry with a
 hasher of its own and combines the results by exclusive or; what a hasher makes of its writes
 is a parameter, `finish`, and every lemma holds for all of them.
 */
module YamlHash {
  import opened YamlValues

  // ---------------------------------------------------------------------------------
  // Equality is an equivalence
  // ---------------------------------------------------------------------------------

  lemma {:induction false} SameReflexive(a: Value)
    ensures Same(a, a)
  {
    match a
    case Sequence(x) =>
      forall i | 0 <= i < |x| ensures Same(x[i], x[i]) { SameReflexive(x[i]); }
    case Mapping(x) =>
      forall i | 0 <= i < |x| ensures EntryAmong(x[i], x) {
        SameReflexive(x[i].key);
        SameReflexive(x[i].val);
      }
    case Tagged(_, x) => SameReflexive(x);
    case _ =>
  }

  lemma {:induction false} SameTransitive(a: Value, b: Value, c: Value)
    requires Same(a, b) && Same(b, c)
    ensures Same(a, c)
    decreases a, 1
  {
    match (a, b, c) {
      case (Sequence(x), Sequence(y), Sequence(z)) =>
        forall i | 0 <= i < |x| ensures Same(x[i], z[i]) { SameTransitive(x[i], y[i], z[i]); }
      case (Mapping(x), Mapping(y), Mapping(z)) =>
        forall i | 0 <= i < |x| ensures EntryAmong(x[i], z) { AmongTransitive(x[i], y, z); }
      case (Tagged(_, x), Tagged(_, y), Tagged(_, z)) => SameTransitive(x, y, z);
      case _ =>
    }
  }

  lemma {:induction false} AmongTransitive(e: Entry, ys: seq<Entry>, zs: seq<Entry>)
    requires EntryAmong(e, ys) && AllAmong(ys, zs)
    ensures EntryAmong(e, zs)
    decreases e, 2
  {
    var j :| 0 <= j < |ys| && Same(e.key, ys[j].key) && Same(e.val, ys[j].val);
    assert EntryAmong(ys[j], zs);
    var k :| 0 <= k < |zs| && Same(ys[j].key, zs[k].key) && Same(ys[j].val, zs[k].val);
    SameTransitive(e.key, ys[j].key, zs[k].key);
    SameTransitive(e.val, ys[j].val, zs[k].val);
  }

  predicate AllAmong(xs: seq<Entry>, ys: seq<Entry>) {
    forall i :: 0 <= i < |xs| ==> EntryAmong(xs[i], ys)
  }

  predicate ValidEntries(entries: seq<Entry>) {
    forall i :: 0 <= i < |entries| ==> Valid(entries[i].key) && Valid(entries[i].val)
  }

  function Without(entries: seq<Entry>, j: nat): seq<Entry>
    requires j < |entries|
  {
    entries[..j] + entries[j + 1..]
  }

  /** Two valid mappings that are equal one way round are equal the other way round. */
  lemma {:induction false} SameFlips(a: Value, b: Value)
    requires Valid(a) && Valid(b) && Same(a, b)
    ensures Same(b, a)
    decreases a, 0
  {
    match (a, b) {
      case (Sequence(x), Sequence(y)) =>
        forall i | 0 <= i < |y| ensures Same(y[i], x[i]) { SameFlips(x[i], y[i]); }
      case (Mapping(x), Mapping(y)) => AmongFlips(x, y);
      case (Tagged(_, x), Tagged(_, y)) => SameFlips(x, y);
      case _ =>
    }
  }

  /** Entries with distinct keys, each among as many others: those are among the first in turn. */
  lemma {:induction false} AmongFlips(xs: seq<Entry>, ys: seq<Entry>)
    requires ValidEntries(xs) && ValidEntries(ys) && DistinctKeys(xs)
    requires |xs| == |ys| && AllAmong(xs, ys)
    ensures AllAmong(ys, xs)
    decreases xs, 0
  {
    if xs != [] {
      var last := |xs| - 1;
      var e := xs[last];
      assert EntryAmong(e, ys);
      var j :| 0 <= j < |ys| && Same(e.key, ys[j].key) && Same(e.val, ys[j].val);
      EntryFlips(xs[last], ys[j]);
      OthersAmong(xs, ys, j);
      OthersDistinct(xs, ys, j);
      AmongFlips(xs[..last], Without(ys, j));
      AllAmongMore(xs, ys, j);
    }
  }

  lemma {:induction false} AllAmongMore(xs: seq<Entry>, ys: seq<Entry>, j: nat)
    requires xs != [] && j < |ys| && AllAmong(Without(ys, j), xs[..|xs| - 1])
    requires Same(ys[j].key, xs[|xs| - 1].key) && Same(ys[j].val, xs[|xs| - 1].val)
    ensures AllAmong(ys, xs)
  {
    forall k | 0 <= k < |ys| ensures EntryAmong(ys[k], xs) {
      if k != j {
        assert ys[k] == Without(ys, j)[if k < j then k else k - 1];
        AmongMore(ys[k], xs, |xs| - 1);
      }
    }
  }

  lemma {:induction false} EntryFlips(e: Entry, f: Entry)
    requires Valid(e.key) && Valid(e.val) && Valid(f.key) && Valid(f.val)
    requires Same(e.key, f.key) && Same(e.val, f.val)
    ensures Same(f.key, e.key) && Same(f.val, e.val)
    decreases e, 0
  {
    SameFlips(e.key, f.key);
    SameFlips(e.val, f.val);
  }

  lemma {:induction false} AmongMore(e: Entry, entries: seq<Entry>, n: nat)
    requires n <= |entries| && EntryAmong(e, entries[..n])
    ensures EntryAmong(e, entries)
  {
    var j :| 0 <= j < n && Same(e.key, entries[..n][j].key) && Same(e.val, entries[..n][j].val);
    assert entries[j] == entries[..n][j];
  }

  /** With its partner taken by the last entry, the others find theirs among what remains. */
  lemma {:induction false} OthersAmong(xs: seq<Entry>, ys: seq<Entry>, j: nat)
    requires xs != [] && j < |ys| && DistinctKeys(xs) && AllAmong(xs, ys)
    requires Same(ys[j].key, xs[|xs| - 1].key)
    ensures AllAmong(xs[..|xs| - 1], Without(ys, j))
  {
    var last := |xs| - 1;
    forall i | 0 <= i < last ensures EntryAmong(xs[..last][i], Without(ys, j)) {
      assert EntryAmong(xs[i], ys);
      var k :| 0 <= k < |ys| && Same(xs[i].key, ys[k].key) && Same(xs[i].val, ys[k].val);
      if k == j {
        SameTransitive(xs[i].key, ys[j].key, xs[last].key);
        assert false;
      }
      assert ys[k] == Without(ys, j)[if k < j then k else k - 1];
    }
  }

  lemma {:induction false} OthersDistinct(xs: seq<Entry>, ys: seq<Entry>, j: nat)
    requires xs != [] && j < |ys| && DistinctKeys(xs) && ValidEntries(xs) && ValidEntries(ys)
    ensures DistinctKeys(xs[..|xs| - 1]) && ValidEntries(xs[..|xs| - 1]) && ValidEntries(Without(ys, j))
  {
  }

  // ---------------------------------------------------------------------------------
  // The writes of a value
  // ---------------------------------------------------------------------------------

  datatype Write =
    | Discriminant(kind: nat)
    | WriteBool(b: bool)
    | WriteU64(u: int)
    | WriteI64(i: int)
    | WriteI32(i: int)
    | WriteText(s: string)
    | WriteLength(n: nat)
    | WriteHash(h: bv64)

  type Finish = seq<Write> -> bv64

  function Writes(finish: Finish, v: Value): seq<Write>
    decreases v, 0
  {
    match v
    case Null => [Discriminant(0)]
    case Bool(b) => [Discriminant(1), WriteBool(b)]
    case Num(n) => [Discriminant(2), NumberWrite(n)]
    case Str(s) => [Discriminant(3), WriteText(s)]
    case Sequence(items) => [Discriminant(4), WriteLength(|items|)] + ItemsWrites(finish, items)
    case Mapping(entries) => [Discriminant(5), WriteHash(EntriesHash(finish, entries))]
    case Tagged(tag, inner) => [Discriminant(6), WriteText(NoBang(tag))] + Writes(finish, inner)
  }

  /** All floats hash alike. */
  function NumberWrite(n: Number): Write {
    match n
    case PosInt(u) => WriteU64(u)
    case NegInt(i) => WriteI64(i)
    case Flt(_) => WriteI32(3)
  }

  function ItemsWrites(finish: Finish, items: seq<Value>): seq<Write>
    decreases items, 0
  {
    if items == [] then [] else Writes(finish, items[0]) + ItemsWrites(finish, items[1..])
  }

  function EntryHash(finish: Finish, e: Entry): bv64
    decreases e, 1
  {
    finish(Writes(finish, e.key) + Writes(finish, e.val))
  }

  /** The hashes of all entries, combined in order. */
  function EntriesHash(finish: Finish, entries: seq<Entry>): bv64
    decreases entries, 0
  {
    if entries == [] then 0
    else Xor(EntriesHash(finish, entries[..|entries| - 1]), EntryHash(finish, entries[|entries| - 1]))
  }

  function Xor(a: bv64, b: bv64): bv64 { a ^ b }

  method HashMapping(finish: Finish, entries: seq<Entry>) returns (xor: bv64)
    ensures xor == EntriesHash(finish, entries)
  {
    xor := 0;
    for i := 0 to |entries|
      invariant xor == EntriesHash(finish, entries[..i])
    {
      xor := xor ^ finish(Writes(finish, entries[i].key) + Writes(finish, entries[i].val));
      assert entries[..i + 1][..i] == entries[..i];
    }
    assert entries[..|entries|] == entries;
  }

  // ---------------------------------------------------------------------------------
  // The hash does not see the order of entries
  // ---------------------------------------------------------------------------------

  lemma {:induction false} XorSwap(a: bv64, b: bv64, c: bv64)
    ensures (a ^ b) ^ c == (a ^ c) ^ b
  {
  }

  lemma {:induction false} XorSwaps(a: bv64, b: bv64, c: bv64)
    ensures Xor(Xor(a, b), c) == Xor(Xor(a, c), b)
  {
    XorSwap(a, b, c);
    assert Xor(a, b) == a ^ b;
    assert Xor(a, c) == a ^ c;
  }

  /** An entry may be taken out anywhere and combined last. */
  lemma {:induction false} HashRemove(finish: Finish, entries: seq<Entry>, j: nat)
    requires j < |entries|
    ensures EntriesHash(finish, entries) == Xor(EntriesHash(finish, Without(entries, j)), EntryHash(finish, entries[j]))
    decreases |entries|
  {
    var last := |entries| - 1;
    if j == last {
      assert Without(entries, j) == entries[..last];
    } else {
      var init := entries[..last];
      HashRemove(finish, init, j);
      assert Without(entries, j)[..last - 1] == Without(init, j);
      XorSwaps(EntriesHash(finish, Without(init, j)), EntryHash(finish, entries[j]), EntryHash(finish, entries[last]));
    }
  }

  lemma {:induction false} HashIgnoresOrder(finish: Finish, a: seq<Entry>, b: seq<Entry>)
    requires multiset(a) == multiset(b)
    ensures EntriesHash(finish, a) == EntriesHash(finish, b)
    decreases |a|
  {
    if a == [] {
      assert |b| == |multiset(b)| == 0;
    } else {
      var last := |a| - 1;
      var e := a[last];
      assert e in multiset(b);
      var j :| 0 <= j < |b| && b[j] == e;
      assert a == a[..last] + [e];
      assert b == b[..j] + [e] + b[j + 1..];
      assert multiset(a[..last]) == multiset(a) - multiset{e};
      assert multiset(Without(b, j)) == multiset(b) - multiset{e};
      HashIgnoresOrder(finish, a[..last], Without(b, j));
      HashRemove(finish, b, j);
    }
  }

  // ---------------------------------------------------------------------------------
  // Equal values hash alike
  // ---------------------------------------------------------------------------------

  /** What a hash table of values needs, and a mapping keyed by them. */
  lemma {:induction false} EqualValuesHashAlike(finish: Finish, a: Value, b: Value)
    requires Valid(a) && Valid(b) && Same(a, b)
    ensures Writes(finish, a) == Writes(finish, b)
    decreases a, 1
  {
    match (a, b) {
      case (Sequence(x), Sequence(y)) => EqualItemsHashAlike(finish, x, y);
      case (Mapping(x), Mapping(y)) => EqualMappingsHashAlike(finish, x, y);
      case (Tagged(_, x), Tagged(_, y)) => EqualValuesHashAlike(finish, x, y);
      case _ =>
    }
  }

  lemma {:induction false} EqualItemsHashAlike(finish: Finish, a: seq<Value>, b: seq<Value>)
    requires |a| == |b|
    requires forall i :: 0 <= i < |a| ==> Valid(a[i]) && Valid(b[i]) && Same(a[i], b[i])
    ensures ItemsWrites(finish, a) == ItemsWrites(finish, b)
    decreases a, 0
  {
    if a != [] {
      EqualValuesHashAlike(finish, a[0], b[0]);
      EqualItemsHashAlike(finish, a[1..], b[1..]);
    }
  }

  lemma {:induction false} EqualEntriesHashAlike(finish: Finish, e: Entry, f: Entry)
    requires Valid(e.key) && Valid(e.val) && Valid(f.key) && Valid(f.val)
    requires Same(e.key, f.key) && Same(e.val, f.val)
    ensures EntryHash(finish, e) == EntryHash(finish, f)
    decreases e, 0
  {
    EqualValuesHashAlike(finish, e.key, f.key);
    EqualValuesHashAlike(finish, e.val, f.val);
  }

  /** The entries of equal mappings pair up, and what pairs up hashes alike. */
  lemma {:induction false} EqualMappingsHashAlike(finish: Finish, a: seq<Entry>, b: seq<Entry>)
    requires ValidEntries(a) && ValidEntries(b) && DistinctKeys(a)
    requires |a| == |b| && AllAmong(a, b)
    ensures EntriesHash(finish, a) == EntriesHash(finish, b)
    decreases a, 0
  {
    if a != [] {
      var last := |a| - 1;
      var e := a[last];
      assert EntryAmong(e, b);
      var j :| 0 <= j < |b| && Same(e.key, b[j].key) && Same(e.val, b[j].val);
      SameFlips(e.key, b[j].key);
      OthersAmong(a, b, j);
      OthersDistinct(a, b, j);
      EqualMappingsHashAlike(finish, a[..last], Without(b, j));
      EqualEntriesHashAlike(finish, a[last], b[j]);
      HashRemove(finish, b, j);
    }
  }
}

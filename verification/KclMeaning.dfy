/**
 What a straight-line module body means, without any laziness: the value of a name is what
 its own setters give when they are applied in order, and every other name they read has the
 value that all of its setters give.
 */
module KclMeaning {
  import opened Wrappers
  import opened KclSetters

  /** The runtime's values and operators, as far as the evaluator uses them. */
  datatype Interp<!V> = Interp(undefined: V, literal: string -> V, binary: (string, V, V) -> V, truthy: V -> bool)

  /** A body, with a rank that shows how names depend on each other. */
  datatype Program<!V> = Program(body: seq<Stmt>, interp: Interp<V>, rank: string -> nat)

  predicate Sets(s: Stmt, x: string) {
    Targets(s) == [x]
  }

  /** The expression whose value a statement stores. */
  function Meaning(s: Stmt): Expr {
    match s
    case Assign(_, _, value) => value
    case AugAssign(_, target, op, value) => Binary(op, Name(target), value)
    case Unification(_, target, value) => Binary("|", Name(target), value)
    case _ => Literal("")
  }

  /** How many of the first `p` statements set `x`. */
  function Stores(body: seq<Stmt>, x: string, p: nat): nat
    requires p <= |body|
  {
    if p == 0 then 0 else Stores(body, x, p - 1) + if Sets(body[p - 1], x) then 1 else 0
  }

  /** The position of the setter of `x`, among the first `p` statements, before which `j` others stand. */
  function Position(body: seq<Stmt>, x: string, p: nat, j: nat): (q: nat)
    requires p <= |body| && j < Stores(body, x, p)
    ensures q < p && Sets(body[q], x) && Stores(body, x, q) == j
  {
    if Sets(body[p - 1], x) && Stores(body, x, p - 1) == j then p - 1 else Position(body, x, p - 1, j)
  }

  // ---------------------------------------------------------------------------------
  // The meaning
  // ---------------------------------------------------------------------------------

  /** The value of `x` after those of its setters that are among the first `p` statements. */
  ghost function UpTo<V>(c: Program<V>, x: string, p: nat): V
    requires p <= |c.body|
    decreases c.rank(x), p, 0
  {
    if p == 0 then c.interp.undefined
    else if Sets(c.body[p - 1], x) then ValueOf(c, x, p - 1, Meaning(c.body[p - 1]))
    else UpTo(c, x, p - 1)
  }

  /** The value of `e` in a setter of `x` at position `p`. */
  ghost function ValueOf<V>(c: Program<V>, x: string, p: nat, e: Expr): V
    requires p <= |c.body|
    decreases c.rank(x), p, 1, e
  {
    match e
    case Literal(text) => c.interp.literal(text)
    case Name(z) =>
      if z == x then UpTo(c, x, p)
      else if c.rank(z) < c.rank(x) then Full(c, z)
      else c.interp.undefined
    case Binary(op, left, right) => c.interp.binary(op, ValueOf(c, x, p, left), ValueOf(c, x, p, right))
    case Choose(test, yes, no) =>
      if c.interp.truthy(ValueOf(c, x, p, test)) then ValueOf(c, x, p, yes) else ValueOf(c, x, p, no)
  }

  ghost function Full<V>(c: Program<V>, x: string): V
    decreases c.rank(x), |c.body|, 1
  {
    UpTo(c, x, |c.body|)
  }

  /** Names depend on lower ranks only, and a name is set before it is read by its own setter. */
  ghost predicate Fits<V>(c: Program<V>, x: string, p: nat, e: Expr)
    requires p <= |c.body|
  {
    match e
    case Literal(_) => true
    case Name(z) => if z == x then Stores(c.body, x, p) > 0 else c.rank(z) < c.rank(x)
    case Binary(_, left, right) => Fits(c, x, p, left) && Fits(c, x, p, right)
    case Choose(test, yes, no) => Fits(c, x, p, test) && Fits(c, x, p, yes) && Fits(c, x, p, no)
  }

  ghost predicate TameAt<V>(c: Program<V>, i: nat)
    requires i < |c.body|
  {
    (c.body[i].Other? || |Targets(c.body[i])| == 1)
    && forall x :: Sets(c.body[i], x) ==> Fits(c, x, i, Meaning(c.body[i]))
  }

  /** A straight-line body without cycles between names. */
  ghost predicate Tame<V>(c: Program<V>) {
    forall i :: 0 <= i < |c.body| ==> TameAt(c, i)
  }

  // ---------------------------------------------------------------------------------
  // When a read comes at the right time
  // ---------------------------------------------------------------------------------

  /** With `d` statements done, `x` can be read: none or all of its setters have run, and if none, so too for all that they read. */
  ghost predicate Ready<V>(c: Program<V>, d: nat, x: string)
    requires d <= |c.body|
    decreases c.rank(x), 1
  {
    if Stores(c.body, x, d) > 0 then Stores(c.body, x, d) == Stores(c.body, x, |c.body|)
    else forall i :: 0 <= i < |c.body| && Sets(c.body[i], x) ==> ReadyIn(c, d, x, Meaning(c.body[i]))
  }

  ghost predicate ReadyIn<V>(c: Program<V>, d: nat, x: string, e: Expr)
    requires d <= |c.body|
    decreases c.rank(x), 0, e
  {
    match e
    case Literal(_) => true
    case Name(z) => z == x || (c.rank(z) < c.rank(x) && Ready(c, d, z))
    case Binary(_, left, right) => ReadyIn(c, d, x, left) && ReadyIn(c, d, x, right)
    case Choose(test, yes, no) => ReadyIn(c, d, x, test) && ReadyIn(c, d, x, yes) && ReadyIn(c, d, x, no)
  }

  /** Every statement of the body reads at the right time. */
  ghost predicate WellTimed<V>(c: Program<V>) {
    forall i, x :: 0 <= i < |c.body| && Sets(c.body[i], x) ==> ReadyIn(c, i, x, Meaning(c.body[i]))
  }

  /** Reading `z` now gives its full value: what has been stored of it, if anything, is already that. */
  ghost predicate Settled<V>(c: Program<V>, d: nat, z: string)
    requires d <= |c.body|
  {
    Stores(c.body, z, d) > 0 ==> UpTo(c, z, d) == Full(c, z)
  }

  /** So for every other name that `e` is bound to read. */
  ghost predicate SettledIn<V>(c: Program<V>, d: nat, x: string, e: Expr)
    requires d <= |c.body|
  {
    match e
    case Literal(_) => true
    case Name(z) => z == x || Settled(c, d, z)
    case Binary(_, left, right) => SettledIn(c, d, x, left) && SettledIn(c, d, x, right)
    case Choose(test, _, _) => SettledIn(c, d, x, test)
  }

  // ---------------------------------------------------------------------------------
  // Setters of a straight-line body
  // ---------------------------------------------------------------------------------

  predicate Straight(body: seq<Stmt>) {
    forall i :: 0 <= i < |body| ==> body[i].Other? || |Targets(body[i])| == 1
  }

  lemma {:induction false} StoresPrefix(body: seq<Stmt>, x: string, m: nat, p: nat)
    requires p <= m <= |body|
    ensures Stores(body[..m], x, p) == Stores(body, x, p)
  {
    if p > 0 { StoresPrefix(body, x, m, p - 1); }
  }

  lemma {:induction false} StoresGrow(body: seq<Stmt>, x: string, p: nat, q: nat)
    requires p <= q <= |body|
    ensures Stores(body, x, p) <= Stores(body, x, q)
  {
    if p < q { StoresGrow(body, x, p, q - 1); }
  }

  lemma {:induction false} SettersAreStores(body: seq<Stmt>, x: string)
    requires Straight(body)
    ensures |Setters(body, x)| == Stores(body, x, |body|)
  {
    if body != [] {
      var n := |body| - 1;
      SettersAreStores(body[..n], x);
      StoresPrefix(body, x, n, n);
      OneSetter(n, body[n], x);
      assert |Setters(body, x)| == |Setters(body[..n], x)| + |StmtSetters(n, body[n], x)|;
    }
  }

  lemma {:induction false} OneSetter(i: nat, s: Stmt, x: string)
    requires !s.If? && |Targets(s)| <= 1
    ensures StmtSetters(i, s, x) == if Sets(s, x) then [Setter(i, s.id, None, Normal)] else []
  {
    if |Targets(s)| == 1 {
      assert Targets(s)[..0] == [];
      assert Named([], s.id) == [];
      var leaf := Leaf(Targets(s)[0], s.id);
      assert LeavesOf(s) == [leaf] && [leaf][..0] == [];
      assert Marked([], x, i, s.id, false, Normal) == [];
    }
  }

  lemma {:induction false} PositionPrefix(body: seq<Stmt>, x: string, m: nat, p: nat, j: nat)
    requires p <= m <= |body| && j < Stores(body, x, p)
    ensures j < Stores(body[..m], x, p) && Position(body[..m], x, p, j) == Position(body, x, p, j)
  {
    StoresPrefix(body, x, m, p);
    StoresPrefix(body, x, m, p - 1);
    if !(Sets(body[p - 1], x) && Stores(body, x, p - 1) == j) { PositionPrefix(body, x, m, p - 1, j); }
  }

  /** The setter at index `j` is the statement before which exactly `j` setters stand. */
  lemma {:induction false} SetterAt(body: seq<Stmt>, x: string, j: nat)
    requires Straight(body) && j < Stores(body, x, |body|)
    ensures |Setters(body, x)| == Stores(body, x, |body|)
    ensures var q := Position(body, x, |body|, j); Setters(body, x)[j] == Setter(q, body[q].id, None, Normal)
  {
    var n := |body| - 1;
    SettersAreStores(body, x);
    SettersAreStores(body[..n], x);
    StoresPrefix(body, x, n, n);
    OneSetter(n, body[n], x);
    if j < Stores(body, x, n) {
      SetterAt(body[..n], x, j);
      PositionPrefix(body, x, n, n, j);
    }
  }

  /** Between two of its setters, a name keeps its value. */
  lemma {:induction false} SameStores<V>(c: Program<V>, x: string, p: nat, q: nat)
    requires p <= q <= |c.body| && Stores(c.body, x, p) == Stores(c.body, x, q)
    ensures UpTo(c, x, p) == UpTo(c, x, q)
  {
    if p < q {
      StoresGrow(c.body, x, p, q - 1);
      SameStores(c, x, p, q - 1);
    }
  }

  /** The position of the setter that runs at backtracking level `level`; level 0 is behind the last. */
  function Mark(body: seq<Stmt>, x: string, level: nat): (q: nat)
    ensures q <= |body|
    ensures level <= Stores(body, x, |body|) ==> Stores(body, x, q) == Stores(body, x, |body|) - level
    ensures 0 < level <= Stores(body, x, |body|) ==> q < |body| && Sets(body[q], x)
  {
    var n := Stores(body, x, |body|);
    if 0 < level <= n then Position(body, x, |body|, n - level) else |body|
  }

  /** The setter one level deeper leaves the name as the setter of this level finds it. */
  lemma {:induction false} MarkStep<V>(c: Program<V>, x: string, level: nat)
    requires level < Stores(c.body, x, |c.body|)
    ensures UpTo(c, x, Mark(c.body, x, level + 1) + 1) == UpTo(c, x, Mark(c.body, x, level))
  {
    var p, q := Mark(c.body, x, level + 1) + 1, Mark(c.body, x, level);
    if q < p { StoresGrow(c.body, x, q, p - 1); }
    SameStores(c, x, p, q);
  }

  /** The setters of a name in a straight-line body: one for each statement that sets it. */
  predicate ListFits(list: seq<Setter>, body: seq<Stmt>, x: string) {
    && |list| == Stores(body, x, |body|)
    && forall j :: 0 <= j < |list| ==> list[j].stmt == Mark(body, x, |list| - j) && list[j].kind == Normal && list[j].stopped == None
  }

  ghost predicate TableFits(table: Table, body: seq<Stmt>) {
    forall x {:trigger ListFits(Entries(table, x), body, x)} :: ListFits(Entries(table, x), body, x)
  }

  lemma {:induction false} SettersFit(body: seq<Stmt>, x: string)
    requires Straight(body)
    ensures ListFits(Setters(body, x), body, x)
  {
    SettersAreStores(body, x);
    var list := Setters(body, x);
    forall j | 0 <= j < |list|
      ensures list[j].stmt == Mark(body, x, |list| - j) && list[j].kind == Normal && list[j].stopped == None
    {
      SetterAt(body, x, j);
    }
  }
}

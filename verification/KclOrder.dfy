/**
 Order independence of lazy evaluation (crates/evaluator/src/lazy.rs): what a body means does
 not depend on how the statements of different names are interleaved, and evaluation gives
 that meaning when every read comes at the right time. Every order is right when no name
 with several setters is read by a setter of another name; otherwise some order is wrong.
 */
module KclOrder {
  import opened Wrappers
  import opened KclSetters
  import opened KclMeaning
  import opened KclLevels
  import opened KclReads
  import opened KclReplay
  import opened KclEvaluator
  import opened KclPlain

  /** Evaluate a module body: the globals, and the level counters when all is over. */
  method Evaluate<V>(body: seq<Stmt>, interp: Interp<V>, ghost rank: string -> nat)
    returns (globals: map<string, V>, levels: Levels, ghost right: bool, ghost env: Env<V>, ghost ts: seq<Trail<V>>)
    ensures forall x :: LevelOf(levels, x) == 0
    ensures var c := Program(body, interp, rank);
            && (Tame(c) && WellTimed(c) ==> right)
            && (Tame(c) && right ==>
                  forall x :: Stores(body, x, |body|) > 0 ==> x in globals && globals[x] == Full(c, x))
            && (Tame(c) && right ==> AllSettled(c))
    ensures env.body == body && env.interp == interp && Evaluates(env, ts, globals)
    ensures PlainRun(interp, map[], body).Some? ==>
              globals == (map x | x in Defined(body) :: interp.undefined) + PlainRun(interp, map[], body).value
  {
    var evaluator := new Evaluator(body, interp, rank);
    env := evaluator.World();
    ts := evaluator.WalkModule();
    LazyIsPlain(env, ts, evaluator.variables);
    return evaluator.variables, evaluator.levels, evaluator.right, env, ts;
  }

  // ---------------------------------------------------------------------------------
  // Interleavings
  // ---------------------------------------------------------------------------------

  /** The setters of `x`, in order. */
  function Own(ss: seq<Stmt>, x: string): seq<Stmt> {
    if ss == [] then []
    else if Sets(ss[|ss| - 1], x) then Own(ss[..|ss| - 1], x) + [ss[|ss| - 1]]
    else Own(ss[..|ss| - 1], x)
  }

  /** Two bodies with the same setters for every name, in the same order name by name. */
  ghost predicate Interleaved(a: seq<Stmt>, b: seq<Stmt>) {
    forall x {:trigger Own(a, x)} {:trigger Own(b, x)} :: Own(a, x) == Own(b, x)
  }

  lemma {:induction false} OwnStep(body: seq<Stmt>, x: string, p: nat)
    requires 0 < p <= |body|
    ensures Own(body[..p], x) == if Sets(body[p - 1], x) then Own(body[..p - 1], x) + [body[p - 1]] else Own(body[..p - 1], x)
  {
    assert body[..p][..p - 1] == body[..p - 1];
  }

  lemma {:induction false} OwnIsStores(body: seq<Stmt>, x: string, p: nat)
    requires p <= |body|
    ensures |Own(body[..p], x)| == Stores(body, x, p)
  {
    if p > 0 {
      OwnIsStores(body, x, p - 1);
      OwnStep(body, x, p);
    }
  }

  lemma {:induction false} OwnCount(body: seq<Stmt>, x: string)
    ensures |Own(body, x)| == Stores(body, x, |body|)
  {
    assert body[..|body|] == body;
    OwnIsStores(body, x, |body|);
  }

  /** The meaning of a name depends on its own setters and on the meaning of the names they read. */
  lemma {:induction false} SameOwnSameValue<V>(c: Program<V>, d: Program<V>, x: string, p: nat, q: nat)
    requires Interleaved(c.body, d.body) && c.interp == d.interp && c.rank == d.rank
    requires p <= |c.body| && q <= |d.body| && Own(c.body[..p], x) == Own(d.body[..q], x)
    ensures UpTo(c, x, p) == UpTo(d, x, q)
    decreases c.rank(x), p + q, 0
  {
    if p > 0 { OwnStep(c.body, x, p); }
    if q > 0 { OwnStep(d.body, x, q); }
    if p > 0 && !Sets(c.body[p - 1], x) {
      SameOwnSameValue(c, d, x, p - 1, q);
    } else if q > 0 && !Sets(d.body[q - 1], x) {
      SameOwnSameValue(c, d, x, p, q - 1);
    } else if p > 0 && q > 0 {
      SameEnds(Own(c.body[..p - 1], x), Own(d.body[..q - 1], x), c.body[p - 1], d.body[q - 1]);
      SameOwnSameExpr(c, d, x, p - 1, q - 1, Meaning(c.body[p - 1]));
    }
  }

  lemma {:induction false} SameEnds(a: seq<Stmt>, b: seq<Stmt>, s: Stmt, t: Stmt)
    requires a + [s] == b + [t]
    ensures a == b && s == t
  {
    assert (a + [s])[..|a|] == a && (b + [t])[..|b|] == b && (a + [s])[|a|] == s;
  }

  lemma {:induction false} SameOwnSameExpr<V>(c: Program<V>, d: Program<V>, x: string, p: nat, q: nat, e: Expr)
    requires Interleaved(c.body, d.body) && c.interp == d.interp && c.rank == d.rank
    requires p <= |c.body| && q <= |d.body| && Own(c.body[..p], x) == Own(d.body[..q], x)
    ensures ValueOf(c, x, p, e) == ValueOf(d, x, q, e)
    decreases c.rank(x), p + q, 1, e
  {
    match e {
      case Literal(_) =>
      case Name(z) =>
        assert c.body[..|c.body|] == c.body && d.body[..|d.body|] == d.body;
        if z == x { SameOwnSameValue(c, d, x, p, q); }
        else if c.rank(z) < c.rank(x) { SameOwnSameValue(c, d, z, |c.body|, |d.body|); }
      case Binary(_, left, right) =>
        SameOwnSameExpr(c, d, x, p, q, left);
        SameOwnSameExpr(c, d, x, p, q, right);
      case Choose(test, yes, no) =>
        SameOwnSameExpr(c, d, x, p, q, test);
        SameOwnSameExpr(c, d, x, p, q, yes);
        SameOwnSameExpr(c, d, x, p, q, no);
    }
  }

  /** The full value of every name is the same in every interleaving. */
  lemma {:induction false} MeaningIsOrderFree<V>(c: Program<V>, d: Program<V>, x: string)
    requires Interleaved(c.body, d.body) && c.interp == d.interp && c.rank == d.rank
    ensures Full(c, x) == Full(d, x)
  {
    assert c.body[..|c.body|] == c.body && d.body[..|d.body|] == d.body;
    SameOwnSameValue(c, d, x, |c.body|, |d.body|);
  }

  // ---------------------------------------------------------------------------------
  // Bodies that can be put in any order
  // ---------------------------------------------------------------------------------

  /** Other names in `e` have one setter at most. */
  predicate ReadsSingles(body: seq<Stmt>, x: string, e: Expr) {
    match e
    case Literal(_) => true
    case Name(z) => z == x || Stores(body, z, |body|) <= 1
    case Binary(_, left, right) => ReadsSingles(body, x, left) && ReadsSingles(body, x, right)
    case Choose(test, yes, no) => ReadsSingles(body, x, test) && ReadsSingles(body, x, yes) && ReadsSingles(body, x, no)
  }

  ghost predicate SharesSingles(body: seq<Stmt>) {
    forall i, x :: 0 <= i < |body| && Sets(body[i], x) ==> ReadsSingles(body, x, Meaning(body[i]))
  }

  lemma {:induction false} SinglesAreReady<V>(c: Program<V>, d: nat, x: string)
    requires Tame(c) && SharesSingles(c.body) && d <= |c.body| && Stores(c.body, x, |c.body|) <= 1
    ensures Ready(c, d, x)
    decreases c.rank(x), 1
  {
    StoresGrow(c.body, x, d, |c.body|);
    forall i | 0 <= i < |c.body| && Sets(c.body[i], x)
      ensures ReadyIn(c, d, x, Meaning(c.body[i]))
    {
      assert TameAt(c, i);
      SinglesAreReadyIn(c, d, x, i, Meaning(c.body[i]));
    }
  }

  lemma {:induction false} SinglesAreReadyIn<V>(c: Program<V>, d: nat, x: string, i: nat, e: Expr)
    requires Tame(c) && SharesSingles(c.body) && d <= |c.body| && i <= |c.body|
    requires Fits(c, x, i, e) && ReadsSingles(c.body, x, e)
    ensures ReadyIn(c, d, x, e)
    decreases c.rank(x), 0, e
  {
    match e {
      case Literal(_) =>
      case Name(z) => if z != x { SinglesAreReady(c, d, z); }
      case Binary(_, left, right) =>
        SinglesAreReadyIn(c, d, x, i, left);
        SinglesAreReadyIn(c, d, x, i, right);
      case Choose(test, yes, no) =>
        SinglesAreReadyIn(c, d, x, i, test);
        SinglesAreReadyIn(c, d, x, i, yes);
        SinglesAreReadyIn(c, d, x, i, no);
    }
  }

  /** If names with several setters are read by themselves only, every read comes at the right time. */
  lemma {:induction false} SinglesAreWellTimed<V>(c: Program<V>)
    requires Tame(c) && SharesSingles(c.body)
    ensures WellTimed(c)
  {
    forall i, x | 0 <= i < |c.body| && Sets(c.body[i], x)
      ensures ReadyIn(c, i, x, Meaning(c.body[i]))
    {
      assert TameAt(c, i);
      SinglesAreReadyIn(c, i, x, i, Meaning(c.body[i]));
    }
  }

  /** The statement at a position is the one of its own name with as many before it. */
  lemma {:induction false} OwnAt(body: seq<Stmt>, x: string, p: nat, k: nat)
    requires p <= |body| && k < Stores(body, x, p)
    ensures |Own(body[..p], x)| == Stores(body, x, p) && Own(body[..p], x)[k] == body[Position(body, x, p, k)]
  {
    OwnIsStores(body, x, p);
    OwnIsStores(body, x, p - 1);
    OwnStep(body, x, p);
    if Sets(body[p - 1], x) && Stores(body, x, p - 1) == k {
      assert Position(body, x, p, k) == p - 1;
    } else {
      OwnAt(body, x, p - 1, k);
      assert Own(body[..p], x)[k] == Own(body[..p - 1], x)[k];
    }
  }

  lemma {:induction false} PositionOf(body: seq<Stmt>, x: string, p: nat, i: nat)
    requires i < p <= |body| && Sets(body[i], x)
    ensures Stores(body, x, i) < Stores(body, x, p) && Position(body, x, p, Stores(body, x, i)) == i
  {
    StoresGrow(body, x, i + 1, p);
    if i < p - 1 {
      StoresGrow(body, x, i + 1, p - 1);
      PositionOf(body, x, p - 1, i);
    }
  }

  /** Every setter of one body is found in the other, with as many setters of its name before it. */
  lemma {:induction false} Counterpart(a: seq<Stmt>, b: seq<Stmt>, x: string, i: nat) returns (j: nat)
    requires Interleaved(a, b) && i < |b| && Sets(b[i], x)
    ensures j < |a| && a[j] == b[i] && Stores(a, x, j) == Stores(b, x, i)
  {
    var k := Stores(b, x, i);
    assert a[..|a|] == a && b[..|b|] == b;
    PositionOf(b, x, |b|, i);
    OwnAt(b, x, |b|, k);
    OwnCount(a, x);
    OwnAt(a, x, |a|, k);
    j := Position(a, x, |a|, k);
  }

  lemma {:induction false} FitsElsewhere<V>(c: Program<V>, d: Program<V>, x: string, j: nat, i: nat, e: Expr)
    requires c.rank == d.rank && j <= |c.body| && i <= |d.body| && Stores(c.body, x, j) == Stores(d.body, x, i)
    requires Fits(c, x, j, e)
    ensures Fits(d, x, i, e)
  {
    match e {
      case Binary(_, left, right) =>
        FitsElsewhere(c, d, x, j, i, left);
        FitsElsewhere(c, d, x, j, i, right);
      case Choose(test, yes, no) =>
        FitsElsewhere(c, d, x, j, i, test);
        FitsElsewhere(c, d, x, j, i, yes);
        FitsElsewhere(c, d, x, j, i, no);
      case _ =>
    }
  }

  lemma {:induction false} InterleavedIsTame<V>(c: Program<V>, d: Program<V>)
    requires Tame(c) && Interleaved(c.body, d.body) && Straight(d.body) && c.rank == d.rank
    ensures Tame(d)
  {
    forall i | 0 <= i < |d.body| ensures TameAt(d, i) {
      forall x | Sets(d.body[i], x) ensures Fits(d, x, i, Meaning(d.body[i])) {
        var j := Counterpart(c.body, d.body, x, i);
        assert TameAt(c, j);
        FitsElsewhere(c, d, x, j, i, Meaning(d.body[i]));
      }
    }
  }

  lemma {:induction false} SinglesElsewhere(a: seq<Stmt>, b: seq<Stmt>, x: string, e: Expr)
    requires Interleaved(a, b) && ReadsSingles(a, x, e)
    ensures ReadsSingles(b, x, e)
  {
    match e {
      case Name(z) =>
        OwnCount(a, z);
        OwnCount(b, z);
      case Binary(_, left, right) =>
        SinglesElsewhere(a, b, x, left);
        SinglesElsewhere(a, b, x, right);
      case Choose(test, yes, no) =>
        SinglesElsewhere(a, b, x, test);
        SinglesElsewhere(a, b, x, yes);
        SinglesElsewhere(a, b, x, no);
      case _ =>
    }
  }

  /** Such a body can be put in any order: evaluation is right, and gives every name the same value. */
  lemma {:induction false} AnyOrderIsRight<V>(c: Program<V>, d: Program<V>)
    requires Tame(c) && SharesSingles(c.body)
    requires Interleaved(c.body, d.body) && Straight(d.body) && c.interp == d.interp && c.rank == d.rank
    ensures Tame(d) && WellTimed(d) && forall x :: Full(d, x) == Full(c, x)
  {
    InterleavedIsTame(c, d);
    forall i, x | 0 <= i < |d.body| && Sets(d.body[i], x) ensures ReadsSingles(d.body, x, Meaning(d.body[i])) {
      var j := Counterpart(c.body, d.body, x, i);
      SinglesElsewhere(c.body, d.body, x, Meaning(d.body[i]));
    }
    SinglesAreWellTimed(d);
    forall x ensures Full(d, x) == Full(c, x) { MeaningIsOrderFree(c, d, x); }
  }

  // ---------------------------------------------------------------------------------
  // Any order, and a plain run
  // ---------------------------------------------------------------------------------

  /** The plain run has stored the names that the first `p` statements set, each with its value so far. */
  ghost predicate PlainSoFar<V>(c: Program<V>, p: nat, m: map<string, V>)
    requires p <= |c.body|
  {
    forall x :: (x in m <==> Stores(c.body, x, p) > 0) && (x in m ==> m[x] == UpTo(c, x, p))
  }

  lemma {:induction false} PlainIsValue<V>(c: Program<V>, p: nat, m: map<string, V>, x: string, e: Expr)
    requires p <= |c.body| && PlainSoFar(c, p, m) && Fits(c, x, p, e) && ReadyIn(c, p, x, e)
    requires PlainValue(c.interp, m, Some(x), e).Some?
    ensures PlainValue(c.interp, m, Some(x), e).value == ValueOf(c, x, p, e)
  {
    match e {
      case Literal(_) =>
      case Name(z) =>
        assert z in m ==> m[z] == UpTo(c, z, p);
        if z != x {
          assert Ready(c, p, z);
          SameStores(c, z, p, |c.body|);
        }
      case Binary(_, left, right) =>
        PlainIsValue(c, p, m, x, left);
        PlainIsValue(c, p, m, x, right);
      case Choose(test, yes, no) =>
        PlainIsValue(c, p, m, x, test);
        PlainIsValue(c, p, m, x, if c.interp.truthy(ValueOf(c, x, p, test)) then yes else no);
    }
  }

  /** In a well timed body a plain run, if there is one, gives the full values. */
  lemma {:induction false} PlainIsFull<V>(c: Program<V>, p: nat)
    requires Tame(c) && WellTimed(c) && p <= |c.body| && PlainRun(c.interp, map[], c.body[..p]).Some?
    ensures PlainSoFar(c, p, PlainRun(c.interp, map[], c.body[..p]).value)
  {
    if p > 0 {
      assert c.body[..p][..p - 1] == c.body[..p - 1];
      PlainIsFull(c, p - 1);
      PlainStep(c, p - 1, PlainRun(c.interp, map[], c.body[..p - 1]).value);
    }
  }

  lemma {:induction false} PlainStep<V>(c: Program<V>, p: nat, m: map<string, V>)
    requires Tame(c) && WellTimed(c) && p < |c.body| && PlainSoFar(c, p, m) && PlainStmt(c.interp, m, c.body[p]).Some?
    ensures PlainSoFar(c, p + 1, PlainStmt(c.interp, m, c.body[p]).value)
  {
    var s := c.body[p];
    assert TameAt(c, p);
    if Targets(s) != [] {
      var x := Targets(s)[0];
      assert Targets(s) == [x] && Sets(s, x);
      PlainStores(c, p, m, x);
    } else {
      forall x ensures !Sets(s, x) { assert |[x]| == 1; }
    }
  }

  lemma {:induction false} PlainStores<V>(c: Program<V>, p: nat, m: map<string, V>, x: string)
    requires Tame(c) && WellTimed(c) && p < |c.body| && PlainSoFar(c, p, m) && Sets(c.body[p], x)
    requires PlainStmt(c.interp, m, c.body[p]).Some?
    ensures PlainSoFar(c, p + 1, PlainStmt(c.interp, m, c.body[p]).value)
  {
    var s := c.body[p];
    assert TameAt(c, p);
    assert x == Targets(s)[0];
    assert Fits(c, x, p, Meaning(s)) && ReadyIn(c, p, x, Meaning(s));
    match s {
      case Assign(_, targets, value) =>
        PlainIsValue(c, p, m, x, value);
        var v := ValueOf(c, x, p, value);
        assert targets == [x] && m + Each([x], v) == m[x := v];
      case AugAssign(_, _, op, value) =>
        PlainIsValue(c, p, m, x, value);
        assert ValueOf(c, x, p, Name(x)) == UpTo(c, x, p);
      case Unification(_, _, value) =>
        PlainIsValue(c, p, m, x, value);
        assert ValueOf(c, x, p, Name(x)) == UpTo(c, x, p) && Fits(c, x, p, Name(x));
    }
    assert PlainStmt(c.interp, m, s).value == m[x := ValueOf(c, x, p, Meaning(s))];
    forall z | z != x ensures !Sets(s, z) { assert [z][0] == z; }
  }

  /**
   If names with several setters are read by their own setters only, the statements of different
   names may stand in any order: every order is evaluated to what a plain run gives in an order
   that stores each name before it is read.
   */
  lemma {:induction false} AnyOrderIsPlain<V>(c: Program<V>, d: Program<V>)
    requires Tame(c) && SharesSingles(c.body)
    requires Interleaved(c.body, d.body) && Straight(d.body) && c.interp == d.interp && c.rank == d.rank
    requires PlainRun(d.interp, map[], d.body).Some?
    ensures WellTimed(c) && var m := PlainRun(d.interp, map[], d.body).value;
                            forall x :: Stores(c.body, x, |c.body|) > 0 ==> x in m && m[x] == Full(c, x)
  {
    TameIsStraight(c);
    AnyOrderIsRight(c, c);
    AnyOrderIsRight(c, d);
    assert d.body[..|d.body|] == d.body;
    PlainIsFull(d, |d.body|);
    var m := PlainRun(d.interp, map[], d.body).value;
    forall x | Stores(c.body, x, |c.body|) > 0 ensures x in m && m[x] == Full(c, x) {
      OwnCount(c.body, x);
      OwnCount(d.body, x);
      assert x in m ==> m[x] == UpTo(d, x, |d.body|);
    }
  }

  // ---------------------------------------------------------------------------------
  // Bodies that cannot
  // ---------------------------------------------------------------------------------

  /** `e` is bound to read `x`. */
  predicate MustRead(e: Expr, x: string) {
    match e
    case Literal(_) => false
    case Name(z) => z == x
    case Binary(_, left, right) => MustRead(left, x) || MustRead(right, x)
    case Choose(test, _, _) => MustRead(test, x)
  }

  lemma {:induction false} MustReadSettled<V>(c: Program<V>, d: nat, y: string, e: Expr, x: string)
    requires d <= |c.body| && x != y && MustRead(e, x) && SettledIn(c, d, y, e)
    ensures Settled(c, d, x)
  {
    match e {
      case Binary(_, left, right) =>
        if MustRead(left, x) { MustReadSettled(c, d, y, left, x); } else { MustReadSettled(c, d, y, right, x); }
      case Choose(test, _, _) => MustReadSettled(c, d, y, test, x);
      case _ =>
    }
  }

  /** Without the setters of `y`. */
  function Others(ss: seq<Stmt>, y: string): seq<Stmt> {
    if ss == [] then []
    else if Sets(ss[|ss| - 1], y) then Others(ss[..|ss| - 1], y)
    else Others(ss[..|ss| - 1], y) + [ss[|ss| - 1]]
  }

  /** The statement at `i` first, then the setters of `y`, then the rest. */
  function Moved(body: seq<Stmt>, i: nat, y: string): seq<Stmt>
    requires i < |body|
  {
    [body[i]] + Own(body, y) + Others(body[..i], y) + Others(body[i + 1..], y)
  }

  lemma {:induction false} OwnLast(ss: seq<Stmt>, z: string, s: Stmt)
    ensures Own(ss + [s], z) == if Sets(s, z) then Own(ss, z) + [s] else Own(ss, z)
  {
    assert (ss + [s])[..|ss|] == ss;
  }

  lemma {:induction false} OwnConcat(a: seq<Stmt>, b: seq<Stmt>, z: string)
    ensures Own(a + b, z) == Own(a, z) + Own(b, z)
  {
    if b == [] {
      assert a + b == a;
    } else {
      var front, last := b[..|b| - 1], b[|b| - 1];
      assert (a + b)[..|a + b| - 1] == a + front;
      OwnConcat(a, front, z);
    }
  }

  lemma {:induction false} SetsOther(s: Stmt, y: string, z: string)
    requires Sets(s, y) && y != z
    ensures !Sets(s, z)
  {
    assert Targets(s)[0] == y;
  }

  lemma {:induction false} OwnOfOwn(ss: seq<Stmt>, y: string, z: string)
    ensures Own(Own(ss, y), z) == if z == y then Own(ss, y) else []
  {
    if ss != [] {
      var front, last := ss[..|ss| - 1], ss[|ss| - 1];
      OwnOfOwn(front, y, z);
      if Sets(last, y) {
        OwnLast(Own(front, y), z, last);
        if y != z { SetsOther(last, y, z); }
      }
    }
  }

  lemma {:induction false} OwnOfOthers(ss: seq<Stmt>, y: string, z: string)
    ensures Own(Others(ss, y), z) == if z == y then [] else Own(ss, z)
  {
    if ss != [] {
      var front, last := ss[..|ss| - 1], ss[|ss| - 1];
      OwnOfOthers(front, y, z);
      if Sets(last, y) {
        if y != z { SetsOther(last, y, z); }
      } else {
        OwnLast(Others(front, y), z, last);
      }
    }
  }

  lemma {:induction false} OwnOfOne(s: Stmt, z: string)
    ensures Own([s], z) == if Sets(s, z) then [s] else []
  {
    OwnLast([], z, s);
    assert [] + [s] == [s];
  }

  lemma {:induction false} OwnOfThree(a: seq<Stmt>, s: Stmt, b: seq<Stmt>, z: string)
    ensures Own(a + [s] + b, z) == Own(a, z) + (if Sets(s, z) then [s] else []) + Own(b, z)
  {
    OwnConcat(a + [s], b, z);
    OwnLast(a, z, s);
  }

  lemma {:induction false} OwnOfFour(a: seq<Stmt>, b: seq<Stmt>, c: seq<Stmt>, d: seq<Stmt>, z: string)
    ensures Own(a + b + c + d, z) == Own(a, z) + Own(b, z) + Own(c, z) + Own(d, z)
  {
    OwnConcat(a + b + c, d, z);
    OwnConcat(a + b, c, z);
    OwnConcat(a, b, z);
  }

  /** Moving the first setter of `x` and all of `y` to the front keeps every name's own order. */
  lemma {:induction false} MovedOwn(body: seq<Stmt>, i: nat, x: string, y: string, z: string)
    requires i < |body| && Sets(body[i], x) && Own(body[..i], x) == [] && x != y
    ensures Own(body, z) == Own(Moved(body, i, y), z)
  {
    var before, s, behind := body[..i], body[i], body[i + 1..];
    assert body == before + [s] + behind;
    OwnOfThree(before, s, behind, z);
    OwnOfFour([s], Own(body, y), Others(before, y), Others(behind, y), z);
    OwnOfOne(s, z);
    OwnOfOwn(body, y, z);
    OwnOfOthers(before, y, z);
    OwnOfOthers(behind, y, z);
    if z != x { SetsOther(s, x, z); }
    Pieces(Own(body, z), Own([s], z), Own(before, z), Own(behind, z),
           Own(Own(body, y), z), Own(Others(before, y), z), Own(Others(behind, y), z), z == x, z == y);
  }

  lemma {:induction false} Pieces(whole: seq<Stmt>, s: seq<Stmt>, a: seq<Stmt>, b: seq<Stmt>, own: seq<Stmt>, a': seq<Stmt>, b': seq<Stmt>, isX: bool, isY: bool)
    requires whole == a + s + b && (isX ==> a == []) && (!isX ==> s == []) && !(isX && isY)
    requires own == (if isY then whole else []) && a' == (if isY then [] else a) && b' == (if isY then [] else b)
    ensures whole == s + own + a' + b'
  {
  }

  lemma {:induction false} MovedIsInterleaved(body: seq<Stmt>, i: nat, x: string, y: string)
    requires i < |body| && Sets(body[i], x) && Stores(body, x, i) == 0 && x != y
    ensures Interleaved(body, Moved(body, i, y))
  {
    OwnIsStores(body, x, i);
    var moved := Moved(body, i, y);
    forall z ensures Own(body, z) == Own(moved, z) { MovedOwn(body, i, x, y, z); }
  }

  lemma {:induction false} OwnSets(ss: seq<Stmt>, y: string, k: nat)
    requires k < |Own(ss, y)|
    ensures Sets(Own(ss, y)[k], y)
  {
    if k < |Own(ss[..|ss| - 1], y)| { OwnSets(ss[..|ss| - 1], y, k); }
  }

  /** After the move, the setters of `y` stand between the first setter of `x` and the others. */
  lemma {:induction false} MovedStores(body: seq<Stmt>, i: nat, x: string, y: string, k: nat)
    requires i < |body| && Sets(body[i], x) && x != y && k <= |Own(body, y)|
    ensures 1 + k <= |Moved(body, i, y)| && Stores(Moved(body, i, y), x, 1 + k) == 1
  {
    var moved := Moved(body, i, y);
    if k == 0 {
      assert moved[0] == body[i] && Stores(moved, x, 0) == 0;
    } else {
      MovedStores(body, i, x, y, k - 1);
      assert moved[k] == Own(body, y)[k - 1];
      OwnSets(body, y, k - 1);
      SetsOther(moved[k], y, x);
    }
  }

  lemma {:induction false} OthersAreStraight(ss: seq<Stmt>, y: string)
    requires Straight(ss)
    ensures Straight(Others(ss, y))
  {
    if ss != [] { OthersAreStraight(ss[..|ss| - 1], y); }
  }

  lemma {:induction false} MovedIsStraight(body: seq<Stmt>, i: nat, y: string)
    requires Straight(body) && i < |body|
    ensures Straight(Moved(body, i, y))
  {
    OthersAreStraight(body[..i], y);
    OthersAreStraight(body[i + 1..], y);
    forall k | 0 <= k < |Own(body, y)| ensures |Targets(Own(body, y)[k])| == 1 { OwnSets(body, y, k); }
  }

  /** The first setter of `x`, and what it gives. */
  function First(body: seq<Stmt>, x: string): nat
    requires Stores(body, x, |body|) > 0
  {
    Position(body, x, |body|, 0)
  }

  /**
   If a setter of `y` is bound to read `x`, and the first setter of `x` does not already give
   the full value, then in some order the read is wrong: evaluation in that order cannot
   have every read right.
   */
  lemma {:induction false} SomeOrderIsWrong<V>(c: Program<V>, q: nat, x: string, y: string) returns (d: Program<V>, p: nat)
    requires Tame(c) && q < |c.body| && Sets(c.body[q], y) && x != y && MustRead(Meaning(c.body[q]), x)
    requires Stores(c.body, x, |c.body|) > 1 && UpTo(c, x, First(c.body, x) + 1) != Full(c, x)
    ensures Interleaved(c.body, d.body) && d.interp == c.interp && d.rank == c.rank && Tame(d)
    ensures p < |d.body| && Sets(d.body[p], y) && !SettledIn(d, p, y, Meaning(d.body[p])) && !WellTimed(d)
  {
    var i := First(c.body, x);
    d := c.(body := Moved(c.body, i, y));
    p := 1 + Stores(c.body, y, q);
    MovedIsInterleaved(c.body, i, x, y);
    TameIsStraight(c);
    MovedIsStraight(c.body, i, y);
    InterleavedIsTame(c, d);
    MovedPlace(c.body, i, x, y, q);
    WrongValue(c, d, i, x, p);
    if SettledIn(d, p, y, Meaning(d.body[p])) { MustReadSettled(d, p, y, Meaning(d.body[p]), x); }
    OwnCount(c.body, x);
    OwnCount(d.body, x);
    if WellTimed(d) { MustReadReady(d, p, y, Meaning(d.body[p]), x); }
  }

  lemma {:induction false} MovedPlace(body: seq<Stmt>, i: nat, x: string, y: string, q: nat)
    requires i < |body| && Sets(body[i], x) && x != y && q < |body| && Sets(body[q], y)
    ensures var moved, p := Moved(body, i, y), 1 + Stores(body, y, q);
            p < |moved| && moved[0] == body[i] && moved[p] == body[q] && Stores(moved, x, p) == 1
  {
    var k := Stores(body, y, q);
    OwnPlace(body, y, q);
    MovedStores(body, i, x, y, k);
    assert Moved(body, i, y)[1 + k] == Own(body, y)[k];
  }

  lemma {:induction false} OwnPlace(body: seq<Stmt>, y: string, q: nat)
    requires q < |body| && Sets(body[q], y)
    ensures Stores(body, y, q) < |Own(body, y)| && Own(body, y)[Stores(body, y, q)] == body[q]
  {
    PositionOf(body, y, |body|, q);
    OwnAt(body, y, |body|, Stores(body, y, q));
    assert body[..|body|] == body;
  }

  lemma {:induction false} WrongValue<V>(c: Program<V>, d: Program<V>, i: nat, x: string, p: nat)
    requires Interleaved(c.body, d.body) && d.interp == c.interp && d.rank == c.rank
    requires i < |c.body| && Sets(c.body[i], x) && Stores(c.body, x, i) == 0
    requires 1 <= p <= |d.body| && d.body[0] == c.body[i] && Stores(d.body, x, p) == 1
    ensures UpTo(d, x, p) == UpTo(c, x, i + 1) && Full(d, x) == Full(c, x)
  {
    assert Stores(d.body, x, 1) == 1 by { assert Stores(d.body, x, 0) == 0; }
    SameStores(d, x, 1, p);
    OwnIsStores(c.body, x, i);
    OwnStep(c.body, x, i + 1);
    OwnStep(d.body, x, 1);
    assert Own(d.body[..1], x) == [c.body[i]] == Own(c.body[..i + 1], x);
    SameOwnSameValue(c, d, x, i + 1, 1);
    MeaningIsOrderFree(c, d, x);
  }

  lemma {:induction false} MustReadReady<V>(c: Program<V>, d: nat, y: string, e: Expr, x: string)
    requires d <= |c.body| && x != y && MustRead(e, x) && ReadyIn(c, d, y, e)
    ensures Ready(c, d, x)
  {
    match e {
      case Binary(_, left, right) =>
        if MustRead(left, x) { MustReadReady(c, d, y, left, x); } else { MustReadReady(c, d, y, right, x); }
      case Choose(test, _, _) => MustReadReady(c, d, y, test, x);
      case _ =>
    }
  }

  // ---------------------------------------------------------------------------------
  // Values that tell orders apart
  // ---------------------------------------------------------------------------------

  /** Values that are just the expressions they came from. */
  datatype Term = Undefined | Constant(text: string) | Apply(op: string, left: Term, right: Term)

  function Free(): Interp<Term> {
    Interp(Undefined, text => Constant(text), (op, a, b) => Apply(op, a, b), v => true)
  }

  function Size(t: Term): nat {
    match t
    case Apply(_, left, right) => Size(left) + Size(right) + 1
    case _ => 0
  }

  /** Setters of `x` behind the first are augmented assignments. */
  ghost predicate Accumulates(body: seq<Stmt>, x: string) {
    forall i :: 0 <= i < |body| && Sets(body[i], x) && Stores(body, x, i) > 0 ==> body[i].AugAssign? || body[i].Unification?
  }

  lemma {:induction false} TermsGrow(c: Program<Term>, x: string, p: nat, q: nat)
    requires p <= q <= |c.body|
    requires forall i :: p <= i < q && Sets(c.body[i], x) ==> Size(UpTo(c, x, i)) < Size(UpTo(c, x, i + 1))
    ensures Size(UpTo(c, x, p)) <= Size(UpTo(c, x, q))
    ensures Stores(c.body, x, p) < Stores(c.body, x, q) ==> Size(UpTo(c, x, p)) < Size(UpTo(c, x, q))
  {
    if p < q { TermsGrow(c, x, p, q - 1); }
  }

  lemma {:induction false} AugmentedGrows(c: Program<Term>, x: string, q: nat)
    requires c.interp == Free() && q < |c.body| && Sets(c.body[q], x) && (c.body[q].AugAssign? || c.body[q].Unification?)
    ensures Size(UpTo(c, x, q)) < Size(UpTo(c, x, q + 1))
  {
    var e := Meaning(c.body[q]);
    assert Targets(c.body[q])[0] == x;
    assert e.Binary? && e.left == Name(x);
    assert ValueOf(c, x, q, e) == Apply(e.op, ValueOf(c, x, q, e.left), ValueOf(c, x, q, e.right));
    assert ValueOf(c, x, q, Name(x)) == UpTo(c, x, q);
  }

  lemma {:induction false} LaterGrows(c: Program<Term>, x: string, p: nat)
    requires c.interp == Free() && Accumulates(c.body, x) && p <= |c.body| && Stores(c.body, x, p) > 0
    ensures forall i :: p <= i < |c.body| && Sets(c.body[i], x) ==> Size(UpTo(c, x, i)) < Size(UpTo(c, x, i + 1))
  {
    forall i | p <= i < |c.body| && Sets(c.body[i], x) ensures Size(UpTo(c, x, i)) < Size(UpTo(c, x, i + 1)) {
      StoresGrow(c.body, x, p, i);
      AugmentedGrows(c, x, i);
    }
  }

  lemma {:induction false} FirstIsNotFull(c: Program<Term>, x: string)
    requires Stores(c.body, x, |c.body|) > 1
    requires forall i :: First(c.body, x) < i < |c.body| && Sets(c.body[i], x) ==> Size(UpTo(c, x, i)) < Size(UpTo(c, x, i + 1))
    ensures UpTo(c, x, First(c.body, x) + 1) != Full(c, x)
  {
    TermsGrow(c, x, First(c.body, x) + 1, |c.body|);
  }

  /** So a name that is added to, and that another name's setter is bound to read, cannot be put in any order. */
  lemma {:induction false} SharedSumIsWrong(c: Program<Term>, q: nat, x: string, y: string) returns (d: Program<Term>, p: nat)
    requires Tame(c) && c.interp == Free() && Accumulates(c.body, x) && Stores(c.body, x, |c.body|) > 1
    requires q < |c.body| && Sets(c.body[q], y) && x != y && MustRead(Meaning(c.body[q]), x)
    ensures Interleaved(c.body, d.body) && d.interp == c.interp && d.rank == c.rank && Tame(d)
    ensures p < |d.body| && Sets(d.body[p], y) && !SettledIn(d, p, y, Meaning(d.body[p])) && !WellTimed(d)
  {
    LaterGrows(c, x, First(c.body, x) + 1);
    FirstIsNotFull(c, x);
    d, p := SomeOrderIsWrong(c, q, x, y);
  }

  // ---------------------------------------------------------------------------------
  // Exactly which bodies can be put in any order
  // ---------------------------------------------------------------------------------

  /** Every statement reads, of other names, what these names are in the end. */
  ghost predicate AllSettled<V>(c: Program<V>) {
    forall i, x :: 0 <= i < |c.body| && Sets(c.body[i], x) ==> SettledIn(c, i, x, Meaning(c.body[i]))
  }

  lemma {:induction false} ReadyIsSettled<V>(c: Program<V>, d: nat, x: string, e: Expr)
    requires d <= |c.body| && ReadyIn(c, d, x, e)
    ensures SettledIn(c, d, x, e)
  {
    match e {
      case Literal(_) =>
      case Name(z) =>
        if z != x && Stores(c.body, z, d) > 0 {
          assert Ready(c, d, z);
          SameStores(c, z, d, |c.body|);
        }
      case Binary(_, left, right) =>
        ReadyIsSettled(c, d, x, left);
        ReadyIsSettled(c, d, x, right);
      case Choose(test, _, _) => ReadyIsSettled(c, d, x, test);
    }
  }

  lemma {:induction false} WellTimedIsSettled<V>(c: Program<V>)
    requires WellTimed(c)
    ensures AllSettled(c)
  {
    forall i, x | 0 <= i < |c.body| && Sets(c.body[i], x) ensures SettledIn(c, i, x, Meaning(c.body[i])) {
      ReadyIsSettled(c, i, x, Meaning(c.body[i]));
    }
  }

  predicate Unconditional(e: Expr) {
    match e
    case Binary(_, left, right) => Unconditional(left) && Unconditional(right)
    case Choose(_, _, _) => false
    case _ => true
  }

  /** No conditional expressions, and no name with several setters has its full value from the first one. */
  ghost predicate Telling<V>(c: Program<V>) {
    && (forall i :: 0 <= i < |c.body| ==> Unconditional(Meaning(c.body[i])))
    && (forall x :: Stores(c.body, x, |c.body|) > 1 ==> UpTo(c, x, First(c.body, x) + 1) != Full(c, x))
  }

  lemma {:induction false} SharedName(body: seq<Stmt>, x: string, e: Expr) returns (z: string)
    requires Unconditional(e) && !ReadsSingles(body, x, e)
    ensures z != x && MustRead(e, z) && Stores(body, z, |body|) > 1
  {
    match e {
      case Name(own) => z := own;
      case Binary(_, left, right) =>
        if ReadsSingles(body, x, left) { z := SharedName(body, x, right); } else { z := SharedName(body, x, left); }
    }
  }

  /**
   Every order of such a body is well timed, and every order reads right, if and only if names
   with several setters are read by their own setters only.
   */
  lemma {:induction false} AnyOrderIff<V>(c: Program<V>)
    requires Tame(c) && Telling(c)
    ensures SharesSingles(c.body)
            <==> forall b :: Interleaved(c.body, b) && Straight(b) ==> AllSettled(c.(body := b))
    ensures SharesSingles(c.body)
            <==> forall b :: Interleaved(c.body, b) && Straight(b) ==> WellTimed(c.(body := b))
  {
    if SharesSingles(c.body) {
      forall b | Interleaved(c.body, b) && Straight(b) ensures AllSettled(c.(body := b)) && WellTimed(c.(body := b)) {
        AnyOrderIsRight(c, c.(body := b));
        WellTimedIsSettled(c.(body := b));
      }
    } else {
      var i, x :| 0 <= i < |c.body| && Sets(c.body[i], x) && !ReadsSingles(c.body, x, Meaning(c.body[i]));
      var z := SharedName(c.body, x, Meaning(c.body[i]));
      var d, p := SomeOrderIsWrong(c, i, z, x);
      TameIsStraight(d);
      assert d == c.(body := d.body) && !AllSettled(d) && !WellTimed(d);
    }
  }

  /** In particular if names with several setters are added to, over values that are the expressions themselves. */
  lemma {:induction false} SumsAreTelling(c: Program<Term>)
    requires c.interp == Free() && forall i :: 0 <= i < |c.body| ==> Unconditional(Meaning(c.body[i]))
    requires forall x :: Stores(c.body, x, |c.body|) > 1 ==> Accumulates(c.body, x)
    ensures Telling(c)
  {
    forall x | Stores(c.body, x, |c.body|) > 1 ensures UpTo(c, x, First(c.body, x) + 1) != Full(c, x) {
      LaterGrows(c, x, First(c.body, x) + 1);
      FirstIsNotFull(c, x);
    }
  }
}

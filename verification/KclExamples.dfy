/**
 Small bodies, run through the evaluator (crates/evaluator/src/lazy.rs, node.rs and scope.rs):
 a read between two setters, a lookup that ends at an `if` not taken, and an `if` with an `else`.
 */
module KclExamples {
  import opened Wrappers
  import opened KclSetters
  import opened KclMeaning
  import opened KclLevels
  import opened KclReads
  import opened KclCourse
  import opened KclReplay
  import opened KclEvaluator
  import opened KclPlain
  import opened KclOrder

  /** `_a = 1`, `b = _a`, `_a += 1`. */
  function Between(): Program<Term> {
    Program([Assign(0, ["_a"], Literal("1")), Assign(1, ["b"], Name("_a")), AugAssign(2, "_a", "+", Literal("1"))],
            Free(), x => if x == "_a" then 0 else 1)
  }

  lemma {:induction false} BetweenIsTame()
    ensures Tame(Between())
  {
    var c := Between();
    assert Stores(c.body, "_a", 0) == 0;
    assert Stores(c.body, "_a", 1) == 1;
    assert Stores(c.body, "_a", 2) == 1 by { assert Targets(c.body[1])[0] == "b"; }
    forall i | 0 <= i < |c.body| ensures TameAt(c, i) {
      forall x | Sets(c.body[i], x) ensures Fits(c, x, i, Meaning(c.body[i])) {
        assert x == Targets(c.body[i])[0];
      }
    }
  }

  /** In the meaning, `b` is to read what `_a` is in the end. */
  lemma {:induction false} ReadBetweenSetters()
    ensures var c := Between();
            && Stores(c.body, "_a", 1) == 1 && Stores(c.body, "_a", 3) == 2
            && UpTo(c, "_a", 1) == Constant("1") && Full(c, "_a") == Apply("+", Constant("1"), Constant("1"))
            && Full(c, "b") == Full(c, "_a") && !SettledIn(c, 1, "b", Meaning(c.body[1]))
  {
    var c := Between();
    assert Sets(c.body[0], "_a") && Sets(c.body[2], "_a");
    assert Targets(c.body[1])[0] == "b" && "b"[0] != "_a"[0];
    assert Stores(c.body, "_a", 0) == 0;
    assert Stores(c.body, "_a", 1) == 1;
    assert Stores(c.body, "_a", 2) == 1;
    assert UpTo(c, "_a", 1) == ValueOf(c, "_a", 0, Literal("1"));
    assert UpTo(c, "_a", 2) == UpTo(c, "_a", 1);
    assert UpTo(c, "_a", 3) == ValueOf(c, "_a", 2, Binary("+", Name("_a"), Literal("1")));
    assert ValueOf(c, "_a", 2, Name("_a")) == UpTo(c, "_a", 2);
    assert ValueOf(c, "_a", 2, Literal("1")) == Constant("1");
    assert UpTo(c, "b", 3) == UpTo(c, "b", 2) == ValueOf(c, "b", 1, Name("_a"));
  }

  /** One assignment of a value at rest, in a store where the target is. */
  lemma {:induction false} OneAssign<V>(env: Env<V>, ts: seq<Trail<V>>, pre: Store<V>, i: nat, x: string)
    requires FollowsAll(env, "", None, false, env.body, ts) && StartsAll(ts, pre) && i < |env.body|
    requires !env.body[i].If? && Targets(env.body[i]) == [x]
    requires var s := PostAll(ts[..i], pre); x in s.variables && AtRest(env, s, x, Meaning(env.body[i]))
    ensures var s, after := PostAll(ts[..i], pre), PostAll(ts[..i + 1], pre);
            var v := HandValue(env, s, x, Meaning(env.body[i]));
            && after.variables == s.variables[x := v] && x in after.cache && after.cache[x] == v
            && (forall y :: LevelOf(after.levels, y) == LevelOf(s.levels, y))
  {
    WalkedAt(env, "", env.body, ts, pre, i);
    var targets := Targets(env.body[i]);
    assert targets[..0] == [];
    assert forall t :: t in targets ==> t == x;
    assert SetTo(ts[i].mid, targets[..|targets| - 1], HandValue(env, ts[i].pre, x, Meaning(env.body[i]))) == ts[i].mid;
  }

  ghost predicate BetweenWalk(env: Env<Term>, s: Store<Term>, ts: seq<Trail<Term>>) {
    && env.body == Between().body && env.interp == Free() && s.variables.Keys == {"_a", "b"} && s.levels == map[]
    && FollowsAll(env, "", None, false, env.body, ts) && StartsAll(ts, s)
  }

  /** Both names are in the scope, no level is raised, and `_a` is 1 there and in the cache. */
  ghost predicate FirstDone(s: Store<Term>) {
    && s.variables.Keys == {"_a", "b"} && s.variables["_a"] == Constant("1")
    && "_a" in s.cache && s.cache["_a"] == Constant("1") && LevelOf(s.levels, "_a") == 0
  }

  lemma {:induction false} BetweenFirst(env: Env<Term>, s0: Store<Term>, ts: seq<Trail<Term>>)
    requires BetweenWalk(env, s0, ts)
    ensures FirstDone(PostAll(ts[..1], s0))
  {
    assert ts[..0] == [];
    OneAssign(env, ts, s0, 0, "_a");
  }

  lemma {:induction false} BetweenSecond(env: Env<Term>, s0: Store<Term>, ts: seq<Trail<Term>>)
    requires BetweenWalk(env, s0, ts)
    ensures var s := PostAll(ts[..2], s0);
            && s.variables == map["_a" := Constant("1"), "b" := Constant("1")] && LevelOf(s.levels, "_a") == 0
  {
    BetweenFirst(env, s0, ts);
    assert "b"[0] != "_a"[0];
    OneAssign(env, ts, s0, 1, "b");
  }

  lemma {:induction false} BetweenRuns(env: Env<Term>, s0: Store<Term>, ts: seq<Trail<Term>>)
    requires BetweenWalk(env, s0, ts)
    ensures PostAll(ts, s0).variables == map["_a" := Apply("+", Constant("1"), Constant("1")), "b" := Constant("1")]
  {
    BetweenSecond(env, s0, ts);
    var s := PostAll(ts[..2], s0);
    assert "b"[0] != "_a"[0];
    assert Meaning(env.body[2]) == Binary("+", Name("_a"), Literal("1"));
    assert OwnTarget(env, s, "_a", "_a");
    OneAssign(env, ts, s0, 2, "_a");
    assert ts[..3] == ts;
  }

  lemma {:induction false} BetweenBegins(env: Env<Term>)
    requires env.body == Between().body
    ensures Begun(env).variables.Keys == {"_a", "b"}
  {
    var body := env.body;
    assert body[..2] == [body[0], body[1]] && body[..2][..1] == [body[0]] && [body[0]][..0] == [];
    assert DefinedBy(body[0]) == {"_a"} && DefinedBy(body[1]) == {"b"} && DefinedBy(body[2]) == {};
    assert Defined([body[0]]) == Defined([]) + {"_a"};
    assert Defined(body[..2]) == Defined([body[0]]) + {"b"};
    assert Defined(body) == Defined(body[..2]) + {};
  }

  /** The evaluator stores 1 in `b`, which is to be what `_a` is in the end. */
  method RunBetween() returns (globals: map<string, Term>, ghost right: bool)
    ensures globals == map["_a" := Apply("+", Constant("1"), Constant("1")), "b" := Constant("1")]
    ensures globals["_a"] == Full(Between(), "_a") && globals["b"] != Full(Between(), "b")
    ensures !right
  {
    BetweenIsTame();
    ReadBetweenSetters();
    var levels;
    ghost var env, ts;
    globals, levels, right, env, ts := Evaluate(Between().body, Free(), Between().rank);
    BetweenBegins(env);
    BetweenRuns(env, Begun(env), ts);
    assert Sets(Between().body[1], "b");
  }

  // ---------------------------------------------------------------------------------
  // A branch not taken
  // ---------------------------------------------------------------------------------

  /** The expressions themselves, of which `False` does not hold. */
  function Cautious(): Interp<Term> {
    Interp(Undefined, text => Constant(text), (op, a, b) => Apply(op, a, b), v => v != Constant("False"))
  }

  /** `x = y`, `y = 1`, and a third statement. */
  function Over(last: Stmt): seq<Stmt> {
    [Assign(0, ["x"], Name("y")), Assign(1, ["y"], Literal("1")), last]
  }

  /** `if False: y = 2`. */
  function Hidden(): Stmt { If(2, Literal("False"), [Assign(3, ["y"], Literal("2"))], []) }

  /** `if True:`, and in it `if False: y = 2`. */
  function Nested(): Stmt { If(2, Literal("True"), [NestedInner()], []) }

  function NestedInner(): Stmt { If(3, Literal("False"), [Assign(4, ["y"], Literal("2"))], []) }

  /** The setter of `y` in that statement, which stops at `id`. */
  function Hides(id: nat): Setter { Setter(2, 2, Some(id), OnlyIf) }

  lemma {:induction false} SettersMore(body: seq<Stmt>, s: Stmt, x: string)
    ensures Setters(body + [s], x) == Setters(body, x) + StmtSetters(|body|, s, x)
  {
    assert (body + [s])[..|body|] == body;
  }

  lemma {:induction false} ThreeSetters(a: Stmt, b: Stmt, c: Stmt, x: string)
    ensures Setters([a, b, c], x) == StmtSetters(0, a, x) + StmtSetters(1, b, x) + StmtSetters(2, c, x)
  {
    var one, two := [a], [a] + [b];
    assert [] + [a] == one && two + [c] == [a, b, c];
    SettersMore([], a, x);
    SettersMore(one, b, x);
    SettersMore(two, c, x);
  }

  predicate OneTarget(s: Stmt) { !s.If? && |Targets(s)| == 1 }

  /** The setters of `x`, if of the first two statements the second sets it. */
  lemma {:induction false} OverSetters(a: Stmt, b: Stmt, c: Stmt, x: string, e: Setter)
    requires OneTarget(a) && OneTarget(b) && !Sets(a, x) && Sets(b, x) && StmtSetters(2, c, x) == [e]
    ensures Setters([a, b, c], x) == [Setter(1, b.id, None, Normal), e]
  {
    OneSetter(0, a, x);
    OneSetter(1, b, x);
    ThreeSetters(a, b, c, x);
  }

  lemma {:induction false} OneLeaf(s: Stmt, id: nat)
    requires s == Assign(id, ["y"], Literal("2"))
    ensures Leaves([s]) == [Leaf("y", id)] && Defined([s]) == {"y"}
  {
    assert [s][..0] == [] && ["y"][..0] == [] && Named([], id) == [];
    assert Leaves([]) == [] && Defined([]) == {} && DefinedBy(s) == {"y"};
  }

  lemma {:induction false} MarkedOne(id: nat)
    ensures Marked([Leaf("y", id)], "y", 2, 2, true, OnlyIf) == [Hides(id)]
  {
    assert [Leaf("y", id)][..0] == [];
    assert Marked([], "y", 2, 2, true, OnlyIf) == [];
  }

  lemma {:induction false} HiddenFits()
    ensures StmtSetters(2, Hidden(), "y") == [Hides(3)] && DefinedBy(Hidden()) == {"y"}
  {
    OneLeaf(Hidden().body[0], 3);
    MarkedOne(3);
  }

  lemma {:induction false} NestedFits()
    ensures StmtSetters(2, Nested(), "y") == [Hides(4)] && DefinedBy(Nested()) == {"y"}
  {
    var inner := NestedInner();
    OneLeaf(inner.body[0], 4);
    assert Leaves([]) == [] && Defined([]) == {};
    assert LeavesOf(inner) == [Leaf("y", 4)] && DefinedBy(inner) == {"y"};
    assert [inner][..0] == [];
    assert Leaves([inner]) == Leaves([]) + LeavesOf(inner) && Defined([inner]) == Defined([]) + DefinedBy(inner);
    MarkedOne(4);
  }

  lemma {:induction false} OverBegins(env: Env<Term>, last: Stmt)
    requires env.body == Over(last) && env.interp == Cautious() && DefinedBy(last) == {"y"}
    ensures Begun(env).variables == map["x" := Undefined, "y" := Undefined]
  {
    var body := env.body;
    assert body[..2] == [body[0], body[1]] && body[..2][..1] == [body[0]] && [body[0]][..0] == [];
    assert DefinedBy(body[0]) == {"x"} && DefinedBy(body[1]) == {"y"};
    assert Defined([body[0]]) == Defined([]) + {"x"};
    assert Defined(body[..2]) == Defined([body[0]]) + {"y"};
    assert Defined(body) == Defined(body[..2]) + {"y"};
  }

  /** From any store, `last` passes no assignment. */
  ghost predicate PassesNothing(env: Env<Term>, top: Option<Meta>, last: Stmt) {
    forall s, target :: CourseOf(env, target, top, last, Begin(s)).ok && CourseOf(env, target, top, last, Begin(s)).passed == []
  }

  lemma {:induction false} HiddenPassesNothing(env: Env<Term>, top: Option<Meta>)
    requires env.interp == Cautious() && (top == None || top == Some(Order(Hides(3))))
    ensures PassesNothing(env, top, Hidden())
  {
    forall s, target
      ensures CourseOf(env, target, top, Hidden(), Begin(s)).ok && CourseOf(env, target, top, Hidden(), Begin(s)).passed == []
    {
      assert HandValue(env, s, target, Hidden().test) == Constant("False");
    }
  }

  lemma {:induction false} NestedPassesNothing(env: Env<Term>, top: Option<Meta>)
    requires env.interp == Cautious() && (top == None || top == Some(Order(Hides(4))))
    ensures PassesNothing(env, top, Nested())
  {
    var inner := NestedInner();
    forall s, target
      ensures CourseOf(env, target, top, Nested(), Begin(s)).ok && CourseOf(env, target, top, Nested(), Begin(s)).passed == []
    {
      assert HandValue(env, s, target, Nested().test) == Constant("True") && HandValue(env, s, target, inner.test) == Constant("False");
      assert [inner][..0] == [];
      var c := Begin(s);
      assert CourseOfAll(env, target, top, [], c) == c;
      assert CourseOf(env, target, top, inner, c) == c.(broken := c.broken || StopsAt(top, 3));
      assert CourseOfAll(env, target, top, [inner], c) == CourseOf(env, target, top, inner, c);
      assert Branch(top, Nested(), true, 2) == [inner];
    }
  }

  /** What the evaluator starts from, and how it walked the body. */
  ghost predicate OverWalk(env: Env<Term>, last: Stmt, id: nat, s: Store<Term>, ts: seq<Trail<Term>>) {
    && env.body == Over(last) && env.interp == Cautious() && last.If?
    && Entries(env.setters, "y") == [Setter(1, 1, None, Normal), Hides(id)]
    && s.variables == map["x" := Undefined, "y" := Undefined] && s.cache == map[] && s.levels == map[]
    && FollowsAll(env, "", None, false, env.body, ts) && StartsAll(ts, s)
  }

  /** The next setter of `y` is the one in the third statement. */
  lemma {:induction false} OverLookup(env: Env<Term>, last: Stmt, id: nat, s: Store<Term>, ts: seq<Trail<Term>>)
    requires OverWalk(env, last, id, s, ts) && PassesNothing(env, Some(Order(Hides(id))), last)
    ensures Untaken(env, s, "x", "y")
  {
    assert "x"[0] != "y"[0];
    assert NextSetter(env, s, "y") == Hides(id);
    assert LookupCourse(env, s, "x", "y") == CourseOf(env, "x", Some(Order(Hides(id))), last, Begin(Enter(s, "y")));
  }

  lemma {:induction false} OverFirst(env: Env<Term>, last: Stmt, id: nat, s: Store<Term>, ts: seq<Trail<Term>>)
    requires OverWalk(env, last, id, s, ts) && Untaken(env, s, "x", "y")
    ensures PostAll(ts[..1], s).variables == map["x" := Undefined, "y" := Undefined]
  {
    assert ts[..0] == [];
    OneAssign(env, ts, s, 0, "x");
  }

  lemma {:induction false} OverSecond(env: Env<Term>, last: Stmt, id: nat, s: Store<Term>, ts: seq<Trail<Term>>)
    requires OverWalk(env, last, id, s, ts) && Untaken(env, s, "x", "y")
    ensures PostAll(ts[..2], s).variables == map["x" := Undefined, "y" := Constant("1")]
  {
    OverFirst(env, last, id, s, ts);
    OneAssign(env, ts, s, 1, "y");
  }

  lemma {:induction false} OverThird(env: Env<Term>, last: Stmt, id: nat, s: Store<Term>, ts: seq<Trail<Term>>)
    requires OverWalk(env, last, id, s, ts) && PassesNothing(env, None, last)
    ensures PostAll(ts, s).variables == PostAll(ts[..2], s).variables
  {
    var between := PostAll(ts[..2], s);
    WalkedAt(env, "", env.body, ts, s, 2);
    assert ts[..3] == ts;
    assert CourseOf(env, "", None, last, Begin(between)).ok && CourseOf(env, "", None, last, Begin(between)).passed == [];
    WalkIsCourse(env, "", None, last, ts[2], Begin(between));
    CourseIsLater(env, "", None, last, Begin(between));
  }

  lemma {:induction false} OverRuns(env: Env<Term>, last: Stmt, id: nat, s: Store<Term>, ts: seq<Trail<Term>>)
    requires OverWalk(env, last, id, s, ts)
    requires PassesNothing(env, Some(Order(Hides(id))), last) && PassesNothing(env, None, last)
    ensures PostAll(ts, s).variables == map["x" := Undefined, "y" := Constant("1")]
  {
    OverLookup(env, last, id, s, ts);
    OverSecond(env, last, id, s, ts);
    OverThird(env, last, id, s, ts);
  }

  lemma {:induction false} OverStarts(env: Env<Term>, last: Stmt, id: nat, ts: seq<Trail<Term>>, globals: map<string, Term>)
    requires env.body == Over(last) && env.interp == Cautious() && Evaluates(env, ts, globals) && last.If?
    requires StmtSetters(2, last, "y") == [Hides(id)] && DefinedBy(last) == {"y"}
    ensures OverWalk(env, last, id, Begun(env), ts) && globals == PostAll(ts, Begun(env)).variables
  {
    OverBegins(env, last);
    var a, b := env.body[0], env.body[1];
    assert Targets(a)[0] == "x" && "x"[0] != "y"[0] && Targets(b)[0] == "y" && env.body == [a, b, last];
    OverSetters(a, b, last, "y", Hides(id));
    assert Entries(env.setters, "y") == Setters(env.body, "y");
  }

  /** The lookup of `y` for `x` ends at the `if` that is not taken: `x` stays undefined, although `y` is 1. */
  method RunHidden() returns (globals: map<string, Term>)
    ensures globals == map["x" := Undefined, "y" := Constant("1")]
  {
    var levels;
    ghost var right, env, ts;
    globals, levels, right, env, ts := Evaluate(Over(Hidden()), Cautious(), x => 0);
    HiddenFits();
    OverStarts(env, Hidden(), 3, ts, globals);
    HiddenPassesNothing(env, None);
    HiddenPassesNothing(env, Some(Order(Hides(3))));
    OverRuns(env, Hidden(), 3, Begun(env), ts);
  }

  /** The same when the `if` is taken and the one inside it is not. */
  method RunNested() returns (globals: map<string, Term>)
    ensures globals == map["x" := Undefined, "y" := Constant("1")]
  {
    var levels;
    ghost var right, env, ts;
    globals, levels, right, env, ts := Evaluate(Over(Nested()), Cautious(), x => 0);
    NestedFits();
    OverStarts(env, Nested(), 4, ts, globals);
    NestedPassesNothing(env, None);
    NestedPassesNothing(env, Some(Order(Hides(4))));
    OverRuns(env, Nested(), 4, Begun(env), ts);
  }

  // ---------------------------------------------------------------------------------
  // An else branch
  // ---------------------------------------------------------------------------------

  function Choice(test: string, yes: Stmt, no: Stmt): Stmt { If(0, Literal(test), [yes], [no]) }

  lemma {:induction false} OneStatement(m: map<string, Term>, s: Stmt)
    ensures PlainRun(Cautious(), m, [s]) == PlainStmt(Cautious(), m, s) && Defined([s]) == DefinedBy(s)
  {
    assert [s][..0] == [];
    assert PlainRun(Cautious(), m, []) == Some(m) && Defined([]) == {};
  }

  lemma {:induction false} LiteralStored(id: nat, x: string, text: string)
    ensures PlainStmt(Cautious(), map[], Assign(id, [x], Literal(text))) == Some(map[x := Constant(text)])
    ensures DefinedBy(Assign(id, [x], Literal(text))) == {x}
  {
    assert map[] + Each([x], Constant(text)) == map[x := Constant(text)];
  }

  /** `if False: a = 1` with `else: a = 2`. */
  method RunElse() returns (globals: map<string, Term>)
    ensures globals == map["a" := Constant("2")]
  {
    var yes, no := Assign(1, ["a"], Literal("1")), Assign(2, ["a"], Literal("2"));
    var s := Choice("False", yes, no);
    var levels;
    ghost var right, env, ts;
    globals, levels, right, env, ts := Evaluate([s], Cautious(), x => 0);
    OneStatement(map[], s);
    OneStatement(map[], yes);
    OneStatement(map[], no);
    LiteralStored(1, "a", "1");
    LiteralStored(2, "a", "2");
    assert !Cautious().truthy(Constant("False"));
    assert PlainRun(Cautious(), map[], [s]) == Some(map["a" := Constant("2")]);
  }
}

/**
 Running a module body without any laziness: statements in order, and names read from what has
 been stored so far (crates/evaluator/src/node.rs, the walks of statements and expressions).
 A body that can be run in this way is evaluated to the same globals.
 */
module KclPlain {
  import opened Wrappers
  import opened KclSetters
  import opened KclMeaning
  import opened KclReads
  import opened KclCourse
  import opened KclReplay
  import opened KclEvaluator

  // ---------------------------------------------------------------------------------
  // The plain run
  // ---------------------------------------------------------------------------------

  /**
   The value of `e` with `m` stored, if every name it reads is stored; only the name that is
   being assigned may be read before, and is undefined then.
   */
  function PlainValue<V>(interp: Interp<V>, m: map<string, V>, own: Option<string>, e: Expr): Option<V> {
    match e
    case Literal(text) => Some(interp.literal(text))
    case Name(z) => if z in m then Some(m[z]) else if own == Some(z) then Some(interp.undefined) else None
    case Binary(op, left, right) =>
      var a, b := PlainValue(interp, m, own, left), PlainValue(interp, m, own, right);
      if a.None? || b.None? then None else Some(interp.binary(op, a.value, b.value))
    case Choose(test, yes, no) =>
      var t := PlainValue(interp, m, own, test);
      if t.None? then None
      else if interp.truthy(t.value) then PlainValue(interp, m, own, yes)
      else PlainValue(interp, m, own, no)
  }

  function Each<V>(targets: seq<string>, v: V): map<string, V> { map t | t in targets :: v }

  /** What is stored after `s`, if everything it reads is stored before. */
  function PlainStmt<V>(interp: Interp<V>, m: map<string, V>, s: Stmt): Option<map<string, V>>
    decreases s, 1
  {
    match s
    case Assign(_, targets, value) =>
      if targets == [] then None
      else
        var v := PlainValue(interp, m, Some(targets[|targets| - 1]), value);
        if v.None? then None else Some(m + Each(targets, v.value))
    case AugAssign(_, target, op, value) =>
      var v := PlainValue(interp, m, Some(target), value);
      if v.None? || target !in m then None else Some(m[target := interp.binary(op, m[target], v.value)])
    case Unification(_, target, value) =>
      var v := PlainValue(interp, m, Some(target), value);
      var before := if target in m then m[target] else interp.undefined;
      if v.None? then None else Some(m[target := interp.binary("|", before, v.value)])
    case If(_, test, body, orelse) =>
      var t := PlainValue(interp, m, None, test);
      if t.None? then None
      else if interp.truthy(t.value) then PlainRun(interp, m, body)
      else PlainRun(interp, m, orelse)
    case Other(_) => Some(m)
  }

  function PlainRun<V>(interp: Interp<V>, m: map<string, V>, ss: seq<Stmt>): Option<map<string, V>>
    decreases ss, 0
  {
    if ss == [] then Some(m)
    else
      var front := PlainRun(interp, m, ss[..|ss| - 1]);
      if front.None? then None else PlainStmt(interp, front.value, ss[|ss| - 1])
  }

  /** An assignment or a unification, itself or anywhere inside, writes `x`. */
  predicate Declares(s: Stmt, x: string)
    decreases s, 1
  {
    match s
    case Assign(_, targets, _) => x in targets
    case Unification(_, target, _) => x == target
    case If(_, _, body, orelse) => DeclaresAny(body, x) || DeclaresAny(orelse, x)
    case _ => false
  }

  predicate DeclaresAny(ss: seq<Stmt>, x: string)
    decreases ss, 0
  {
    exists i :: 0 <= i < |ss| && Declares(ss[i], x)
  }

  /** These are the names that are there, undefined, before evaluation starts. */
  lemma {:induction false} DefinedIffDeclared(ss: seq<Stmt>, x: string)
    ensures x in Defined(ss) <==> DeclaresAny(ss, x)
    decreases ss, 0
  {
    if ss != [] {
      var n := |ss| - 1;
      var front := ss[..n];
      DefinedIffDeclared(front, x);
      if ss[n].If? {
        DefinedIffDeclared(ss[n].body, x);
        DefinedIffDeclared(ss[n].orelse, x);
      }
      if DeclaresAny(front, x) {
        var i :| 0 <= i < |front| && Declares(front[i], x);
        assert ss[i] == front[i];
      }
      if DeclaresAny(ss, x) && !Declares(ss[n], x) {
        var i :| 0 <= i < |ss| && Declares(ss[i], x);
        assert front[i] == ss[i];
      }
    }
  }

  // ---------------------------------------------------------------------------------
  // The evaluator does the same
  // ---------------------------------------------------------------------------------

  /** The store in which the evaluation of a body begins. */
  function Begun<V>(env: Env<V>): Store<V> {
    Store(map x | x in Defined(env.body) :: env.interp.undefined, map[], map[])
  }

  /** `ts` is how the statements of the body were walked, one after the other, and `globals` is what came out. */
  ghost predicate Evaluates<V>(env: Env<V>, ts: seq<Trail<V>>, globals: map<string, V>) {
    && (forall x :: Entries(env.setters, x) == Setters(env.body, x))
    && FollowsAll(env, "", None, false, env.body, ts) && StartsAll(ts, Begun(env))
    && globals == PostAll(ts, Begun(env)).variables
  }

  /** The store has in its variables and in its cache what the plain run has stored. */
  ghost predicate InStep<V>(env: Env<V>, m: map<string, V>, s: Store<V>) {
    && s.variables == Begun(env).variables + m && m.Keys <= Begun(env).variables.Keys
    && (forall z :: z in m ==> z in s.cache && s.cache[z] == m[z])
    && s.levels == map[]
  }

  lemma {:induction false} PlainIsHand<V>(env: Env<V>, m: map<string, V>, s: Store<V>, own: Option<string>, target: string, e: Expr)
    requires InStep(env, m, s) && PlainValue(env.interp, m, own, e).Some? && (own == None || own == Some(target))
    ensures AtHand(env, s, target, e) && HandValue(env, s, target, e) == PlainValue(env.interp, m, own, e).value
  {
    match e {
      case Literal(_) =>
      case Name(z) =>
      case Binary(_, left, right) =>
        PlainIsHand(env, m, s, own, target, left);
        PlainIsHand(env, m, s, own, target, right);
      case Choose(test, yes, no) =>
        PlainIsHand(env, m, s, own, target, test);
        PlainIsHand(env, m, s, own, target, if env.interp.truthy(HandValue(env, s, target, test)) then yes else no);
    }
  }

  lemma {:induction false} OneMore<V>(base: map<string, V>, targets: seq<string>, v: V)
    requires targets != []
    ensures (base + Each(targets[..|targets| - 1], v))[targets[|targets| - 1] := v] == base + Each(targets, v)
  {
    var front, last := targets[..|targets| - 1], targets[|targets| - 1];
    assert targets == front + [last];
  }

  lemma {:induction false} SetToIs<V>(s: Store<V>, targets: seq<string>, v: V)
    ensures SetTo(s, targets, v) == Store(s.variables + Each(targets, v), s.cache + Each(targets, v), s.levels)
  {
    if targets != [] {
      SetToIs(s, targets[..|targets| - 1], v);
      OneMore(s.variables, targets, v);
      OneMore(s.cache, targets, v);
    }
  }

  lemma {:induction false} MoreOver<V>(a: map<string, V>, b: map<string, V>, c: map<string, V>)
    ensures (a + b) + c == a + (b + c)
  {
  }

  /** Values stored, by the plain run and in the store. */
  lemma {:induction false} StoredAlike<V>(env: Env<V>, m: map<string, V>, s: Store<V>, targets: seq<string>, v: V)
    requires InStep(env, m, s) && forall t :: t in targets ==> t in Begun(env).variables
    ensures InStep(env, m + Each(targets, v), SetTo(s, targets, v))
  {
    SetToIs(s, targets, v);
    MoreOver(Begun(env).variables, m, Each(targets, v));
  }

  /** The course goes on, with `m` stored. */
  ghost predicate OnCourse<V>(env: Env<V>, m: map<string, V>, c: Course<V>) {
    InStep(env, m, c.store) && !c.broken && c.ok
  }

  lemma {:induction false} PlainSimple<V>(env: Env<V>, m: map<string, V>, s: Stmt, c: Course<V>)
    requires !s.If? && OnCourse(env, m, c) && DefinedBy(s) <= Defined(env.body) && PlainStmt(env.interp, m, s).Some?
    ensures OnCourse(env, PlainStmt(env.interp, m, s).value, CourseOf(env, "", None, s, c))
  {
    match s {
      case Assign(_, targets, value) =>
        var x := targets[|targets| - 1];
        PlainIsHand(env, m, c.store, Some(x), x, value);
        StoredAlike(env, m, c.store, targets, HandValue(env, c.store, x, value));
      case AugAssign(_, x, op, value) =>
        PlainIsHand(env, m, c.store, Some(x), x, value);
        PlainIsHand(env, m, c.store, Some(x), x, Name(x));
        OneStored(env, m, c.store, x, HandValue(env, c.store, x, Meaning(s)));
      case Unification(_, x, value) =>
        PlainIsHand(env, m, c.store, Some(x), x, value);
        PlainIsHand(env, m, c.store, Some(x), x, Name(x));
        OneStored(env, m, c.store, x, HandValue(env, c.store, x, Meaning(s)));
      case Other(_) =>
    }
  }

  lemma {:induction false} OneStored<V>(env: Env<V>, m: map<string, V>, s: Store<V>, x: string, v: V)
    requires InStep(env, m, s) && x in Begun(env).variables
    ensures InStep(env, m[x := v], SetTo(s, [x], v))
  {
    StoredAlike(env, m, s, [x], v);
    assert m[x := v] == m + Each([x], v);
  }

  lemma {:induction false} PlainIsCourse<V>(env: Env<V>, m: map<string, V>, s: Stmt, c: Course<V>)
    requires OnCourse(env, m, c) && DefinedBy(s) <= Defined(env.body) && PlainStmt(env.interp, m, s).Some?
    ensures OnCourse(env, PlainStmt(env.interp, m, s).value, CourseOf(env, "", None, s, c))
    decreases s, 1
  {
    if s.If? {
      PlainIsHand(env, m, c.store, None, "", s.test);
      var truth := env.interp.truthy(HandValue(env, c.store, "", s.test));
      PlainRunIsCourse(env, m, if truth then s.body else s.orelse, c);
    } else {
      PlainSimple(env, m, s, c);
    }
  }

  lemma {:induction false} PlainRunIsCourse<V>(env: Env<V>, m: map<string, V>, ss: seq<Stmt>, c: Course<V>)
    requires OnCourse(env, m, c) && Defined(ss) <= Defined(env.body) && PlainRun(env.interp, m, ss).Some?
    ensures OnCourse(env, PlainRun(env.interp, m, ss).value, CourseOfAll(env, "", None, ss, c))
    decreases ss, 0
  {
    if ss != [] {
      var n := |ss| - 1;
      PlainRunIsCourse(env, m, ss[..n], c);
      PlainIsCourse(env, PlainRun(env.interp, m, ss[..n]).value, ss[n], CourseOfAll(env, "", None, ss[..n], c));
    }
  }

  /** A body that stores every name before it reads it comes out as in a plain run. */
  lemma {:induction false} LazyIsPlain<V>(env: Env<V>, ts: seq<Trail<V>>, globals: map<string, V>)
    requires Evaluates(env, ts, globals)
    ensures var run := PlainRun(env.interp, map[], env.body);
            run.Some? ==> globals == (map x | x in Defined(env.body) :: env.interp.undefined) + run.value
  {
    if PlainRun(env.interp, map[], env.body).Some? {
      var start := Begin(Begun(env));
      PlainRunIsCourse(env, map[], env.body, start);
      WalkIsCourseAll(env, "", None, env.body, ts, start);
    }
  }
}

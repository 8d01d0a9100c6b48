/**
 The course of a replay whose tests and values are at hand (crates/evaluator/src/node.rs,
 context.rs and the two macros of lazy.rs): which statements it passes, each nested test
 evaluated in the store where it is met, and what it stores. From it, reads that store
 nothing: a name is at rest if it is at hand, or if the replay its lookup runs passes no
 statement that assigns anything.
 */
module KclCourse {
  import opened Wrappers
  import opened KclSetters
  import opened KclMeaning
  import opened KclLevels
  import opened KclReads

  datatype Meta = Meta(stmtId: nat, stopped: Option<nat>, isBreak: bool, kind: Kind)

  /** The statements of an `if` that a setter of this kind has walked. */
  function Wanted(kind: Kind, s: Stmt, truth: bool): (branch: seq<Stmt>)
    requires s.If?
    ensures branch == [] || branch == s.body || branch == s.orelse
  {
    if kind == OnlyOrElse then (if truth then [] else s.orelse)
    else if kind == OnlyIf then (if truth then s.body else [])
    else if truth then s.body else s.orelse
  }

  /** The statements an `if` goes on with, when the evaluator is at statement `after`. */
  function Branch(top: Option<Meta>, s: Stmt, truth: bool, after: nat): (branch: seq<Stmt>)
    requires s.If?
    ensures branch == [] || branch == s.body || branch == s.orelse
  {
    Wanted(if top.Some? && top.value.stmtId == after then top.value.kind else Normal, s, truth)
  }

  predicate StopsAt(top: Option<Meta>, id: nat) {
    top.Some? && top.value.stopped == Some(id)
  }

  /**
   The store; whether the statement to stop at was passed; whether everything was at hand so
   far; the assignments passed, in order; and the values they gave.
   */
  datatype Course<V> = Course(store: Store<V>, broken: bool, ok: bool, passed: seq<Leaf>, given: map<string, V>)

  function Given<V>(given: map<string, V>, targets: seq<string>, v: V): map<string, V> {
    if targets == [] then given else Given(given, targets[..|targets| - 1], v)[targets[|targets| - 1] := v]
  }

  ghost function CourseOf<V>(env: Env<V>, target: string, top: Option<Meta>, s: Stmt, c: Course<V>): Course<V>
    decreases s, 1
  {
    if c.broken then c
    else if s.If? then
      var branch := Branch(top, s, env.interp.truthy(HandValue(env, c.store, target, s.test)), s.id);
      var hand := c.(ok := c.ok && AtHand(env, c.store, target, s.test));
      var walked := if branch == [] then hand else CourseOfAll(env, target, top, branch, hand);
      walked.(broken := walked.broken || StopsAt(top, s.id))
    else SimpleCourse(env, top, s, c)
  }

  ghost function SimpleCourse<V>(env: Env<V>, top: Option<Meta>, s: Stmt, c: Course<V>): Course<V> {
    var targets := Targets(s);
    if targets == [] then c.(broken := StopsAt(top, s.id), ok := c.ok && s.Other?)
    else
      var x := targets[|targets| - 1];
      var v := HandValue(env, c.store, x, Meaning(s));
      Course(SetTo(c.store, targets, v), StopsAt(top, s.id),
             c.ok && AtHand(env, c.store, x, Meaning(s)) && forall t :: t in targets ==> t in c.store.variables,
             c.passed + Named(targets, s.id), Given(c.given, targets, v))
  }

  ghost function CourseOfAll<V>(env: Env<V>, target: string, top: Option<Meta>, ss: seq<Stmt>, c: Course<V>): Course<V>
    decreases ss, 0
  {
    if ss == [] then c
    else CourseOf(env, target, top, ss[|ss| - 1], CourseOfAll(env, target, top, ss[..|ss| - 1], c))
  }

  function Begin<V>(s: Store<V>): Course<V> { Course(s, false, true, [], map[]) }

  // ---------------------------------------------------------------------------------
  // What a course stores
  // ---------------------------------------------------------------------------------

  predicate SetBy(passed: seq<Leaf>, z: string) {
    exists i :: 0 <= i < |passed| && passed[i].name == z
  }

  /** The variables are those of `base` but for the values given, which are those of the names assigned. */
  ghost predicate Accounts<V>(base: map<string, V>, c: Course<V>) {
    && c.store.variables == base + c.given
    && forall z :: z in c.given <==> SetBy(c.passed, z)
  }

  lemma {:induction false} SetByMore(passed: seq<Leaf>, more: seq<Leaf>, z: string)
    ensures SetBy(passed + more, z) <==> SetBy(passed, z) || SetBy(more, z)
  {
    var all := passed + more;
    if SetBy(passed, z) {
      var i :| 0 <= i < |passed| && passed[i].name == z;
      assert all[i].name == z;
    }
    if SetBy(more, z) {
      var i :| 0 <= i < |more| && more[i].name == z;
      assert all[|passed| + i].name == z;
    }
  }

  lemma {:induction false} NamedAssigns(names: seq<string>, id: nat, z: string)
    ensures SetBy(Named(names, id), z) <==> z in names
    ensures |Named(names, id)| == |names|
  {
    if names != [] {
      var n := |names| - 1;
      NamedAssigns(names[..n], id, z);
      SetByMore(Named(names[..n], id), [Leaf(names[n], id)], z);
      assert SetBy([Leaf(names[n], id)], z) <==> [Leaf(names[n], id)][0].name == z;
      assert names == names[..n] + [names[n]];
    }
  }

  lemma {:induction false} GivenNames<V>(given: map<string, V>, targets: seq<string>, v: V, z: string)
    ensures z in Given(given, targets, v) <==> z in given || z in targets
  {
    if targets != [] {
      GivenNames(given, targets[..|targets| - 1], v, z);
      assert targets == targets[..|targets| - 1] + [targets[|targets| - 1]];
    }
  }

  lemma {:induction false} GivenAre<V>(given: map<string, V>, s: Store<V>, base: map<string, V>, targets: seq<string>, v: V)
    requires s.variables == base + given
    ensures SetTo(s, targets, v).variables == base + Given(given, targets, v)
    ensures SetTo(s, targets, v).levels == s.levels
  {
    if targets != [] {
      var front, t := targets[..|targets| - 1], targets[|targets| - 1];
      GivenAre(given, s, base, front, v);
      OneGiven(base, Given(given, front, v), t, v);
    }
  }

  lemma {:induction false} OneGiven<V>(base: map<string, V>, given: map<string, V>, t: string, v: V)
    ensures (base + given)[t := v] == base + given[t := v]
  {
  }

  lemma {:induction false} SimpleAccounts<V>(env: Env<V>, top: Option<Meta>, s: Stmt, c: Course<V>, base: map<string, V>)
    requires Accounts(base, c)
    ensures Accounts(base, SimpleCourse(env, top, s, c)) && SimpleCourse(env, top, s, c).store.levels == c.store.levels
  {
    var targets := Targets(s);
    if targets != [] {
      var v := HandValue(env, c.store, targets[|targets| - 1], Meaning(s));
      GivenAre(c.given, c.store, base, targets, v);
      forall z ensures SetBy(c.passed + Named(targets, s.id), z) <==> z in c.given || z in targets {
        SetByMore(c.passed, Named(targets, s.id), z);
        NamedAssigns(targets, s.id, z);
      }
      forall z ensures z in Given(c.given, targets, v) <==> z in c.given || z in targets { GivenNames(c.given, targets, v, z); }
    }
  }

  lemma {:induction false} CourseAccounts<V>(env: Env<V>, target: string, top: Option<Meta>, s: Stmt, c: Course<V>, base: map<string, V>)
    requires Accounts(base, c)
    ensures Accounts(base, CourseOf(env, target, top, s, c)) && CourseOf(env, target, top, s, c).store.levels == c.store.levels
    decreases s, 1
  {
    if !c.broken {
      if s.If? {
        var branch := Branch(top, s, env.interp.truthy(HandValue(env, c.store, target, s.test)), s.id);
        var hand := c.(ok := c.ok && AtHand(env, c.store, target, s.test));
        if branch != [] { CourseAllAccounts(env, target, top, branch, hand, base); }
      } else {
        SimpleAccounts(env, top, s, c, base);
      }
    }
  }

  lemma {:induction false} CourseAllAccounts<V>(env: Env<V>, target: string, top: Option<Meta>, ss: seq<Stmt>, c: Course<V>, base: map<string, V>)
    requires Accounts(base, c)
    ensures Accounts(base, CourseOfAll(env, target, top, ss, c)) && CourseOfAll(env, target, top, ss, c).store.levels == c.store.levels
    decreases ss, 0
  {
    if ss != [] {
      var front := CourseOfAll(env, target, top, ss[..|ss| - 1], c);
      CourseAllAccounts(env, target, top, ss[..|ss| - 1], c, base);
      CourseAccounts(env, target, top, ss[|ss| - 1], front, base);
    }
  }

  // ---------------------------------------------------------------------------------
  // Courses that assign nothing
  // ---------------------------------------------------------------------------------

  /** `b` comes after `a`: what has been passed stays, and what was not at hand too. */
  ghost predicate Later<V>(a: Course<V>, b: Course<V>) {
    && |a.passed| <= |b.passed| && (b.ok ==> a.ok)
    && (|a.passed| == |b.passed| && b.ok ==> a.passed == b.passed && a.store == b.store && a.given == b.given)
  }

  lemma {:induction false} CourseIsLater<V>(env: Env<V>, target: string, top: Option<Meta>, s: Stmt, c: Course<V>)
    ensures Later(c, CourseOf(env, target, top, s, c))
    decreases s, 1
  {
    if !c.broken {
      if s.If? {
        var branch := Branch(top, s, env.interp.truthy(HandValue(env, c.store, target, s.test)), s.id);
        var hand := c.(ok := c.ok && AtHand(env, c.store, target, s.test));
        if branch != [] { CourseAllIsLater(env, target, top, branch, hand); }
      } else {
        NamedAssigns(Targets(s), s.id, "");
      }
    }
  }

  lemma {:induction false} CourseAllIsLater<V>(env: Env<V>, target: string, top: Option<Meta>, ss: seq<Stmt>, c: Course<V>)
    ensures Later(c, CourseOfAll(env, target, top, ss, c))
    decreases ss, 0
  {
    if ss != [] {
      CourseAllIsLater(env, target, top, ss[..|ss| - 1], c);
      CourseIsLater(env, target, top, ss[|ss| - 1], CourseOfAll(env, target, top, ss[..|ss| - 1], c));
    }
  }

  /** The same point of a course, between which other reads rested. */
  ghost predicate Beside<V>(env: Env<V>, a: Course<V>, b: Course<V>) {
    Rested(env, a.store, b.store) && a.broken == b.broken && a.ok && b.ok
  }

  /** A course that assigns nothing does not notice that other reads rested before. */
  lemma {:induction false} BareCourseStays<V>(env: Env<V>, target: string, top: Option<Meta>, s: Stmt, c: Course<V>, d: Course<V>)
    requires Beside(env, c, d)
    requires CourseOf(env, target, top, s, c).ok && |CourseOf(env, target, top, s, c).passed| == |c.passed|
    ensures Beside(env, CourseOf(env, target, top, s, c), CourseOf(env, target, top, s, d))
    ensures |CourseOf(env, target, top, s, d).passed| == |d.passed|
    decreases s, 1
  {
    if !c.broken {
      if s.If? {
        var branch := Branch(top, s, env.interp.truthy(HandValue(env, c.store, target, s.test)), s.id);
        var hand := c.(ok := c.ok && AtHand(env, c.store, target, s.test));
        if branch != [] { CourseAllIsLater(env, target, top, branch, hand); }
        HandStays(env, c.store, d.store, target, s.test);
        if branch != [] { BareCourseAllStays(env, target, top, branch, hand, d.(ok := d.ok && AtHand(env, d.store, target, s.test))); }
      } else {
        NamedAssigns(Targets(s), s.id, "");
      }
    }
  }

  lemma {:induction false} BareCourseAllStays<V>(env: Env<V>, target: string, top: Option<Meta>, ss: seq<Stmt>, c: Course<V>, d: Course<V>)
    requires Beside(env, c, d)
    requires CourseOfAll(env, target, top, ss, c).ok && |CourseOfAll(env, target, top, ss, c).passed| == |c.passed|
    ensures Beside(env, CourseOfAll(env, target, top, ss, c), CourseOfAll(env, target, top, ss, d))
    ensures |CourseOfAll(env, target, top, ss, d).passed| == |d.passed|
    decreases ss, 0
  {
    if ss != [] {
      var front, last := ss[..|ss| - 1], ss[|ss| - 1];
      CourseAllIsLater(env, target, top, front, c);
      CourseIsLater(env, target, top, last, CourseOfAll(env, target, top, front, c));
      BareCourseAllStays(env, target, top, front, c, d);
      BareCourseStays(env, target, top, last, CourseOfAll(env, target, top, front, c), CourseOfAll(env, target, top, front, d));
    }
  }

  // ---------------------------------------------------------------------------------
  // Lookups
  // ---------------------------------------------------------------------------------

  /** A lookup of `z` runs a setter: `z` has no value yet. */
  ghost predicate Cold<V>(env: Env<V>, s: Store<V>, target: string, z: string) {
    && z in s.variables && z !in s.cache && !OwnTarget(env, s, target, z)
    && LevelOf(s.levels, z) < |Entries(env.setters, z)| && NextSetter(env, s, z).stmt < |env.body|
  }

  /** What a replay of this setter is asked for. */
  function Order(setter: Setter): Meta { Meta(setter.stmtId, setter.stopped, false, setter.kind) }

  /** The course of that setter's replay. */
  ghost function LookupCourse<V>(env: Env<V>, s: Store<V>, target: string, z: string): Course<V>
    requires LevelOf(s.levels, z) < |Entries(env.setters, z)| && NextSetter(env, s, z).stmt < |env.body|
  {
    var setter := NextSetter(env, s, z);
    CourseOf(env, target, Some(Order(setter)), env.body[setter.stmt], Begin(Enter(s, z)))
  }

  /** Everything the replay reads is at hand. */
  ghost predicate Foreseen<V>(env: Env<V>, s: Store<V>, target: string, z: string) {
    Cold(env, s, target, z) && LookupCourse(env, s, target, z).ok
  }

  /** The replay passes no statement that assigns anything. */
  ghost predicate Untaken<V>(env: Env<V>, s: Store<V>, target: string, z: string) {
    Foreseen(env, s, target, z) && LookupCourse(env, s, target, z).passed == []
  }

  /** The value a foreseen lookup returns. */
  ghost function LookupValue<V>(env: Env<V>, s: Store<V>, target: string, z: string): V
    requires Foreseen(env, s, target, z)
  {
    var course := LookupCourse(env, s, target, z);
    if z in course.given then course.given[z] else s.variables[z]
  }

  /** The level of `z` put back, and its value cached. */
  function Left<V>(s: Store<V>, z: string, level: nat, r: V): Store<V> {
    s.(levels := s.levels[z := level], cache := s.cache[z := r])
  }

  /** The store after it. */
  ghost function LookupStore<V>(env: Env<V>, s: Store<V>, target: string, z: string): Store<V>
    requires Foreseen(env, s, target, z)
  {
    Left(LookupCourse(env, s, target, z).store, z, LevelOf(s.levels, z), LookupValue(env, s, target, z))
  }

  /**
   A foreseen lookup stores in the variables what the statements passed give. It finds `z` as it
   was if and only if none of these assigns `z`; if they assign nothing, nothing is stored.
   */
  lemma {:induction false} LookupFinds<V>(env: Env<V>, s: Store<V>, target: string, z: string)
    requires Foreseen(env, s, target, z)
    ensures var course := LookupCourse(env, s, target, z);
            && course.store.variables == s.variables + course.given
            && (z in course.given <==> SetBy(course.passed, z))
            && z in course.store.variables && course.store.variables[z] == LookupValue(env, s, target, z)
            && course.store.levels == Enter(s, z).levels
            && (course.passed == [] ==> course.store == Enter(s, z) && LookupValue(env, s, target, z) == s.variables[z])
  {
    var setter := NextSetter(env, s, z);
    CourseAccounts(env, target, Some(Order(setter)), env.body[setter.stmt], Begin(Enter(s, z)), s.variables);
    CourseIsLater(env, target, Some(Order(setter)), env.body[setter.stmt], Begin(Enter(s, z)));
    var course := LookupCourse(env, s, target, z);
    assert course.passed == [] ==> !SetBy(course.passed, z);
  }

  lemma {:induction false} UntakenRests<V>(env: Env<V>, s: Store<V>, target: string, z: string)
    requires Untaken(env, s, target, z)
    ensures LookupValue(env, s, target, z) == s.variables[z] && Rested(env, s, LookupStore(env, s, target, z))
  {
    LookupFinds(env, s, target, z);
  }

  // ---------------------------------------------------------------------------------
  // Reads at rest
  // ---------------------------------------------------------------------------------

  ghost predicate AtRest<V>(env: Env<V>, s: Store<V>, target: string, e: Expr) {
    match e
    case Literal(_) => true
    case Name(z) => AtHand(env, s, target, e) || Untaken(env, s, target, z)
    case Binary(_, left, right) => AtRest(env, s, target, left) && AtRest(env, s, target, right)
    case Choose(test, yes, no) =>
      AtRest(env, s, target, test)
      && if env.interp.truthy(HandValue(env, s, target, test)) then AtRest(env, s, target, yes) else AtRest(env, s, target, no)
  }

  /** Evaluating `e` at rest gives its value and stores nothing. */
  ghost predicate ReadRests<V>(env: Env<V>, a: Store<V>, b: Store<V>, target: string, e: Expr, r: V) {
    AtRest(env, a, target, e) ==> r == HandValue(env, a, target, e) && Rested(env, a, b)
  }

  /** A lookup that was foreseen went as foreseen. */
  ghost predicate LookupIs<V>(env: Env<V>, s: Store<V>, target: string, z: string, r: V, after: Store<V>) {
    Foreseen(env, s, target, z) ==> r == LookupValue(env, s, target, z) && after == LookupStore(env, s, target, z)
  }

  lemma {:induction false} LookupRests<V>(env: Env<V>, s: Store<V>, target: string, z: string, r: V, after: Store<V>)
    requires z in s.variables && z !in s.cache && !OwnTarget(env, s, target, z) && Entries(env.setters, z) != []
    requires LookupIs(env, s, target, z, r, after)
    ensures ReadRests(env, s, after, target, Name(z), r) && !AtHand(env, s, target, Name(z))
  {
    if Untaken(env, s, target, z) { UntakenRests(env, s, target, z); }
  }

  lemma {:induction false} UntakenStays<V>(env: Env<V>, a: Store<V>, b: Store<V>, target: string, z: string)
    requires Rested(env, a, b) && Untaken(env, a, target, z) && z !in b.cache
    ensures Untaken(env, b, target, z)
  {
    assert OwnTarget(env, a, target, z) == OwnTarget(env, b, target, z);
    assert NextSetter(env, a, z) == NextSetter(env, b, z);
    var setter := NextSetter(env, a, z);
    EnterRests(env, a, b, z);
    BareCourseStays(env, target, Some(Order(setter)), env.body[setter.stmt], Begin(Enter(a, z)), Begin(Enter(b, z)));
  }

  /** What is at rest stays so while other reads rest, with the same value. */
  lemma {:induction false} RestStays<V>(env: Env<V>, a: Store<V>, b: Store<V>, target: string, e: Expr)
    requires Rested(env, a, b) && AtRest(env, a, target, e)
    ensures AtRest(env, b, target, e) && HandValue(env, a, target, e) == HandValue(env, b, target, e)
  {
    match e {
      case Literal(_) =>
      case Name(z) =>
        if AtHand(env, a, target, e) {
          HandStays(env, a, b, target, e);
        } else {
          assert OwnTarget(env, a, target, z) == OwnTarget(env, b, target, z);
          if z !in b.cache { UntakenStays(env, a, b, target, z); }
        }
      case Binary(_, left, right) =>
        RestStays(env, a, b, target, left);
        RestStays(env, a, b, target, right);
      case Choose(test, yes, no) =>
        RestStays(env, a, b, target, test);
        RestStays(env, a, b, target, if env.interp.truthy(HandValue(env, a, target, test)) then yes else no);
    }
  }

  lemma {:induction false} HandRests<V>(env: Env<V>, s: Store<V>, target: string, e: Expr)
    requires AtHand(env, s, target, e)
    ensures AtRest(env, s, target, e) && Rested(env, s, s)
  {
    match e {
      case Binary(_, left, right) =>
        HandRests(env, s, target, left);
        HandRests(env, s, target, right);
      case Choose(test, yes, no) =>
        HandRests(env, s, target, test);
        HandRests(env, s, target, if env.interp.truthy(HandValue(env, s, target, test)) then yes else no);
      case _ =>
    }
  }

  lemma {:induction false} BinaryRests<V>(env: Env<V>, a: Store<V>, b: Store<V>, c: Store<V>, target: string, op: string, e1: Expr, e2: Expr, v1: V, v2: V)
    requires ReadRests(env, a, b, target, e1, v1) && ReadRests(env, b, c, target, e2, v2)
    ensures ReadRests(env, a, c, target, Binary(op, e1, e2), env.interp.binary(op, v1, v2))
    ensures ReadRests(env, a, c, target, Binary(op, e2, e1), env.interp.binary(op, v2, v1))
  {
    if AtRest(env, a, target, e1) && AtRest(env, a, target, e2) {
      RestStays(env, a, b, target, e2);
      RestedTwice(env, a, b, c);
    }
  }

  /** After a test at hand, so is what it chooses, if the whole is. */
  lemma {:induction false} ChosenAtHand<V>(env: Env<V>, a: Store<V>, b: Store<V>, target: string, e: Expr, t: V, chosen: Expr)
    requires e.Choose? && ReadRests(env, a, b, target, e.test, t) && (AtHand(env, a, target, e.test) ==> b == a)
    requires chosen == if env.interp.truthy(t) then e.yes else e.no
    ensures AtHand(env, a, target, e) ==> AtHand(env, b, target, chosen) && b == a
  {
    if AtHand(env, a, target, e.test) { HandRests(env, a, target, e.test); }
  }

  lemma {:induction false} ChooseRests<V>(env: Env<V>, a: Store<V>, b: Store<V>, c: Store<V>, target: string, e: Expr, t: V, chosen: Expr, r: V)
    requires e.Choose? && ReadRests(env, a, b, target, e.test, t) && ReadRests(env, b, c, target, chosen, r)
    requires chosen == if env.interp.truthy(t) then e.yes else e.no
    ensures ReadRests(env, a, c, target, e, r)
  {
    if AtRest(env, a, target, e) {
      RestStays(env, a, b, target, chosen);
      RestedTwice(env, a, b, c);
    }
  }

  /** Both stores hold the same of `z`. */
  ghost predicate SameAt<V>(a: Store<V>, b: Store<V>, z: string) {
    (z in a.variables <==> z in b.variables) && (z in a.variables ==> a.variables[z] == b.variables[z])
  }

  /** No variable but the targets changes. */
  ghost predicate Touches<V>(a: Store<V>, b: Store<V>, targets: seq<string>) {
    forall z :: z !in targets ==> SameAt(a, b, z)
  }

  /** If all the targets are in the scope and `e` rests, its value is stored in each; `mid` is the store before. */
  ghost predicate Assigns<V>(env: Env<V>, pre: Store<V>, mid: Store<V>, post: Store<V>, targets: seq<string>, e: Expr) {
    Touches(mid, post, targets)
    && (targets != [] && AtRest(env, pre, targets[|targets| - 1], e) && (forall t :: t in targets ==> t in pre.variables) ==>
      && Rested(env, pre, mid) && post == SetTo(mid, targets, HandValue(env, pre, targets[|targets| - 1], e))
      && (AtHand(env, pre, targets[|targets| - 1], e) ==> mid == pre))
  }

  lemma {:induction false} ReadThenSet<V>(env: Env<V>, pre: Store<V>, mid: Store<V>, post: Store<V>, targets: seq<string>, e: Expr, v: V)
    requires targets != [] ==> ReadRests(env, pre, mid, targets[|targets| - 1], e, v)
    requires targets != [] && AtHand(env, pre, targets[|targets| - 1], e) ==> mid == pre
    requires (forall t :: t in targets ==> t in mid.variables) ==> post == SetTo(mid, targets, v)
    requires Touches(mid, post, targets)
    ensures Assigns(env, pre, mid, post, targets, e)
  {
  }

  /** What a statement other than an `if` does. */
  ghost predicate Stepped<V>(env: Env<V>, s: Stmt, pre: Store<V>, mid: Store<V>, post: Store<V>) {
    (s.Other? ==> post == pre) && Assigns(env, pre, mid, post, Targets(s), Meaning(s))
  }
}

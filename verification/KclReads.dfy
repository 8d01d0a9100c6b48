/**
 Reads whose value can be told from the scope and the lazy scope alone
 (crates/evaluator/src/lazy.rs, `get_value_from_lazy_scope`; scope.rs, `load_name`): a name is
 at hand if reading it runs no setter.
 */
module KclReads {
  import opened KclSetters
  import opened KclMeaning
  import opened KclLevels

  datatype Env<!V> = Env(body: seq<Stmt>, setters: Table, interp: Interp<V>)

  datatype Store<V> = Store(variables: map<string, V>, cache: map<string, V>, levels: Levels)

  /** A name read by its own setter, at the top level or if that is its only one. */
  predicate OwnTarget<V>(env: Env<V>, s: Store<V>, target: string, z: string) {
    z == target && (LevelOf(s.levels, z) == 0 || |Entries(env.setters, z)| <= 1)
  }

  ghost predicate AtHand<V>(env: Env<V>, s: Store<V>, target: string, e: Expr) {
    match e
    case Literal(_) => true
    case Name(z) => z !in s.variables || z in s.cache || Entries(env.setters, z) == [] || OwnTarget(env, s, target, z)
    case Binary(_, left, right) => AtHand(env, s, target, left) && AtHand(env, s, target, right)
    case Choose(test, yes, no) =>
      AtHand(env, s, target, test)
      && if env.interp.truthy(HandValue(env, s, target, test)) then AtHand(env, s, target, yes) else AtHand(env, s, target, no)
  }

  /** The value of an expression all of whose names are at hand, or return what the variables hold. */
  ghost function HandValue<V>(env: Env<V>, s: Store<V>, target: string, e: Expr): V {
    match e
    case Literal(text) => env.interp.literal(text)
    case Name(z) =>
      if z !in s.variables then env.interp.undefined
      else if z in s.cache && !OwnTarget(env, s, target, z) then s.cache[z]
      else s.variables[z]
    case Binary(op, left, right) =>
      env.interp.binary(op, HandValue(env, s, target, left), HandValue(env, s, target, right))
    case Choose(test, yes, no) =>
      if env.interp.truthy(HandValue(env, s, target, test)) then HandValue(env, s, target, yes)
      else HandValue(env, s, target, no)
  }

  function Enter<V>(s: Store<V>, z: string): Store<V> {
    s.(levels := s.levels[z := LevelOf(s.levels, z) + 1])
  }

  /** The setter that a lookup of `z` runs. */
  function NextSetter<V>(env: Env<V>, s: Store<V>, z: string): Setter
    requires LevelOf(s.levels, z) < |Entries(env.setters, z)|
  {
    Entries(env.setters, z)[|Entries(env.setters, z)| - LevelOf(s.levels, z) - 1]
  }

  /** Nothing was stored, and what was cached besides is what the variables hold. */
  ghost predicate Rested<V>(env: Env<V>, a: Store<V>, b: Store<V>) {
    && a.variables == b.variables
    && (forall y :: LevelOf(a.levels, y) == LevelOf(b.levels, y))
    && (forall y :: y in a.cache ==> y in b.cache && b.cache[y] == a.cache[y])
    && (forall y :: y in b.cache && y !in a.cache ==>
          y in a.variables && b.cache[y] == a.variables[y] && Entries(env.setters, y) != [])
  }

  lemma {:induction false} RestedTwice<V>(env: Env<V>, a: Store<V>, b: Store<V>, c: Store<V>)
    requires Rested(env, a, b) && Rested(env, b, c)
    ensures Rested(env, a, c)
  {
  }

  lemma {:induction false} HandStays<V>(env: Env<V>, a: Store<V>, b: Store<V>, target: string, e: Expr)
    requires Rested(env, a, b) && AtHand(env, a, target, e)
    ensures AtHand(env, b, target, e) && HandValue(env, a, target, e) == HandValue(env, b, target, e)
  {
    match e {
      case Literal(_) =>
      case Name(z) => assert OwnTarget(env, a, target, z) == OwnTarget(env, b, target, z);
      case Binary(_, left, right) =>
        HandStays(env, a, b, target, left);
        HandStays(env, a, b, target, right);
      case Choose(test, yes, no) =>
        HandStays(env, a, b, target, test);
        HandStays(env, a, b, target, if env.interp.truthy(HandValue(env, a, target, test)) then yes else no);
    }
  }

  lemma {:induction false} EnterRests<V>(env: Env<V>, a: Store<V>, b: Store<V>, z: string)
    requires Rested(env, a, b)
    ensures Rested(env, Enter(a, z), Enter(b, z))
  {
    var c, d := Enter(a, z), Enter(b, z);
    forall y ensures LevelOf(c.levels, y) == LevelOf(d.levels, y) { assert LevelOf(a.levels, y) == LevelOf(b.levels, y); }
  }

  /** The value stored in every target, each of which is in the scope. */
  function SetTo<V>(s: Store<V>, targets: seq<string>, v: V): Store<V> {
    if targets == [] then s
    else
      var t, before := targets[|targets| - 1], SetTo(s, targets[..|targets| - 1], v);
      before.(variables := before.variables[t := v], cache := before.cache[t := v])
  }
}

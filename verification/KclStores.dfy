/**
 What a walk stores, by the kind of statement (crates/evaluator/src/node.rs, the walks of
 assignments, augmented assignments and unifications): the names the statement writes get its
 value, and no other variable changes but by the lookups it makes.
 */
module KclStores {
  import opened Wrappers
  import opened KclSetters
  import opened KclLevels
  import opened KclReads
  import opened KclCourse
  import opened KclReplay
  import opened KclPlain

  /** Apart from what its reads change, the walk leaves `z` as it was. */
  ghost predicate Spares<V>(t: Trail<V>, z: string)
    decreases t, 1
  {
    match t
    case Skipped => true
    case Ran(_, _, mid, post) => SameAt(mid, post, z)
    case Tested(_, _, _, _, _, inner) => SparesAll(inner, z)
  }

  ghost predicate SparesAll<V>(ts: seq<Trail<V>>, z: string)
    decreases ts, 0
  {
    ts != [] ==> SparesAll(ts[..|ts| - 1], z) && Spares(ts[|ts| - 1], z)
  }

  lemma {:induction false} UnwrittenIsSpared<V>(env: Env<V>, target: string, top: Option<Meta>, s: Stmt, t: Trail<V>, z: string)
    requires (t.Skipped? || Follows(env, target, top, s, t)) && !Writes(s, z)
    ensures Spares(t, z)
    decreases t, 1
  {
    if t.Tested? {
      assert !WritesAny(s.body, z) && !WritesAny(s.orelse, z) && !WritesAny([], z);
      UnwrittenAreSpared(env, target, top, false, Branch(top, s, t.truth, t.after), t.inner, z);
    } else if t.Ran? {
      assert z !in Targets(s);
    }
  }

  lemma {:induction false} UnwrittenAreSpared<V>(env: Env<V>, target: string, top: Option<Meta>, broken: bool, ss: seq<Stmt>, ts: seq<Trail<V>>, z: string)
    requires FollowsAll(env, target, top, broken, ss, ts) && !WritesAny(ss, z)
    ensures SparesAll(ts, z)
    decreases ts, 0
  {
    if ss != [] {
      var n := |ss| - 1;
      UnwrittenAreSpared(env, target, top, broken, ss[..n], ts[..n], z);
      UnwrittenIsSpared(env, target, top, ss[n], ts[n], z);
    }
  }

  /** A statement at the top level changes no variable that has no setter for it, apart from what the lookups it makes change. */
  lemma {:induction false} NoSetterNoChange<V>(env: Env<V>, ts: seq<Trail<V>>, globals: map<string, V>, i: nat, z: string)
    requires Evaluates(env, ts, globals) && i < |env.body| && !HasSetterAt(Entries(env.setters, z), i)
    ensures i < |ts| && Spares(ts[i], z)
  {
    WalkedAt(env, "", env.body, ts, Begun(env), i);
    SetterAtIffWritten(env.body, z, i);
    UnwrittenIsSpared(env, "", None, env.body[i], ts[i], z);
  }

  /** The value `v` in each of these variables, and the others as before. */
  ghost predicate Puts<V>(pre: Store<V>, post: Store<V>, targets: seq<string>, v: V) {
    post.variables == pre.variables + Each(targets, v)
  }

  /**
   What the variables hold after a statement whose value is at rest and whose names are in the
   scope: an augmented assignment and a unification combine the old value with the operand.
   */
  ghost predicate StoresItsValue<V>(env: Env<V>, s: Stmt, pre: Store<V>, post: Store<V>) {
    match s
    case Assign(_, targets, value) =>
      targets != [] && (forall x :: x in targets ==> x in pre.variables) && AtRest(env, pre, targets[|targets| - 1], value) ==>
        Puts(pre, post, targets, HandValue(env, pre, targets[|targets| - 1], value))
    case AugAssign(_, x, op, value) => Combines(env, pre, post, x, op, value)
    case Unification(_, x, value) => Combines(env, pre, post, x, "|", value)
    case If(_, _, _, _) => true
    case Other(_) => post == pre
  }

  ghost predicate Combines<V>(env: Env<V>, pre: Store<V>, post: Store<V>, x: string, op: string, value: Expr) {
    x in pre.variables && LevelOf(pre.levels, x) == 0 && AtRest(env, pre, x, value) ==>
      Puts(pre, post, [x], env.interp.binary(op, pre.variables[x], HandValue(env, pre, x, value)))
  }

  lemma {:induction false} CombinedAre<V>(env: Env<V>, pre: Store<V>, mid: Store<V>, post: Store<V>, x: string, op: string, value: Expr)
    requires Assigns(env, pre, mid, post, [x], Binary(op, Name(x), value))
    ensures Combines(env, pre, post, x, op, value)
  {
    var e := Binary(op, Name(x), value);
    if x in pre.variables && LevelOf(pre.levels, x) == 0 && AtRest(env, pre, x, value) {
      assert OwnTarget(env, pre, x, x) && AtHand(env, pre, x, Name(x));
      assert HandValue(env, pre, x, e) == env.interp.binary(op, HandValue(env, pre, x, Name(x)), HandValue(env, pre, x, value));
      var targets := [x];
      assert targets[|targets| - 1] == x && AtRest(env, pre, x, e) && forall t :: t in targets ==> t in pre.variables;
      assert Rested(env, pre, mid) && post == SetTo(mid, targets, HandValue(env, pre, x, e));
      SetToIs(mid, [x], HandValue(env, pre, x, e));
    }
  }

  lemma {:induction false} StoredByKind<V>(env: Env<V>, target: string, top: Option<Meta>, s: Stmt, t: Trail<V>)
    requires !s.If? && Follows(env, target, top, s, t)
    ensures StoresItsValue(env, s, t.pre, t.post)
  {
    match s {
      case Assign(_, targets, value) =>
        if targets != [] { SetToIs(t.mid, targets, HandValue(env, t.pre, targets[|targets| - 1], value)); }
      case AugAssign(_, x, op, value) => CombinedAre(env, t.pre, t.mid, t.post, x, op, value);
      case Unification(_, x, value) => CombinedAre(env, t.pre, t.mid, t.post, x, "|", value);
      case Other(_) =>
    }
  }
}

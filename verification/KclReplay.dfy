/**
 Which statements a walk passes (crates/evaluator/src/node.rs, context.rs and the two macros
 of lazy.rs). A setter inside an `if` is replayed by walking the whole top-level `if` with a
 note of the branch wanted and of the statement to stop at.
 */
module KclReplay {
  import opened Wrappers
  import opened KclSetters
  import opened KclMeaning
  import opened KclLevels
  import opened KclReads
  import opened KclCourse

  /** A statement passed with `depth` replays under way; a test of an `if` with its outcome. */
  datatype Step = Step(depth: nat, id: nat, verdict: Option<bool>)

  /**
   How a statement was walked, and between which stores: not at all; run, its reads done at
   `mid`; or tested, with the statement the evaluator was at when the test was over, and how
   each statement of the chosen branch was walked.
   */
  datatype Trail<V> =
    | Skipped
    | Ran(id: nat, pre: Store<V>, mid: Store<V>, post: Store<V>)
    | Tested(id: nat, pre: Store<V>, truth: bool, after: nat, mid: Store<V>, inner: seq<Trail<V>>)

  /** The store after a walk that began with `pre`. */
  ghost function PostOf<V>(t: Trail<V>, pre: Store<V>): Store<V>
    decreases t, 1
  {
    match t
    case Skipped => pre
    case Ran(_, _, _, post) => post
    case Tested(_, _, _, _, mid, inner) => PostAll(inner, mid)
  }

  ghost function PostAll<V>(ts: seq<Trail<V>>, pre: Store<V>): Store<V>
    decreases ts, 0
  {
    if ts == [] then pre else PostOf(ts[|ts| - 1], PostAll(ts[..|ts| - 1], pre))
  }

  /** The walk began with `pre`, and each part of it where the one before ended. */
  ghost predicate Starts<V>(t: Trail<V>, pre: Store<V>)
    decreases t, 1
  {
    match t
    case Skipped => true
    case Ran(_, own, _, _) => own == pre
    case Tested(_, own, _, _, mid, inner) => own == pre && StartsAll(inner, mid)
  }

  ghost predicate StartsAll<V>(ts: seq<Trail<V>>, pre: Store<V>)
    decreases ts, 0
  {
    ts != [] ==> StartsAll(ts[..|ts| - 1], pre) && Starts(ts[|ts| - 1], PostAll(ts[..|ts| - 1], pre))
  }

  ghost function Flat<V>(depth: nat, t: Trail<V>): seq<Step>
    decreases t, 1
  {
    match t
    case Skipped => []
    case Ran(id, _, _, _) => [Step(depth, id, None)]
    case Tested(id, _, truth, _, _, inner) => [Step(depth, id, Some(truth))] + FlatAll(depth, inner)
  }

  ghost function FlatAll<V>(depth: nat, ts: seq<Trail<V>>): seq<Step>
    decreases ts, 0
  {
    if ts == [] then [] else FlatAll(depth, ts[..|ts| - 1]) + Flat(depth, ts[|ts| - 1])
  }

  /** The steps at one depth. */
  function Seen(depth: nat, steps: seq<Step>): seq<Step> {
    if steps == [] then []
    else
      var last := steps[|steps| - 1];
      Seen(depth, steps[..|steps| - 1]) + if last.depth == depth then [last] else []
  }

  ghost predicate Passes<V>(t: Trail<V>, id: nat)
    decreases t, 1
  {
    match t
    case Skipped => false
    case Ran(own, _, _, _) => own == id
    case Tested(own, _, _, _, _, inner) => own == id || PassesAny(inner, id)
  }

  ghost predicate PassesAny<V>(ts: seq<Trail<V>>, id: nat)
    decreases ts, 0
  {
    ts != [] && (PassesAny(ts[..|ts| - 1], id) || Passes(ts[|ts| - 1], id))
  }

  ghost predicate Stops<V>(stop: Option<nat>, ts: seq<Trail<V>>) {
    stop.Some? && PassesAny(ts, stop.value)
  }

  function Top(metas: seq<Meta>): Option<Meta> {
    if metas == [] then None else Some(metas[|metas| - 1])
  }

  predicate Broken(top: Option<Meta>) {
    top.Some? && top.value.isBreak
  }

  /** The replays under way after the statements in `ts` were walked. */
  ghost function After<V>(metas: seq<Meta>, ts: seq<Trail<V>>): seq<Meta> {
    if metas == [] then []
    else
      var m := metas[|metas| - 1];
      metas[..|metas| - 1] + [m.(isBreak := m.isBreak || Stops(m.stopped, ts))]
  }

  /**
   `t` is a walk of `s`, which is not skipped. A test that runs no setter leaves the evaluator
   at the `if`, and one whose reads rest comes out as its value says.
   */
  ghost predicate Follows<V>(env: Env<V>, target: string, top: Option<Meta>, s: Stmt, t: Trail<V>)
    decreases t, 1
  {
    if s.If? then
      && t.Tested? && t.id == s.id
      && TestIs(env, target, s, t.pre, t.truth, t.after, t.mid)
      && FollowsAll(env, target, top, false, Branch(top, s, t.truth, t.after), t.inner)
    else t.Ran? && t.id == s.id && Stepped(env, s, t.pre, t.mid, t.post)
  }

  /** `ts` is a walk of `ss`: up to the statement to stop at, and nothing after it. */
  ghost predicate FollowsAll<V>(env: Env<V>, target: string, top: Option<Meta>, broken: bool, ss: seq<Stmt>, ts: seq<Trail<V>>)
    decreases ts, 0
  {
    |ts| == |ss|
    && (ss != [] ==>
          var n := |ss| - 1;
          && FollowsAll(env, target, top, broken, ss[..n], ts[..n])
          && if broken || (top.Some? && Stops(top.value.stopped, ts[..n])) then ts[n].Skipped?
             else Follows(env, target, top, ss[n], ts[n]))
  }

  /** Both have the same steps at every depth below `depth`. */
  ghost predicate SeenAlike(depth: nat, a: seq<Step>, b: seq<Step>) {
    forall d :: 0 <= d < depth ==> Seen(d, a) == Seen(d, b)
  }

  lemma {:induction false} OneStep(depth: nat, steps: seq<Step>, step: Step)
    requires step.depth == depth
    ensures Seen(depth, steps + [step]) == Seen(depth, steps) + [step]
    ensures SeenAlike(depth, steps, steps + [step])
  {
    assert (steps + [step])[..|steps|] == steps;
  }

  lemma {:induction false} AfterMore<V>(metas: seq<Meta>, ts: seq<Trail<V>>, t: Trail<V>)
    ensures After(After(metas, ts), [t]) == After(metas, ts + [t])
    ensures After<V>(metas, []) == metas
  {
    assert (ts + [t])[..|ts|] == ts;
    assert [t][..0] == [];
    if metas != [] {
      var m := metas[|metas| - 1];
      assert metas == metas[..|metas| - 1] + [m];
      if m.stopped.Some? {
        assert PassesAny(ts + [t], m.stopped.value) == (PassesAny(ts, m.stopped.value) || Passes(t, m.stopped.value));
        assert PassesAny([t], m.stopped.value) == (PassesAny<V>([], m.stopped.value) || Passes(t, m.stopped.value));
      }
    }
  }

  /** Passing a statement, then checking whether it is the one to stop at. */
  lemma {:induction false} AfterOne<V>(metas: seq<Meta>, between: seq<Meta>, id: nat, t: Trail<V>)
    requires (t.Ran? && t.id == id && between == metas) || (t.Tested? && t.id == id && between == After(metas, t.inner))
    ensures After(metas, [t])
            == if between != [] && between[|between| - 1].stopped == Some(id)
               then between[..|between| - 1] + [between[|between| - 1].(isBreak := true)] else between
  {
    assert [t][..0] == [];
    if metas != [] {
      var m := metas[|metas| - 1];
      assert metas == metas[..|metas| - 1] + [m];
      if m.stopped.Some? {
        assert PassesAny([t], m.stopped.value) == (PassesAny<V>([], m.stopped.value) || Passes(t, m.stopped.value));
      }
    }
  }

  lemma {:induction false} FollowsMore<V>(env: Env<V>, target: string, metas: seq<Meta>, ss: seq<Stmt>, i: nat, ts: seq<Trail<V>>, t: Trail<V>)
    requires i < |ss| && FollowsAll(env, target, Top(metas), Broken(Top(metas)), ss[..i], ts)
    requires if Broken(Top(After(metas, ts))) then t.Skipped? else Follows(env, target, Top(After(metas, ts)), ss[i], t)
    ensures FollowsAll(env, target, Top(metas), Broken(Top(metas)), ss[..i + 1], ts + [t])
  {
    assert ss[..i + 1][..i] == ss[..i] && (ts + [t])[..i] == ts;
    if !Broken(Top(After(metas, ts))) && metas != [] {
      assert Top(After(metas, ts)) == Top(metas);
    }
  }

  lemma {:induction false} FlatMore<V>(depth: nat, before: seq<Step>, ts: seq<Trail<V>>, t: Trail<V>)
    ensures before + FlatAll(depth, ts) + Flat(depth, t) == before + FlatAll(depth, ts + [t])
  {
    assert (ts + [t])[..|ts|] == ts;
  }

  lemma {:induction false} FlatTested<V>(depth: nat, before: seq<Step>, t: Trail<V>)
    requires t.Tested?
    ensures before + [Step(depth, t.id, Some(t.truth))] + FlatAll(depth, t.inner) == before + Flat(depth, t)
  {
  }

  /** One statement more, from where the walk ended. */
  lemma {:induction false} StartsMore<V>(pre: Store<V>, ts: seq<Trail<V>>, t: Trail<V>)
    requires StartsAll(ts, pre) && Starts(t, PostAll(ts, pre))
    ensures StartsAll(ts + [t], pre) && PostAll(ts + [t], pre) == PostOf(t, PostAll(ts, pre))
  {
    assert (ts + [t])[..|ts|] == ts;
  }

  // ---------------------------------------------------------------------------------
  // What walking one statement, or several, does
  // ---------------------------------------------------------------------------------

  /** The replays under way, the store, and the steps seen at this depth. */
  datatype Point<V> = Point(metas: seq<Meta>, store: Store<V>, seen: seq<Step>)

  ghost predicate Walks<V>(env: Env<V>, target: string, a: Point<V>, s: Stmt, t: Trail<V>, b: Point<V>) {
    && b == Point(After(a.metas, [t]), PostOf(t, a.store), a.seen + Flat(|a.metas|, t)) && Starts(t, a.store)
    && (if Broken(Top(a.metas)) then t.Skipped? else Follows(env, target, Top(a.metas), s, t))
  }

  ghost predicate WalksAll<V>(env: Env<V>, target: string, a: Point<V>, ss: seq<Stmt>, ts: seq<Trail<V>>, b: Point<V>) {
    && b == Point(After(a.metas, ts), PostAll(ts, a.store), a.seen + FlatAll(|a.metas|, ts)) && StartsAll(ts, a.store)
    && FollowsAll(env, target, Top(a.metas), Broken(Top(a.metas)), ss, ts)
  }

  lemma {:induction false} WalksNone<V>(env: Env<V>, target: string, a: Point<V>)
    ensures WalksAll(env, target, a, [], [], a)
  {
    AfterMore<V>(a.metas, [], Skipped);
  }

  lemma {:induction false} WalksMore<V>(env: Env<V>, target: string, a: Point<V>, ss: seq<Stmt>, i: nat, ts: seq<Trail<V>>, b: Point<V>, t: Trail<V>, c: Point<V>)
    requires i < |ss| && WalksAll(env, target, a, ss[..i], ts, b) && Walks(env, target, b, ss[i], t, c)
    ensures WalksAll(env, target, a, ss[..i + 1], ts + [t], c)
  {
    AfterMore(a.metas, ts, t);
    FollowsMore(env, target, a.metas, ss, i, ts, t);
    StartsMore(a.store, ts, t);
    FlatMore(|a.metas|, a.seen, ts, t);
  }

  /** A statement walked but for the check whether it was the one to stop at. */
  ghost predicate Lives<V>(env: Env<V>, target: string, a: Point<V>, s: Stmt, t: Trail<V>, b: Point<V>) {
    && Follows(env, target, Top(a.metas), s, t) && Starts(t, a.store)
    && b == Point(if t.Tested? then After(a.metas, t.inner) else a.metas, PostOf(t, a.store), a.seen + Flat(|a.metas|, t))
  }

  /** The test of an `if` between `a` and `b`. */
  ghost predicate TestIs<V>(env: Env<V>, target: string, s: Stmt, pre: Store<V>, truth: bool, after: nat, mid: Store<V>)
    requires s.If?
  {
    && (AtHand(env, pre, target, s.test) ==> after == s.id && mid == pre)
    && (AtRest(env, pre, target, s.test) ==> truth == env.interp.truthy(HandValue(env, pre, target, s.test)) && Rested(env, pre, mid))
  }

  lemma {:induction false} IfLives<V>(env: Env<V>, target: string, a: Point<V>, s: Stmt, t: Trail<V>, mid: Point<V>, b: Point<V>)
    requires s.If? && !Broken(Top(a.metas)) && t.Tested? && t.id == s.id && t.pre == a.store
    requires TestIs(env, target, s, a.store, t.truth, t.after, t.mid)
    requires mid == Point(a.metas, t.mid, a.seen + [Step(|a.metas|, s.id, Some(t.truth))])
    requires WalksAll(env, target, mid, Branch(Top(a.metas), s, t.truth, t.after), t.inner, b)
    ensures Lives(env, target, a, s, t, b)
  {
    FlatTested(|a.metas|, a.seen, t);
  }

  lemma {:induction false} WalksLive<V>(env: Env<V>, target: string, a: Point<V>, s: Stmt, t: Trail<V>, b: Point<V>, c: Point<V>)
    requires !Broken(Top(a.metas)) && Lives(env, target, a, s, t, b)
    requires c.store == b.store && c.seen == b.seen
    requires c.metas == if b.metas != [] && b.metas[|b.metas| - 1].stopped == Some(s.id)
                        then b.metas[..|b.metas| - 1] + [b.metas[|b.metas| - 1].(isBreak := true)] else b.metas
    ensures Walks(env, target, a, s, t, c)
  {
    AfterOne(a.metas, b.metas, s.id, t);
  }

  /** `t` is a walk of the statement of the setter, from the store `pre` on, with the setter's branch and stop. */
  ghost predicate Replays<V>(env: Env<V>, target: string, setter: Setter, pre: Store<V>, t: Trail<V>) {
    Starts(t, pre)
    && (setter.stmt < |env.body| ==>
          Follows(env, target, Some(Order(setter)), env.body[setter.stmt], t))
  }

  // ---------------------------------------------------------------------------------
  // What a walk with a stop is
  // ---------------------------------------------------------------------------------

  ghost predicate NothingSkipped<V>(t: Trail<V>)
    decreases t, 1
  {
    match t
    case Skipped => false
    case Ran(_, _, _, _) => true
    case Tested(_, _, _, _, _, inner) => NoneSkipped(inner)
  }

  ghost predicate NoneSkipped<V>(ts: seq<Trail<V>>)
    decreases ts, 0
  {
    ts != [] ==> NoneSkipped(ts[..|ts| - 1]) && NothingSkipped(ts[|ts| - 1])
  }

  /** If the statement to stop at is not passed, every statement is walked to the end of the branch. */
  lemma {:induction false} NotReachedIsComplete<V>(env: Env<V>, target: string, top: Option<Meta>, ss: seq<Stmt>, ts: seq<Trail<V>>)
    requires FollowsAll(env, target, top, false, ss, ts) && (top.Some? ==> !Stops(top.value.stopped, ts))
    ensures NoneSkipped(ts)
    decreases ts, 0
  {
    if ss != [] {
      var n := |ss| - 1;
      assert top.Some? && top.value.stopped.Some? ==> !PassesAny(ts[..n], top.value.stopped.value) && !Passes(ts[n], top.value.stopped.value);
      NotReachedIsComplete(env, target, top, ss[..n], ts[..n]);
      if ts[n].Tested? {
        NotReachedIsComplete(env, target, top, Branch(top, ss[n], ts[n].truth, ts[n].after), ts[n].inner);
      }
    }
  }

  /** No `if` of the walk has this id. */
  ghost predicate TestsAvoid<V>(t: Trail<V>, id: nat)
    decreases t, 1
  {
    t.Tested? ==> t.id != id && AllTestsAvoid(t.inner, id)
  }

  ghost predicate AllTestsAvoid<V>(ts: seq<Trail<V>>, id: nat)
    decreases ts, 0
  {
    ts != [] ==> AllTestsAvoid(ts[..|ts| - 1], id) && TestsAvoid(ts[|ts| - 1], id)
  }

  /** The statement to stop at, once passed, is the last one passed, and was not passed before. */
  lemma {:induction false} StopIsLast<V>(env: Env<V>, target: string, top: Meta, ss: seq<Stmt>, ts: seq<Trail<V>>, depth: nat)
    requires FollowsAll(env, target, Some(top), false, ss, ts) && Stops(top.stopped, ts) && AllTestsAvoid(ts, top.stopped.value)
    ensures var steps := FlatAll(depth, ts);
            && steps != [] && steps[|steps| - 1] == Step(depth, top.stopped.value, None)
            && forall i :: 0 <= i < |steps| - 1 ==> steps[i].id != top.stopped.value
    decreases ts, 0
  {
    var id := top.stopped.value;
    assert ts != [];
    var n := |ss| - 1;
    var front, last := ts[..n], ts[n];
    assert PassesAny(front, id) || Passes(last, id);
    assert FlatAll(depth, ts) == FlatAll(depth, front) + Flat(depth, last);
    assert AllTestsAvoid(front, id) && TestsAvoid(last, id);
    if PassesAny(front, id) {
      StopIsLast(env, target, top, ss[..n], front, depth);
      assert FlatAll(depth, ts) == FlatAll(depth, front);
    } else {
      NotPassed(depth, front, id);
      if last.Tested? {
        StopIsLast(env, target, top, Branch(Some(top), ss[n], last.truth, last.after), last.inner, depth);
      }
    }
  }

  lemma {:induction false} NotPassed<V>(depth: nat, ts: seq<Trail<V>>, id: nat)
    requires !PassesAny(ts, id)
    ensures forall i :: 0 <= i < |FlatAll(depth, ts)| ==> FlatAll(depth, ts)[i].id != id
    decreases ts, 0
  {
    if ts != [] {
      var last := ts[|ts| - 1];
      assert !PassesAny(ts[..|ts| - 1], id) && !Passes(last, id);
      assert FlatAll(depth, ts) == FlatAll(depth, ts[..|ts| - 1]) + Flat(depth, last);
      NotPassed(depth, ts[..|ts| - 1], id);
      if last.Tested? { NotPassed(depth, last.inner, id); }
    }
  }

  /** The ids of the `if`s among these statements and inside them. */
  function IfIds(ss: seq<Stmt>): set<nat>
    decreases ss, 0
  {
    if ss == [] then {} else IfIds(ss[..|ss| - 1]) + IfIdsOf(ss[|ss| - 1])
  }

  function IfIdsOf(s: Stmt): set<nat>
    decreases s, 1
  {
    if s.If? then {s.id} + IfIds(s.body) + IfIds(s.orelse) else {}
  }

  lemma {:induction false} TestsHaveIds<V>(env: Env<V>, target: string, top: Option<Meta>, broken: bool, ss: seq<Stmt>, ts: seq<Trail<V>>, id: nat)
    requires FollowsAll(env, target, top, broken, ss, ts) && id !in IfIds(ss)
    ensures AllTestsAvoid(ts, id)
    decreases ts, 0
  {
    if ss != [] {
      var n := |ss| - 1;
      TestsHaveIds(env, target, top, broken, ss[..n], ts[..n], id);
      if ts[n].Tested? {
        TestsHaveIds(env, target, top, false, Branch(top, ss[n], ts[n].truth, ts[n].after), ts[n].inner, id);
      }
    }
  }

  /** Every test in the walk, when it was reached, ran no setter. */
  ghost predicate TestsHand<V>(env: Env<V>, target: string, top: Option<Meta>, s: Stmt, t: Trail<V>)
    decreases t, 1
  {
    t.Tested? && s.If? ==>
      AtHand(env, t.pre, target, s.test) && AllTestsHand(env, target, top, Branch(top, s, t.truth, t.after), t.inner)
  }

  ghost predicate AllTestsHand<V>(env: Env<V>, target: string, top: Option<Meta>, ss: seq<Stmt>, ts: seq<Trail<V>>)
    decreases ts, 0
  {
    ts != [] && |ts| == |ss| ==>
      var n := |ts| - 1;
      AllTestsHand(env, target, top, ss[..n], ts[..n]) && TestsHand(env, target, top, ss[n], ts[n])
  }

  /** A replay that asks for no branch: only the statement to stop at counts. */
  function Plain(top: Meta): Meta { top.(kind := Normal) }

  /** Inside the branch of a replayed `if`, other `if`s are walked as usual. */
  lemma {:induction false} NestedIfsRunNormally<V>(env: Env<V>, target: string, top: Meta, broken: bool, ss: seq<Stmt>, ts: seq<Trail<V>>)
    requires FollowsAll(env, target, Some(top), broken, ss, ts) && AllTestsHand(env, target, Some(top), ss, ts)
    requires top.stmtId !in IfIds(ss)
    ensures FollowsAll(env, target, Some(Plain(top)), broken, ss, ts)
    decreases ts, 0
  {
    if ss != [] {
      var n := |ss| - 1;
      NestedIfsRunNormally(env, target, top, broken, ss[..n], ts[..n]);
      if ts[n].Tested? {
        assert ts[n].after != top.stmtId;
        NestedIfsRunNormally(env, target, top, false, Branch(Some(top), ss[n], ts[n].truth, ts[n].after), ts[n].inner);
      }
    }
  }

  /** `inner` is an ordinary walk of `ss` that ends with the statement to stop at, or with the last statement if that is not met. */
  ghost predicate WalkedTo<V>(env: Env<V>, target: string, top: Meta, ss: seq<Stmt>, inner: seq<Trail<V>>, depth: nat) {
    && FollowsAll(env, target, Some(Plain(top)), false, ss, inner)
    && (if Stops(top.stopped, inner) then
          var steps := FlatAll(depth, inner);
          && steps != [] && steps[|steps| - 1] == Step(depth, top.stopped.value, None)
          && forall i :: 0 <= i < |steps| - 1 ==> steps[i].id != top.stopped.value
        else NoneSkipped(inner))
  }

  /**
   Replaying a setter inside an `if`, when no test runs a setter: the wanted branch is walked
   exactly if the condition, in the store where the replay began, is true (for the
   then-branch) or false (for the else-branch), to the statement to stop at; and else nothing.
   The `if`s inside the statement must not share an id with it or with the stop.
   */
  lemma {:induction false} ReplayIsPartial<V>(env: Env<V>, target: string, top: Meta, s: Stmt, t: Trail<V>, depth: nat)
    requires s.If? && Follows(env, target, Some(top), s, t) && s.id == top.stmtId && top.stopped.Some?
    requires TestsHand(env, target, Some(top), s, t)
    requires top.stmtId !in IfIds(s.body) + IfIds(s.orelse) && top.stopped.value !in IfIds(s.body) + IfIds(s.orelse)
    ensures var truth := env.interp.truthy(HandValue(env, t.pre, target, s.test));
            && (top.kind == OnlyIf ==> if truth then WalkedTo(env, target, top, s.body, t.inner, depth) else t.inner == [])
            && (top.kind == OnlyOrElse ==> if truth then t.inner == [] else WalkedTo(env, target, top, s.orelse, t.inner, depth))
  {
    var ss := Branch(Some(top), s, t.truth, t.after);
    HandRests(env, t.pre, target, s.test);
    NestedIfsRunNormally(env, target, top, false, ss, t.inner);
    if Stops(top.stopped, t.inner) {
      TestsHaveIds(env, target, Some(top), false, ss, t.inner, top.stopped.value);
      StopIsLast(env, target, top, ss, t.inner, depth);
    } else {
      NotReachedIsComplete(env, target, Some(top), ss, t.inner);
    }
  }

  /**
   With a test at hand, a replay for a branch that has statements walks nothing if and only if
   the condition is for the other; and then it leaves the store as it was.
   */
  lemma {:induction false} UntakenWalksNothing<V>(env: Env<V>, target: string, top: Meta, s: Stmt, t: Trail<V>)
    requires s.If? && Follows(env, target, Some(top), s, t) && s.id == top.stmtId
    requires AtHand(env, t.pre, target, s.test)
    ensures |t.inner| == |Wanted(top.kind, s, env.interp.truthy(HandValue(env, t.pre, target, s.test)))|
    ensures top.kind != Normal && (if top.kind == OnlyIf then s.body else s.orelse) != [] ==>
              (t.inner == [] <==> env.interp.truthy(HandValue(env, t.pre, target, s.test)) != (top.kind == OnlyIf))
    ensures t.inner == [] ==> PostOf(t, t.pre) == t.pre
  {
    HandRests(env, t.pre, target, s.test);
  }

  /** Outside a replay every statement is walked, from where the one before ended. */
  lemma {:induction false} WalkedAt<V>(env: Env<V>, target: string, ss: seq<Stmt>, ts: seq<Trail<V>>, pre: Store<V>, i: nat)
    requires FollowsAll(env, target, None, false, ss, ts) && StartsAll(ts, pre) && i < |ss|
    ensures Follows(env, target, None, ss[i], ts[i]) && Starts(ts[i], PostAll(ts[..i], pre))
    ensures PostAll(ts[..i + 1], pre) == PostOf(ts[i], PostAll(ts[..i], pre))
    decreases |ss|
  {
    var n := |ss| - 1;
    assert ts[..i + 1][..i] == ts[..i];
    if i < n {
      WalkedAt(env, target, ss[..n], ts[..n], pre, i);
      assert ts[..n][..i] == ts[..i];
    } else {
      assert ts[..i + 1] == ts;
    }
  }

  // ---------------------------------------------------------------------------------
  // Walks that follow their course
  // ---------------------------------------------------------------------------------

  /** The assignments a walk passes, in order. */
  ghost function PassedBy<V>(top: Option<Meta>, s: Stmt, t: Trail<V>): seq<Leaf>
    decreases t, 1
  {
    match t
    case Skipped => []
    case Ran(_, _, _, _) => Named(Targets(s), s.id)
    case Tested(_, _, truth, after, _, inner) => if s.If? then PassedIn(top, Branch(top, s, truth, after), inner) else []
  }

  ghost function PassedIn<V>(top: Option<Meta>, ss: seq<Stmt>, ts: seq<Trail<V>>): seq<Leaf>
    decreases ts, 0
  {
    if ts == [] || |ss| != |ts| then []
    else PassedIn(top, ss[..|ss| - 1], ts[..|ts| - 1]) + PassedBy(top, ss[|ss| - 1], ts[|ts| - 1])
  }

  /** The course leads where the walk does, and passes the same assignments. */
  ghost predicate Agrees<V>(c: Course<V>, after: Course<V>, post: Store<V>, broken: bool, passed: seq<Leaf>) {
    after.store == post && after.broken == (c.broken || broken) && after.passed == c.passed + passed
  }

  /** When everything is at hand, a walk is the course that its first store determines. */
  lemma {:induction false} WalkIsCourse<V>(env: Env<V>, target: string, top: Option<Meta>, s: Stmt, t: Trail<V>, c: Course<V>)
    requires if c.broken then t.Skipped? else Follows(env, target, top, s, t)
    requires Starts(t, c.store) && CourseOf(env, target, top, s, c).ok
    ensures Agrees(c, CourseOf(env, target, top, s, c), PostOf(t, c.store),
                   top.Some? && top.value.stopped.Some? && Passes(t, top.value.stopped.value), PassedBy(top, s, t))
    decreases t, 1
  {
    if !c.broken && s.If? {
      IfIsCourse(env, target, top, s, t, c);
    } else if !c.broken && Targets(s) != [] {
      HandRests(env, c.store, Targets(s)[|Targets(s)| - 1], Meaning(s));
    }
  }

  lemma {:induction false} IfIsCourse<V>(env: Env<V>, target: string, top: Option<Meta>, s: Stmt, t: Trail<V>, c: Course<V>)
    requires s.If? && !c.broken && Follows(env, target, top, s, t) && Starts(t, c.store) && CourseOf(env, target, top, s, c).ok
    ensures Agrees(c, CourseOf(env, target, top, s, c), PostOf(t, c.store),
                   top.Some? && top.value.stopped.Some? && Passes(t, top.value.stopped.value), PassedBy(top, s, t))
    decreases t, 0
  {
    var branch := Branch(top, s, env.interp.truthy(HandValue(env, c.store, target, s.test)), s.id);
    var hand := c.(ok := c.ok && AtHand(env, c.store, target, s.test));
    if branch != [] { CourseAllIsLater(env, target, top, branch, hand); }
    HandRests(env, c.store, target, s.test);
    assert branch == Branch(top, s, t.truth, t.after) && t.mid == c.store;
    if branch != [] { WalkIsCourseAll(env, target, top, branch, t.inner, hand); }
  }

  lemma {:induction false} WalkIsCourseAll<V>(env: Env<V>, target: string, top: Option<Meta>, ss: seq<Stmt>, ts: seq<Trail<V>>, c: Course<V>)
    requires FollowsAll(env, target, top, c.broken, ss, ts)
    requires StartsAll(ts, c.store) && CourseOfAll(env, target, top, ss, c).ok
    ensures Agrees(c, CourseOfAll(env, target, top, ss, c), PostAll(ts, c.store),
                   top.Some? && Stops(top.value.stopped, ts), PassedIn(top, ss, ts))
    decreases ts, 0
  {
    if ss != [] {
      var n := |ss| - 1;
      var between := CourseOfAll(env, target, top, ss[..n], c);
      CourseIsLater(env, target, top, ss[n], between);
      WalkIsCourseAll(env, target, top, ss[..n], ts[..n], c);
      WalkIsCourse(env, target, top, ss[n], ts[n], between);
    }
  }

  /** The replay that a foreseen lookup runs passes an assignment of the name if and only if its course gives the name a value. */
  lemma {:induction false} LookupIsForeseen<V>(env: Env<V>, s: Store<V>, target: string, z: string, t: Trail<V>)
    requires Foreseen(env, s, target, z) && Replays(env, target, NextSetter(env, s, z), Enter(s, z), t)
    ensures var course, setter := LookupCourse(env, s, target, z), NextSetter(env, s, z);
            && PostOf(t, Enter(s, z)) == course.store
            && PassedBy(Some(Order(setter)), env.body[setter.stmt], t) == course.passed
            && (z in course.given <==> SetBy(PassedBy(Some(Order(setter)), env.body[setter.stmt], t), z))
  {
    var setter := NextSetter(env, s, z);
    WalkIsCourse(env, target, Some(Order(setter)), env.body[setter.stmt], t, Begin(Enter(s, z)));
    LookupFinds(env, s, target, z);
  }

  /** So the lookup, its level put back and its value cached, is the foreseen one. */
  lemma {:induction false} LookupReturns<V>(env: Env<V>, s: Store<V>, target: string, z: string, t: Trail<V>, r: V, after: Store<V>)
    requires LevelOf(s.levels, z) < |Entries(env.setters, z)| && Replays(env, target, NextSetter(env, s, z), Enter(s, z), t)
    requires after == Left(PostOf(t, Enter(s, z)), z, LevelOf(s.levels, z), r)
    requires z in after.variables ==> r == after.variables[z]
    ensures LookupIs(env, s, target, z, r, after)
  {
    if Foreseen(env, s, target, z) {
      LookupIsForeseen(env, s, target, z, t);
      LookupFinds(env, s, target, z);
    }
  }
}

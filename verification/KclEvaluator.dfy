/**
 The lazy evaluator of a module body (crates/evaluator/src/lazy.rs, node.rs, context.rs and
 scope.rs). Reading a global name that has no cached value runs the name's setters, last one
 first, each deeper one only when the name reads itself; a level counter per name says how
 deep it is.

 Every method promises that it ends, that it leaves the level counters usable, and which
 statements it walked (`Kept`, `KclReplay`). For straight-line bodies without cycles it also
 promises what is read and stored, in terms of the meaning in `KclMeaning`; the ghost flag
 `right` tells whether every read of another name so far gave that name's full value.
 */
module KclEvaluator {
  import opened Wrappers
  import opened KclSetters
  import opened KclMeaning
  import opened KclLevels
  import opened KclReads
  import opened KclCourse
  import opened KclReplay
  import opened KclJobs

  class Evaluator<V> {
    const body: seq<Stmt>
    const setters: Table
    const interp: Interp<V>
    ghost const rank: string -> nat
    var variables: map<string, V>
    var cache: map<string, V>
    var levels: Levels
    var calTimes: map<string, nat>
    var targetVars: seq<string>
    var backtrack: seq<Meta>
    var astId: nat
    ghost var done: nat
    ghost var right: bool
    ghost var ran: seq<Step>

    /** The global scope of a body: every name it defines is there, undefined. */
    constructor (body: seq<Stmt>, interp: Interp<V>, ghost rank: string -> nat)
      ensures this.body == body && this.interp == interp && this.rank == rank
      ensures forall x :: Entries(setters, x) == Setters(body, x)
      ensures variables == map x | x in Defined(body) :: interp.undefined
      ensures cache == map[] && levels == map[] && targetVars == [] && backtrack == []
      ensures done == 0 && right && ran == []
    {
      var table := EmitSetters(body);
      this.body, this.setters, this.interp, this.rank := body, table, interp, rank;
      variables := map x | x in Defined(body) :: interp.undefined;
      cache, levels, calTimes, targetVars, backtrack, astId := map[], map[], map[], [], [], 0;
      done, right, ran := 0, true, [];
    }

    ghost function Code(): Program<V> { Program(body, interp, rank) }

    ghost function Budget(): nat
      reads this
    {
      Rooms(setters.Keys, setters, levels)
    }

    ghost predicate Emitted() { TableFits(setters, body) }

    ghost function Now(): Scope<V>
      reads this
    {
      Scope(variables, cache, levels, done, right)
    }

    ghost function World(): Env<V> { Env(body, setters, interp) }

    ghost function Held(): Store<V>
      reads this
    {
      Store(variables, cache, levels)
    }

    ghost function Here(): Point<V>
      reads this
    {
      Point(backtrack, Held(), Seen(|backtrack|, ran))
    }

    /** The job is being evaluated, and `e` is part of it. */
    ghost predicate Running(job: Job, e: Expr)
      reads this
    {
      Emitted() && Due(Code(), Now(), job) && TargetVar() == job.x && Fits(Code(), job.x, job.at, e)
    }

    /** What every step keeps; of the statements walked, those at depths below `depth`. */
    twostate predicate Kept(depth: nat)
      reads this
    {
      && KeptLevels(setters, old(levels), levels) && Budget() == old(Budget())
      && targetVars == old(targetVars) && done == old(done) && (right ==> old(right))
      && SeenAlike(depth, old(ran), ran)
    }

    function TargetVar(): string
      reads this
    {
      if targetVars == [] then "" else targetVars[|targetVars| - 1]
    }

    /** Reading `e` runs no setter: the evaluator stays where it is. */
    twostate predicate Untouched()
      reads this
    {
      Held() == old(Held()) && astId == old(astId) && ran == old(ran)
    }

    // -------------------------------------------------------------------------------
    // The whole module
    // -------------------------------------------------------------------------------

    ghost predicate Started()
      reads this
    {
      && (forall x :: Entries(setters, x) == Setters(body, x))
      && variables == (map x | x in Defined(body) :: interp.undefined)
      && cache == map[] && levels == map[] && targetVars == [] && backtrack == []
      && done == 0 && right
    }

    /** All statements in order. */
    method WalkModule() returns (ghost ts: seq<Trail<V>>)
      modifies this
      requires Started()
      ensures WalksAll(World(), "", old(Here()), body, ts, Here())
      ensures forall x :: LevelOf(levels, x) == 0
      ensures Tame(Code()) && WellTimed(Code()) ==> right
      ensures Tame(Code()) && right ==>
                forall x :: Stores(body, x, |body|) > 0 ==>
                  x in variables && variables[x] == Full(Code(), x) && x in cache && cache[x] == Full(Code(), x)
      ensures Tame(Code()) && right ==> AllSettled(|body|)
    {
      if Tame(Code()) {
        StartIsGood(Code(), variables);
        TameIsStraight(Code());
        forall x ensures ListFits(Entries(setters, x), body, x) { SettersFit(body, x); }
      }
      ts := [];
      ghost var start := Here();
      WalksNone(World(), "", start);
      for i := 0 to |body|
        invariant i == done && backtrack == [] && targetVars == []
        invariant WalksAll(World(), "", start, body[..i], ts, Here())
        invariant forall x :: LevelOf(levels, x) == 0
        invariant Tame(Code()) && WellTimed(Code()) ==> right
        invariant Tame(Code()) && right ==> Good(Code(), Now()) && AllSettled(i)
      {
        ghost var here := Here();
        ghost var t := WalkTop(i);
        WalksMore(World(), "", start, body, i, ts, here, t, Here());
        ts := ts + [t];
      }
      assert body[..|body|] == body;
      if Tame(Code()) && right { EndIsFull(Code(), Now()); }
    }

    /** One statement at the top level. */
    method WalkTop(i: nat) returns (ghost t: Trail<V>)
      modifies this
      requires i < |body| && i == done && backtrack == [] && (Tame(Code()) ==> Emitted())
      requires forall x :: LevelOf(levels, x) == 0
      requires Tame(Code()) && right ==> Good(Code(), Now())
      ensures done == i + 1 && backtrack == [] && targetVars == old(targetVars) && forall x :: LevelOf(levels, x) == 0
      ensures Walks(World(), old(TargetVar()), old(Here()), body[i], t, Here())
      ensures right ==> old(right)
      ensures Tame(Code()) && right ==> Good(Code(), Now())
      ensures Tame(Code()) && right ==> forall x :: Sets(body[i], x) ==> SettledIn(Code(), i, x, Meaning(body[i]))
      ensures Tame(Code()) && old(right) && WellTimed(Code()) ==> right
    {
      ghost var job := if Tame(Code()) && Targets(body[i]) != [] then Some(Job(Targets(body[i])[0], i)) else None;
      if Tame(Code()) { TameIsStraight(Code()); }
      t := WalkStmt(body[i], job);
      if Tame(Code()) && right { TopIsGood(Code(), Now(), job); }
      done := done + 1;
    }

    /** The first `n` statements each read, of other names, what these names are in the end. */
    ghost predicate AllSettled(n: nat)
      requires n <= |body|
    {
      forall i, x :: 0 <= i < n && Sets(body[i], x) ==> SettledIn(Code(), i, x, Meaning(body[i]))
    }

    // -------------------------------------------------------------------------------
    // The lazy scope
    // -------------------------------------------------------------------------------

    method CalIncrement(key: string) returns (r: bool)
      modifies this`calTimes
      ensures var times := (if key in old(calTimes) then old(calTimes)[key] else 0) + 1;
              if LevelOf(levels, key) > 0 then !r && calTimes == old(calTimes)
              else calTimes == old(calTimes)[key := times] && r == (times >= |Entries(setters, key)|)
    {
      if LevelOf(levels, key) > 0 { return false; }
      var next := (if key in calTimes then calTimes[key] else 0) + 1;
      calTimes := calTimes[key := next];
      r := next >= |Entries(setters, key)|;
    }

    predicate IsLastSetter(key: string)
      reads this
    {
      var list := Entries(setters, key);
      LevelOf(levels, key) == 0 && list != []
      && var last := list[|list| - 1];
         (if last.stopped.Some? then last.stopped.value else last.stmtId) == astId
    }

    /** A store of `key` now is counted as its last, or is made by its last setter. */
    ghost predicate Completes(key: string)
      reads this
    {
      LevelOf(levels, key) == 0
      && ((if key in calTimes then calTimes[key] else 0) + 1 >= |Entries(setters, key)| || IsLastSetter(key))
    }

    method SetValueToLazyScope(key: string, value: V)
      modifies this`calTimes, this`cache
      ensures cache == if old(Completes(key)) && key !in old(cache) then old(cache)[key := value] else old(cache)
    {
      var last := CalIncrement(key);
      if (last || IsLastSetter(key)) && key !in cache {
        cache := cache[key := value];
      }
    }

    /** Store a global variable. One that exists already is put in the cache whatever was there. */
    method StoreGlobal(name: string, value: V)
      modifies this`calTimes, this`cache, this`variables
      ensures variables == old(variables)[name := value]
      ensures cache == if name in old(variables) || (old(Completes(name)) && name !in old(cache))
                       then old(cache)[name := value] else old(cache)
    {
      var existed := name in variables;
      variables := variables[name := value];
      SetValueToLazyScope(name, value);
      if existed {
        cache := cache[name := value];
      }
    }

    method LoadName(z: string, ghost job: Option<Job>) returns (r: V)
      modifies this
      requires job.Some? ==> Running(job.value, Name(z))
      ensures Kept(|old(backtrack)| + 1) && backtrack == old(backtrack)
      ensures AtHand(World(), old(Held()), old(TargetVar()), Name(z)) ==> Untouched()
      ensures ReadRests(World(), old(Held()), Held(), old(TargetVar()), Name(z), r)
      ensures job.Some? ==> Reads(Code(), old(Now()), Now(), job.value, Name(z), r)
      decreases Budget(), 1, 2
    {
      if z !in variables {
        if job.Some? { MissingIsRead(Code(), Now(), job.value, z); }
        return interp.undefined;
      }
      r := GetValueFromLazyScope(z, TargetVar(), variables[z], job);
      if job.Some? { FetchesIsReads(Code(), old(Now()), Now(), job.value, z, r); }
      if z != TargetVar() {
        right := right && r == Full(Code(), z);
      }
    }

    method GetValueFromLazyScope(key: string, target: string, default: V, ghost job: Option<Job>) returns (r: V)
      modifies this
      requires key in variables && default == variables[key] && target == TargetVar()
      requires job.Some? ==> Running(job.value, Name(key))
      ensures Kept(|old(backtrack)| + 1) && backtrack == old(backtrack)
      ensures AtHand(World(), old(Held()), target, Name(key)) ==> Untouched()
      ensures ReadRests(World(), old(Held()), Held(), target, Name(key), r)
      ensures job.Some? ==> Fetches(Code(), old(Now()), Now(), job.value, key, r)
      decreases Budget(), 1, 1
    {
      if job.Some? { AskedFor(Code(), setters, Now(), job.value, key); }
      if key == target && (LevelOf(levels, key) == 0 || |Entries(setters, key)| <= 1) { return default; }
      if key in cache { return cache[key]; }
      if Entries(setters, key) == [] { return default; }
      ghost var held := Held();
      r := Backtrack(key, default, job);
      LookupRests(World(), held, TargetVar(), key, r, Held());
    }

    /** No value yet: run the setter one level deeper, if there is one. */
    method Backtrack(key: string, default: V, ghost job: Option<Job>) returns (r: V)
      modifies this
      requires Entries(setters, key) != [] && key in variables && default == variables[key]
      requires job.Some? ==> Emitted() && Uncached(Code(), Now(), job.value, key)
      ensures Kept(|old(backtrack)| + 1) && backtrack == old(backtrack)
      ensures job.Some? ==> Fetches(Code(), old(Now()), Now(), job.value, key, r)
      ensures LevelOf(old(levels), key) >= |Entries(setters, key)| ==>
                r == default && levels == old(levels)[key := LevelOf(old(levels), key) + 1]
                && variables == old(variables) && cache == old(cache)
      ensures LookupIs(World(), old(Held()), old(TargetVar()), key, r, Held())
      decreases Budget(), 1, 0
    {
      if job.Some? {
        NextIsDue(Code(), Now(), job.value, key);
        NextSetterFits(Code(), setters, Now(), key);
      }
      // The source subtracts with wrap-around, which puts the index above the end in the first case.
      if LevelOf(levels, key) + 1 > |setters[key]| {
        levels := levels[key := LevelOf(levels, key) + 1];
        KeptRooms(setters.Keys, setters, old(levels), levels);
        return default;
      }
      r := RunNext(key, job);
    }

    /** Below the limit: a lookup that can be foreseen goes as foreseen. */
    method RunNext(key: string, ghost job: Option<Job>) returns (r: V)
      modifies this
      requires LevelOf(levels, key) < |Entries(setters, key)|
      requires job.Some? ==> NextDue(key, job.value)
      ensures Kept(|old(backtrack)| + 1) && backtrack == old(backtrack)
      ensures job.Some? ==> Fetches(Code(), old(Now()), Now(), job.value, key, r)
      ensures LookupIs(World(), old(Held()), old(TargetVar()), key, r, Held())
      decreases Budget(), 0, 2
    {
      ghost var t;
      ghost var held := Held();
      r, t := RunSetter(key, job);
      LookupReturns(World(), held, TargetVar(), key, t, r, Held());
    }

    /** The next setter of `key` is the one due. */
    ghost predicate NextDue(key: string, job: Job)
      reads this
      requires LevelOf(levels, key) < |Entries(setters, key)|
    {
      && Emitted() && Uncached(Code(), Now(), job, key)
      && LevelOf(levels, key) < Stores(body, key, |body|)
      && Due(Code(), Entered(Now(), key), NextJob(Code(), Now(), key))
      && var setter := NextSetter(World(), Held(), key);
         setter.stmt == NextJob(Code(), Now(), key).at && setter.kind == Normal && setter.stopped == None
    }

    /** Run that setter, and return and cache what it leaves in the variable. */
    method RunSetter(key: string, ghost job: Option<Job>) returns (r: V, ghost t: Trail<V>)
      modifies this
      requires LevelOf(levels, key) < |Entries(setters, key)| && Entries(setters, key) != []
      requires job.Some? ==> NextDue(key, job.value)
      ensures Kept(|old(backtrack)| + 1) && backtrack == old(backtrack)
      ensures job.Some? ==> Fetches(Code(), old(Now()), Now(), job.value, key, r)
      ensures r == if key in variables then variables[key] else interp.undefined
      ensures Replays(World(), old(TargetVar()), NextSetter(World(), old(Held()), key), Enter(old(Held()), key), t)
      ensures Held() == Left(PostOf(t, Enter(old(Held()), key)), key, LevelOf(old(levels), key), r)
      decreases Budget(), 0, 1
    {
      ghost var before := Now();
      ghost var held := Held();
      var level := LevelOf(levels, key);
      t := EnterSetter(key, job);
      ghost var inside, within := Now(), Held();
      Restored(setters, before.levels, levels, key);
      r := LeaveSetter(key, level);
      assert Held() == Left(within, key, level, r);
      KeptRooms(setters.Keys, setters, before.levels, levels);
      if job.Some? { BacktrackIsFetched(Code(), before, inside, job.value, key, r); }
    }

    /** Put the level back and cache the variable. */
    method LeaveSetter(key: string, level: nat) returns (r: V)
      modifies this`levels, this`cache
      ensures r == if key in variables then variables[key] else interp.undefined
      ensures levels == old(levels)[key := level] && cache == old(cache)[key := r]
      ensures Now() == old(Now()).(levels := levels, cache := cache)
    {
      r := if key in variables then variables[key] else interp.undefined;
      levels := levels[key := level];
      cache := cache[key := r];
    }

    method EnterSetter(key: string, ghost job: Option<Job>) returns (ghost t: Trail<V>)
      modifies this
      requires LevelOf(levels, key) < |Entries(setters, key)|
      requires job.Some? ==> NextDue(key, job.value)
      ensures KeptLevels(setters, Entered(old(Now()), key).levels, levels) && (right ==> old(right))
      ensures targetVars == old(targetVars) && done == old(done) && backtrack == old(backtrack)
      ensures SeenAlike(|old(backtrack)| + 1, old(ran), ran)
      ensures job.Some? ==> Does(Code(), Entered(old(Now()), key), Now(), NextJob(Code(), old(Now()), key))
      ensures Replays(World(), old(TargetVar()), NextSetter(World(), old(Held()), key), Enter(old(Held()), key), t)
      ensures Held() == PostOf(t, Enter(old(Held()), key))
      decreases Budget(), 0, 0
    {
      ghost var before, held := Now(), Held();
      var level := LevelOf(levels, key);
      levels := levels[key := level + 1];
      assert Now() == Entered(before, key) && Held() == Enter(held, key);
      EnterDrops(setters, before.levels, key);
      var setter := setters[key][|setters[key]| - level - 1];
      assert setter == NextSetter(World(), held, key);
      assert job.Some? ==> Job(key, setter.stmt) == NextJob(Code(), before, key);
      t := WalkStmtsWithSetter(setter, if job.Some? then Some(key) else None);
    }

    method WalkStmtsWithSetter(setter: Setter, ghost x: Option<string>) returns (ghost t: Trail<V>)
      modifies this
      requires x.Some? ==>
                 Emitted() && Due(Code(), Now(), Job(x.value, setter.stmt)) && setter.kind == Normal && setter.stopped == None
      ensures Kept(|old(backtrack)| + 1) && backtrack == old(backtrack)
      ensures x.Some? ==> Does(Code(), old(Now()), Now(), Job(x.value, setter.stmt))
      ensures Replays(World(), old(TargetVar()), setter, old(Held()), t) && Held() == PostOf(t, old(Held()))
      ensures var d := |old(backtrack)| + 1; Seen(d, ran) == Seen(d, old(ran)) + Flat(d, t)
      decreases Budget(), 5
    {
      t := Skipped;
      if setter.stmt < |body| {
        backtrack := backtrack + [Meta(setter.stmtId, setter.stopped, false, setter.kind)];
        t := WalkStmt(body[setter.stmt], if x.Some? then Some(Job(x.value, setter.stmt)) else None);
        backtrack := backtrack[..|backtrack| - 1];
      }
    }

    // -------------------------------------------------------------------------------
    // Statements
    // -------------------------------------------------------------------------------

    method WalkStmt(s: Stmt, ghost job: Option<Job>) returns (ghost t: Trail<V>)
      modifies this
      requires job.Some? ==> Emitted() && Due(Code(), Now(), job.value) && s == body[job.value.at] && !Broken(Top(backtrack))
      ensures Kept(|old(backtrack)|)
      ensures Walks(World(), old(TargetVar()), old(Here()), s, t, Here())
      ensures job.Some? ==> Does(Code(), old(Now()), Now(), job.value)
      ensures s.Other? ==> Now() == old(Now())
      decreases Budget(), 4, s, 4
    {
      if Broken(Top(backtrack)) {
        AfterMore<V>(backtrack, [], Skipped);
        return Skipped;
      }
      t := WalkLive(s, job);
    }

    method WalkLive(s: Stmt, ghost job: Option<Job>) returns (ghost t: Trail<V>)
      modifies this
      requires job.Some? ==> Emitted() && Due(Code(), Now(), job.value) && s == body[job.value.at]
      requires !Broken(Top(backtrack))
      ensures Kept(|old(backtrack)|)
      ensures Walks(World(), old(TargetVar()), old(Here()), s, t, Here())
      ensures job.Some? ==> Does(Code(), old(Now()), Now(), job.value)
      ensures s.Other? ==> Now() == old(Now())
      decreases Budget(), 4, s, 3
    {
      ghost var here := Here();
      astId := s.id;
      assert Now() == old(Now()) && Here() == here;
      t := WalkByKind(s, job);
      ghost var live := Here();
      UpdateBreak(s.id);
      WalksLive(World(), TargetVar(), here, s, t, live, Here());
    }

    method WalkByKind(s: Stmt, ghost job: Option<Job>) returns (ghost t: Trail<V>)
      modifies this
      requires job.Some? ==> Emitted() && Due(Code(), Now(), job.value) && s == body[job.value.at]
      requires !Broken(Top(backtrack)) && astId == s.id
      ensures Kept(|old(backtrack)|) && |backtrack| == |old(backtrack)|
      ensures Lives(World(), old(TargetVar()), old(Here()), s, t, Here())
      ensures job.Some? ==> Does(Code(), old(Now()), Now(), job.value)
      ensures s.Other? ==> Now() == old(Now())
      decreases Budget(), 4, s, 2
    {
      if s.If? {
        t := WalkIf(s);
      } else {
        t := WalkSimple(s, job);
      }
    }

    /** Note that the statement to stop at was passed. */
    method UpdateBreak(id: nat)
      modifies this`backtrack
      ensures backtrack
              == if old(backtrack) != [] && old(backtrack)[|old(backtrack)| - 1].stopped == Some(id)
                 then old(backtrack)[..|old(backtrack)| - 1] + [old(backtrack)[|old(backtrack)| - 1].(isBreak := true)]
                 else old(backtrack)
    {
      if backtrack != [] && backtrack[|backtrack| - 1].stopped == Some(id) {
        backtrack := backtrack[..|backtrack| - 1] + [backtrack[|backtrack| - 1].(isBreak := true)];
      }
    }

    method WalkSimple(s: Stmt, ghost job: Option<Job>) returns (ghost t: Trail<V>)
      modifies this
      requires !s.If?
      requires job.Some? ==> Emitted() && Due(Code(), Now(), job.value) && s == body[job.value.at]
      ensures Kept(|old(backtrack)|) && backtrack == old(backtrack)
      ensures Lives(World(), old(TargetVar()), old(Here()), s, t, Here())
      ensures job.Some? ==> Does(Code(), old(Now()), Now(), job.value)
      ensures s.Other? ==> Now() == old(Now())
      decreases Budget(), 3, 1
    {
      ghost var step := Step(|backtrack|, s.id, None);
      ghost var pre, mid := Held(), Held();
      OneStep(|backtrack|, ran, step);
      ran := ran + [step];
      match s {
        case Assign(_, targets, value) =>
          var v;
          v, mid := WalkAssign(targets, value, job);
        case AugAssign(_, target, op, value) => mid := WalkAugAssign(target, op, value, job);
        case Unification(_, target, value) => mid := WalkAugAssign(target, "|", value, job);
        case Other(_) =>
      }
      t := Ran(s.id, pre, mid, Held());
    }

    method WalkAssign(targets: seq<string>, value: Expr, ghost job: Option<Job>) returns (v: V, ghost mid: Store<V>)
      modifies this
      requires job.Some? ==> Emitted() && Due(Code(), Now(), job.value) && targets == [job.value.x] && Meaning(body[job.value.at]) == value
      ensures Kept(|old(backtrack)| + 1) && backtrack == old(backtrack)
      ensures job.Some? ==> Does(Code(), old(Now()), Now(), job.value)
      ensures forall k :: 0 <= k < |targets| ==> targets[k] in variables && variables[targets[k]] == v
      ensures Assigns(World(), old(Held()), mid, Held(), targets, value)
      decreases Budget(), 2, value, 3
    {
      targetVars := targetVars + targets;
      if job.Some? { DueFits(Code(), Now(), job.value); }
      v := WalkExpr(value, job);
      mid := Held();
      StoreAll(targets, v, job, old(Now()));
      ReadThenSet(World(), old(Held()), mid, Held(), targets, value, v);
      targetVars := targetVars[..|targetVars| - |targets|];
    }

    /** The value into every target. */
    method StoreAll(targets: seq<string>, v: V, ghost job: Option<Job>, ghost s0: Scope<V>)
      modifies this`calTimes, this`cache, this`variables
      requires job.Some? ==>
                 && targets == [job.value.x] && Due(Code(), s0, job.value)
                 && Reads(Code(), s0, Now(), job.value, Meaning(body[job.value.at]), v)
      ensures job.Some? ==> Does(Code(), s0, Now(), job.value)
      ensures forall k :: 0 <= k < |targets| ==> targets[k] in variables && variables[targets[k]] == v
      ensures (forall t :: t in targets ==> t in old(variables)) ==> Held() == SetTo(old(Held()), targets, v)
      ensures Touches(old(Held()), Held(), targets)
    {
      ghost var read, held := Now(), Held();
      for i := 0 to |targets|
        invariant job.Some? && i == 0 ==> Now() == read
        invariant job.Some? && i == 1 && read.right ==> StoredIn(read, Now(), job.value.x, v)
        invariant forall k :: 0 <= k < i ==> targets[k] in variables && variables[targets[k]] == v
        invariant forall t :: t in held.variables ==> t in variables
        invariant (forall t :: t in targets ==> t in held.variables) ==> Held() == SetTo(held, targets[..i], v)
        invariant Touches(held, Held(), targets)
      {
        assert targets[..i + 1][..i] == targets[..i];
        if job.Some? && right { assert GoodName(Code(), read, job.value.x); TargetExists(Code(), job.value); }
        StoreGlobal(targets[i], v);
      }
      assert targets[..|targets|] == targets;
      if job.Some? { StoredIsDone(Code(), s0, read, Now(), job.value, v); }
    }

    method WalkAugAssign(target: string, op: string, value: Expr, ghost job: Option<Job>) returns (ghost mid: Store<V>)
      modifies this
      requires job.Some? ==>
                 Emitted() && Due(Code(), Now(), job.value) && target == job.value.x
                 && Meaning(body[job.value.at]) == Binary(op, Name(target), value)
      ensures Kept(|old(backtrack)| + 1) && backtrack == old(backtrack)
      ensures job.Some? ==> Does(Code(), old(Now()), Now(), job.value)
      ensures Assigns(World(), old(Held()), mid, Held(), [target], Binary(op, Name(target), value))
      decreases Budget(), 3, 0
    {
      targetVars := targetVars + [target];
      if job.Some? { DueFits(Code(), Now(), job.value); }
      var v := LoadOperands(Binary(op, Name(target), value), job);
      mid := Held();
      StoreAll([target], v, job, old(Now()));
      ReadThenSet(World(), old(Held()), mid, Held(), [target], Binary(op, Name(target), value), v);
      targetVars := targetVars[..|targetVars| - 1];
    }

    /** The right operand is read first, then the target. */
    method LoadOperands(e: Expr, ghost job: Option<Job>) returns (r: V)
      modifies this
      requires e.Binary? && (job.Some? ==> Running(job.value, e))
      ensures Kept(|old(backtrack)| + 1) && backtrack == old(backtrack)
      ensures job.Some? ==> Reads(Code(), old(Now()), Now(), job.value, e, r)
      ensures AtHand(World(), old(Held()), old(TargetVar()), e) ==> Untouched()
      ensures ReadRests(World(), old(Held()), Held(), old(TargetVar()), e, r)
      decreases Budget(), 2, e, 0
    {
      ghost var held := Held();
      var operand := WalkExpr(e.right, job);
      ghost var between, mid := Now(), Held();
      if job.Some? { StillDue(Code(), old(Now()), between, job.value, e.right, operand); }
      var original := WalkExpr(e.left, job);
      r := interp.binary(e.op, original, operand);
      if job.Some? { ReadsBinary(Code(), old(Now()), between, Now(), job.value, e.op, e.right, e.left, operand, original); }
      BinaryRests(World(), held, mid, Held(), TargetVar(), e.op, e.right, e.left, operand, original);
    }

    method WalkIf(s: Stmt) returns (ghost t: Trail<V>)
      modifies this
      requires s.If? && !Broken(Top(backtrack)) && astId == s.id
      ensures Kept(|old(backtrack)|)
      ensures Lives(World(), old(TargetVar()), old(Here()), s, t, Here())
      decreases Budget(), 4, s, 1
    {
      ghost var here := Here();
      var truth := WalkTest(s);
      ghost var after, mid := astId, Here();
      ghost var inner := WalkBranch(s, truth);
      t := Tested(s.id, here.store, truth, after, mid.store, inner);
      IfLives(World(), TargetVar(), here, s, t, mid, Here());
    }

    /** The test of an `if`. */
    method WalkTest(s: Stmt) returns (truth: bool)
      modifies this
      requires s.If? && astId == s.id
      ensures Kept(|old(backtrack)|) && backtrack == old(backtrack)
      ensures TestIs(World(), old(TargetVar()), s, old(Held()), truth, astId, Held())
      ensures Seen(|backtrack|, ran) == Seen(|backtrack|, old(ran)) + [Step(|backtrack|, s.id, Some(truth))]
      decreases Budget(), 4, s, 0
    {
      var cond := WalkExpr(s.test, None);
      truth := interp.truthy(cond);
      ghost var step := Step(|backtrack|, s.id, Some(truth));
      OneStep(|backtrack|, ran, step);
      ran := ran + [step];
    }

    method WalkBranch(s: Stmt, truth: bool) returns (ghost inner: seq<Trail<V>>)
      modifies this
      requires s.If? && !Broken(Top(backtrack))
      ensures Kept(|old(backtrack)|)
      ensures WalksAll(World(), old(TargetVar()), old(Here()), Branch(Top(old(backtrack)), s, truth, old(astId)), inner, Here())
      decreases Budget(), 4, s, 0
    {
      inner := [];
      WalksNone(World(), TargetVar(), Here());
      var top := Top(backtrack);
      if top.Some? && top.value.kind == OnlyOrElse && top.value.stmtId == astId {
        if !truth { inner := WalkStmts(s.orelse); }
      } else if top.Some? && top.value.kind == OnlyIf && top.value.stmtId == astId {
        if truth { inner := WalkStmts(s.body); }
      } else if truth {
        inner := WalkStmts(s.body);
      } else {
        inner := WalkStmts(s.orelse);
      }
    }

    method WalkStmts(ss: seq<Stmt>) returns (ghost ts: seq<Trail<V>>)
      modifies this
      ensures Kept(|old(backtrack)|)
      ensures WalksAll(World(), old(TargetVar()), old(Here()), ss, ts, Here())
      decreases Budget(), 4, ss, 0
    {
      ts := [];
      ghost var start, d := Here(), |backtrack|;
      WalksNone(World(), TargetVar(), start);
      for i := 0 to |ss|
        invariant Kept(d) && |backtrack| == d
        invariant WalksAll(World(), TargetVar(), start, ss[..i], ts, Here())
      {
        ghost var here := Here();
        ghost var t := WalkStmt(ss[i], None);
        WalksMore(World(), TargetVar(), start, ss, i, ts, here, t, Here());
        ts := ts + [t];
      }
      assert ss[..|ss|] == ss;
    }

    // -------------------------------------------------------------------------------
    // Expressions
    // -------------------------------------------------------------------------------

    method WalkExpr(e: Expr, ghost job: Option<Job>) returns (r: V)
      modifies this
      requires job.Some? ==> Running(job.value, e)
      ensures Kept(|old(backtrack)| + 1) && backtrack == old(backtrack)
      ensures AtHand(World(), old(Held()), old(TargetVar()), e) ==> Untouched()
      ensures ReadRests(World(), old(Held()), Held(), old(TargetVar()), e, r)
      ensures job.Some? ==> Reads(Code(), old(Now()), Now(), job.value, e, r)
      decreases Budget(), 2, e, 1
    {
      match e {
        case Literal(text) => r := interp.literal(text);
        case Name(z) => r := LoadName(z, job);
        case Binary(_, _, _) => r := WalkBinary(e, job);
        case Choose(_, _, _) => r := WalkChoose(e, job);
      }
    }

    method WalkBinary(e: Expr, ghost job: Option<Job>) returns (r: V)
      modifies this
      requires e.Binary? && (job.Some? ==> Running(job.value, e))
      ensures Kept(|old(backtrack)| + 1) && backtrack == old(backtrack)
      ensures AtHand(World(), old(Held()), old(TargetVar()), e) ==> Untouched()
      ensures ReadRests(World(), old(Held()), Held(), old(TargetVar()), e, r)
      ensures job.Some? ==> Reads(Code(), old(Now()), Now(), job.value, e, r)
      decreases Budget(), 2, e, 0
    {
      ghost var held := Held();
      var a := WalkExpr(e.left, job);
      ghost var between, mid := Now(), Held();
      if job.Some? { StillDue(Code(), old(Now()), between, job.value, e.left, a); }
      var b := WalkExpr(e.right, job);
      r := interp.binary(e.op, a, b);
      if job.Some? { ReadsBinary(Code(), old(Now()), between, Now(), job.value, e.op, e.left, e.right, a, b); }
      BinaryRests(World(), held, mid, Held(), TargetVar(), e.op, e.left, e.right, a, b);
    }

    method WalkChoose(e: Expr, ghost job: Option<Job>) returns (r: V)
      modifies this
      requires e.Choose? && (job.Some? ==> Running(job.value, e))
      ensures Kept(|old(backtrack)| + 1) && backtrack == old(backtrack)
      ensures AtHand(World(), old(Held()), old(TargetVar()), e) ==> Untouched()
      ensures ReadRests(World(), old(Held()), Held(), old(TargetVar()), e, r)
      ensures job.Some? ==> Reads(Code(), old(Now()), Now(), job.value, e, r)
      decreases Budget(), 2, e, 0
    {
      ghost var held := Held();
      var t := WalkExpr(e.test, job);
      ghost var between, mid := Now(), Held();
      var chosen := if interp.truthy(t) then e.yes else e.no;
      ChosenAtHand(World(), held, mid, TargetVar(), e, t, chosen);
      if job.Some? { StillDue(Code(), old(Now()), between, job.value, e.test, t); }
      r := WalkExpr(chosen, job);
      if job.Some? { ReadsChoose(Code(), old(Now()), between, Now(), job.value, e.test, e.yes, e.no, t, r); }
      ChooseRests(World(), held, mid, Held(), TargetVar(), e, t, chosen, r);
    }
  }

  /** The names that get an undefined value before evaluation starts. */
  function Defined(body: seq<Stmt>): set<string>
    decreases body, 0
  {
    if body == [] then {} else Defined(body[..|body| - 1]) + DefinedBy(body[|body| - 1])
  }

  function DefinedBy(s: Stmt): set<string>
    decreases s, 1
  {
    match s
    case Assign(_, targets, _) => set x | x in targets
    case Unification(_, target, _) => {target}
    case If(_, _, body, orelse) => Defined(body) + Defined(orelse)
    case _ => {}
  }

  /** A first setter does not read its own name, so it is a plain assignment. */
  lemma {:induction false} FirstIsAssign<V>(c: Program<V>, x: string, p: nat)
    requires Tame(c) && p < |c.body| && Sets(c.body[p], x) && Stores(c.body, x, p) == 0
    ensures c.body[p].Assign?
  {
    assert TameAt(c, p);
    assert Targets(c.body[p])[0] == x;
    assert Fits(c, x, p, Meaning(c.body[p])) && !Fits(c, x, p, Name(x));
  }

  /** In a straight-line body whose names are set before they read themselves, these are the names set. */
  lemma {:induction false} DefinedAreSet<V>(c: Program<V>, x: string, p: nat)
    requires Tame(c) && p <= |c.body|
    ensures x in Defined(c.body[..p]) <==> Stores(c.body, x, p) > 0
  {
    if p > 0 {
      DefinedAreSet(c, x, p - 1);
      var s := c.body[p - 1];
      assert TameAt(c, p - 1);
      assert c.body[..p][..p - 1] == c.body[..p - 1];
      assert x in DefinedBy(s) ==> Sets(s, x);
      if Sets(s, x) && Stores(c.body, x, p - 1) == 0 {
        FirstIsAssign(c, x, p - 1);
        assert x in Targets(s);
      }
    }
  }

  lemma {:induction false} StartIsGood<V>(c: Program<V>, variables: map<string, V>)
    requires Tame(c) && variables.Keys == Defined(c.body)
    ensures Good(c, Scope(variables, map[], map[], 0, true))
  {
    var s := Scope(variables, map[], map[], 0, true);
    assert c.body[..|c.body|] == c.body;
    forall x ensures GoodName(c, s, x) { DefinedAreSet(c, x, |c.body|); }
  }

  lemma {:induction false} TameIsStraight<V>(c: Program<V>)
    requires Tame(c)
    ensures Straight(c.body)
  {
    forall i | 0 <= i < |c.body| ensures c.body[i].Other? || |Targets(c.body[i])| == 1 { assert TameAt(c, i); }
  }

  /** A statement done at the top level counts as done. */
  lemma {:induction false} TopIsGood<V>(c: Program<V>, s: Scope<V>, job: Option<Job>)
    requires Tame(c) && s.done < |c.body| && forall x :: LevelOf(s.levels, x) == 0
    requires if Targets(c.body[s.done]) != [] then job == Some(Job(Targets(c.body[s.done])[0], s.done)) && Stored(c, s, job.value)
             else job.None? && Good(c, s)
    ensures Good(c, s.(done := s.done + 1))
  {
    var after := s.(done := s.done + 1);
    assert TameAt(c, s.done);
    forall x ensures GoodName(c, after, x) {
      if job.Some? && x == job.value.x {
        StoresGrow(c.body, x, s.done + 1, |c.body|);
      } else {
        assert GoodName(c, s, x);
      }
    }
  }

  lemma {:induction false} EndIsFull<V>(c: Program<V>, s: Scope<V>)
    requires Good(c, s) && s.done == |c.body|
    ensures forall x :: Stores(c.body, x, |c.body|) > 0 ==>
              x in s.variables && s.variables[x] == Full(c, x) && x in s.cache && s.cache[x] == Full(c, x)
  {
    forall x | Stores(c.body, x, |c.body|) > 0
      ensures x in s.variables && s.variables[x] == Full(c, x) && x in s.cache && s.cache[x] == Full(c, x)
    {
      assert GoodName(c, s, x);
    }
  }
}

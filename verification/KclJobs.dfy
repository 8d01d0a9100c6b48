/**
 What the scope and the lazy scope hold while a straight-line body without cycles is
 evaluated (crates/evaluator/src/lazy.rs, scope.rs), and how one read or one setter changes
 it, in terms of the meaning in `KclMeaning`.
 */
module KclJobs {
  import opened Wrappers
  import opened KclSetters
  import opened KclMeaning
  import opened KclLevels

  /**
   Variables, cache and levels; how many statements are done at the top level; and whether
   every read of another name so far gave that name's full value.
   */
  datatype Scope<V> = Scope(variables: map<string, V>, cache: map<string, V>, levels: Levels, done: nat, right: bool)

  /** The setter of `x` at position `at`. */
  datatype Job = Job(x: string, at: nat)

  ghost predicate GoodName<V>(c: Program<V>, s: Scope<V>, x: string)
    requires s.done <= |c.body|
  {
    var level, k := LevelOf(s.levels, x), Stores(c.body, x, s.done);
    && (x in s.variables <==> Stores(c.body, x, |c.body|) > 0)
    && (x in s.cache ==> x in s.variables)
    && (level > 0 ==> k == 0)
    && (if k > 0 then
          x in s.variables && s.variables[x] == UpTo(c, x, s.done) && x in s.cache && s.cache[x] == s.variables[x]
        else
          x in s.cache ==> s.cache[x] == UpTo(c, x, Mark(c.body, x, level)))
  }

  ghost predicate Good<V>(c: Program<V>, s: Scope<V>) {
    s.done <= |c.body| && forall x :: GoodName(c, s, x)
  }

  /** The job is next: at the top level, or at the level its name is on. */
  ghost predicate Due<V>(c: Program<V>, s: Scope<V>, job: Job) {
    var level := LevelOf(s.levels, job.x);
    && Tame(c) && Straight(c.body) && s.done <= |c.body|
    && job.at < |c.body| && Sets(c.body[job.at], job.x)
    && (forall y :: LevelOf(s.levels, y) > 0 ==> c.rank(y) >= c.rank(job.x))
    && level <= Stores(c.body, job.x, |c.body|)
    && job.at == (if level == 0 then s.done else Mark(c.body, job.x, level))
    && (s.right ==> Good(c, s))
  }

  ghost predicate SameLevels(a: Levels, b: Levels) {
    forall y :: LevelOf(a, y) == LevelOf(b, y)
  }

  /** What any part of a job keeps; `ready` is enough for it to read well. */
  ghost predicate Goes<V>(s0: Scope<V>, s1: Scope<V>, ready: bool) {
    && SameLevels(s0.levels, s1.levels) && s1.done == s0.done
    && (s1.right ==> s0.right) && (s0.right && ready ==> s1.right)
  }

  /** The job reads well as far as `e` goes; below the top level, so do the other setters of its name. */
  ghost predicate JobReady<V>(c: Program<V>, s: Scope<V>, job: Job, e: Expr)
    requires s.done <= |c.body|
  {
    ReadyIn(c, s.done, job.x, e) && (LevelOf(s.levels, job.x) > 0 ==> Ready(c, s.done, job.x))
  }

  /** Evaluating `e` within the job gave `r`. */
  ghost predicate Reads<V>(c: Program<V>, s0: Scope<V>, s1: Scope<V>, job: Job, e: Expr, r: V)
    requires job.at < |c.body| && s0.done <= |c.body|
  {
    && Goes(s0, s1, JobReady(c, s0, job, e))
    && (s1.right ==> Good(c, s1) && r == ValueOf(c, job.x, job.at, e) && SettledIn(c, s0.done, job.x, e))
  }

  /** What the lazy scope gives for `key`. */
  ghost function Fetch<V>(c: Program<V>, done: nat, job: Job, key: string): V
    requires job.at < |c.body| && done <= |c.body|
  {
    if key == job.x then UpTo(c, key, job.at)
    else if Stores(c.body, key, done) > 0 then UpTo(c, key, done)
    else Full(c, key)
  }

  ghost predicate Fetches<V>(c: Program<V>, s0: Scope<V>, s1: Scope<V>, job: Job, key: string, r: V)
    requires job.at < |c.body| && s0.done <= |c.body|
  {
    && Goes(s0, s1, JobReady(c, s0, job, Name(key)))
    && (s1.right ==> Good(c, s1) && r == Fetch(c, s0.done, job, key))
  }

  /** The job is done, its value stored and cached. */
  ghost predicate Stored<V>(c: Program<V>, s: Scope<V>, job: Job)
    requires job.at < |c.body| && s.done <= |c.body|
  {
    && (forall y :: y != job.x ==> GoodName(c, s, y))
    && job.x in s.variables && s.variables[job.x] == UpTo(c, job.x, job.at + 1)
    && job.x in s.cache && s.cache[job.x] == s.variables[job.x]
  }

  ghost predicate Does<V>(c: Program<V>, s0: Scope<V>, s1: Scope<V>, job: Job)
    requires job.at < |c.body| && s0.done <= |c.body|
  {
    && Goes(s0, s1, JobReady(c, s0, job, Meaning(c.body[job.at])))
    && (s1.right ==> Stored(c, s1, job) && SettledIn(c, s0.done, job.x, Meaning(c.body[job.at])))
  }

  // ---------------------------------------------------------------------------------
  // Expressions
  // ---------------------------------------------------------------------------------

  lemma {:induction false} StillDue<V>(c: Program<V>, s0: Scope<V>, s1: Scope<V>, job: Job, e: Expr, r: V)
    requires Due(c, s0, job) && Reads(c, s0, s1, job, e, r)
    ensures Due(c, s1, job)
  {
  }

  lemma {:induction false} ReadsBinary<V>(c: Program<V>, s0: Scope<V>, s1: Scope<V>, s2: Scope<V>, job: Job, op: string, e1: Expr, e2: Expr, a: V, b: V)
    requires job.at < |c.body| && s0.done <= |c.body|
    requires Reads(c, s0, s1, job, e1, a) && Reads(c, s1, s2, job, e2, b)
    ensures Reads(c, s0, s2, job, Binary(op, e1, e2), c.interp.binary(op, a, b))
    ensures Reads(c, s0, s2, job, Binary(op, e2, e1), c.interp.binary(op, b, a))
  {
  }

  lemma {:induction false} ReadsChoose<V>(c: Program<V>, s0: Scope<V>, s1: Scope<V>, s2: Scope<V>, job: Job, test: Expr, yes: Expr, no: Expr, t: V, r: V)
    requires job.at < |c.body| && s0.done <= |c.body|
    requires Reads(c, s0, s1, job, test, t)
    requires Reads(c, s1, s2, job, if c.interp.truthy(t) then yes else no, r)
    ensures Reads(c, s0, s2, job, Choose(test, yes, no), r)
  {
  }

  /** A fetched value is the one meant, for another name provided it is that name's full value. */
  lemma {:induction false} FetchesIsReads<V>(c: Program<V>, s0: Scope<V>, s1: Scope<V>, job: Job, key: string, r: V)
    requires Due(c, s0, job) && Fits(c, job.x, job.at, Name(key)) && Fetches(c, s0, s1, job, key, r)
    ensures Reads(c, s0, if key == job.x then s1 else s1.(right := s1.right && r == Full(c, key)), job, Name(key), r)
  {
    if key != job.x && s1.right {
      var s2 := s1.(right := r == Full(c, key));
      forall y ensures s2.right ==> GoodName(c, s2, y) { assert GoodName(c, s1, y); }
      if ReadyIn(c, s0.done, job.x, Name(key)) && Stores(c.body, key, s0.done) > 0 {
        assert Ready(c, s0.done, key);
        StoresGrow(c.body, key, s0.done, |c.body|);
        SameStores(c, key, s0.done, |c.body|);
      }
    }
  }

  /** A name that is not in the scope has no setters, and is undefined. */
  lemma {:induction false} MissingIsRead<V>(c: Program<V>, s: Scope<V>, job: Job, key: string)
    requires Due(c, s, job) && Fits(c, job.x, job.at, Name(key)) && key !in s.variables
    ensures Reads(c, s, s, job, Name(key), c.interp.undefined)
  {
    if key == job.x { StoresGrow(c.body, key, job.at + 1, |c.body|); }
    if s.right {
      assert GoodName(c, s, key);
      StoresGrow(c.body, key, s.done, |c.body|);
      SameStores(c, key, 0, |c.body|);
    }
  }

  // ---------------------------------------------------------------------------------
  // The lazy scope
  // ---------------------------------------------------------------------------------

  /** A name that is its own target is, at the top level, in the scope as the job finds it. */
  lemma {:induction false} OwnNameIsFetched<V>(c: Program<V>, s: Scope<V>, job: Job)
    requires Due(c, s, job) && Fits(c, job.x, job.at, Name(job.x))
    requires LevelOf(s.levels, job.x) == 0 && job.x in s.variables
    ensures Fetches(c, s, s, job, job.x, s.variables[job.x])
  {
    if s.right { assert GoodName(c, s, job.x); }
  }

  /** A job that reads its own name has another setter before it. */
  lemma {:induction false} OwnNameHasMore(body: seq<Stmt>, x: string, at: nat, level: nat)
    requires at < |body| && Sets(body[at], x) && Stores(body, x, at) > 0
    requires level <= Stores(body, x, |body|) && (level > 0 ==> at == Mark(body, x, level))
    ensures level < Stores(body, x, |body|) && Stores(body, x, |body|) > 1
  {
    StoresGrow(body, x, at + 1, |body|);
  }

  lemma {:induction false} CachedIsFetched<V>(c: Program<V>, s: Scope<V>, job: Job, key: string)
    requires Due(c, s, job) && Fits(c, job.x, job.at, Name(key)) && key in s.cache
    requires key == job.x ==> LevelOf(s.levels, key) > 0
    ensures Fetches(c, s, s, job, key, s.cache[key])
  {
    if s.right { assert GoodName(c, s, key); }
  }

  lemma {:induction false} NoSettersIsFetched<V>(c: Program<V>, s: Scope<V>, job: Job, key: string, r: V)
    requires Due(c, s, job) && Fits(c, job.x, job.at, Name(key)) && Stores(c.body, key, |c.body|) == 0 && key in s.variables
    ensures Fetches(c, s, s, job, key, r)
  {
    assert s.right ==> GoodName(c, s, key);
  }

  function Entered<V>(s: Scope<V>, key: string): Scope<V> {
    s.(levels := s.levels[key := LevelOf(s.levels, key) + 1])
  }

  /** No job of `key` is under way with something to show for it. */
  ghost predicate Uncached<V>(c: Program<V>, s: Scope<V>, job: Job, key: string) {
    && Due(c, s, job) && Fits(c, job.x, job.at, Name(key)) && Stores(c.body, key, |c.body|) > 0
    && key !in s.cache && (key == job.x ==> LevelOf(s.levels, key) > 0)
  }

  function NextJob<V>(c: Program<V>, s: Scope<V>, key: string): Job {
    Job(key, Mark(c.body, key, LevelOf(s.levels, key) + 1))
  }

  lemma {:induction false} EnteredIsGood<V>(c: Program<V>, s: Scope<V>, key: string)
    requires Good(c, s) && key !in s.cache
    ensures Good(c, Entered(s, key))
  {
    var inside := Entered(s, key);
    forall y ensures GoodName(c, inside, y) { assert GoodName(c, s, y); }
  }

  lemma {:induction false} RoomLeft<V>(c: Program<V>, s: Scope<V>, job: Job, key: string)
    requires Uncached(c, s, job, key)
    ensures LevelOf(s.levels, key) < Stores(c.body, key, |c.body|)
    ensures forall y :: LevelOf(Entered(s, key).levels, y) > 0 ==> c.rank(y) >= c.rank(key)
  {
    if key == job.x { OwnNameHasMore(c.body, key, job.at, LevelOf(s.levels, key)); }
  }

  /** One level deeper, the next setter is due. */
  lemma {:induction false} NextIsDue<V>(c: Program<V>, s: Scope<V>, job: Job, key: string)
    requires Uncached(c, s, job, key)
    ensures LevelOf(s.levels, key) < Stores(c.body, key, |c.body|)
    ensures Due(c, Entered(s, key), NextJob(c, s, key))
  {
    RoomLeft(c, s, job, key);
    if s.right { EnteredIsGood(c, s, key); }
  }

  lemma {:induction false} NextSetterFits<V>(c: Program<V>, table: Table, s: Scope<V>, key: string)
    requires TableFits(table, c.body) && LevelOf(s.levels, key) < Stores(c.body, key, |c.body|)
    ensures |Entries(table, key)| == Stores(c.body, key, |c.body|)
    ensures var setter := Entries(table, key)[|Entries(table, key)| - LevelOf(s.levels, key) - 1];
            setter.stmt == NextJob(c, s, key).at && setter.kind == Normal && setter.stopped == None
  {
    assert ListFits(Entries(table, key), c.body, key);
  }

  lemma {:induction false} LeftIsGood<V>(c: Program<V>, s0: Scope<V>, s1: Scope<V>, key: string, r: V)
    requires Straight(c.body) && Good(c, s0) && key !in s0.cache && s0.done == s1.done
    requires LevelOf(s0.levels, key) < Stores(c.body, key, |c.body|) && SameLevels(Entered(s0, key).levels, s1.levels)
    requires NextJob(c, s0, key).at < |c.body| && Stored(c, s1, NextJob(c, s0, key)) && r == s1.variables[key]
    ensures Good(c, s1.(levels := s1.levels[key := LevelOf(s0.levels, key)], cache := s1.cache[key := r]))
    ensures Stores(c.body, key, s0.done) == 0
    ensures r == UpTo(c, key, Mark(c.body, key, LevelOf(s0.levels, key)))
  {
    var level := LevelOf(s0.levels, key);
    var s2 := s1.(levels := s1.levels[key := level], cache := s1.cache[key := r]);
    MarkStep(c, key, level);
    assert GoodName(c, s0, key);
    forall y ensures GoodName(c, s2, y) { if y != key { assert GoodName(c, s1, y); } }
  }

  lemma {:induction false} NextIsReady<V>(c: Program<V>, s: Scope<V>, job: Job, key: string)
    requires Uncached(c, s, job, key) && s.right && JobReady(c, s, job, Name(key)) && NextJob(c, s, key).at < |c.body|
    requires Sets(c.body[NextJob(c, s, key).at], key)
    ensures JobReady(c, Entered(s, key), NextJob(c, s, key), Meaning(c.body[NextJob(c, s, key).at]))
  {
    assert GoodName(c, s, key);
    assert Ready(c, s.done, key);
  }

  lemma {:induction false} LevelsBack<V>(s0: Scope<V>, s1: Scope<V>, key: string)
    requires SameLevels(Entered(s0, key).levels, s1.levels)
    ensures SameLevels(s0.levels, s1.levels[key := LevelOf(s0.levels, key)])
  {
    var inside, back := Entered(s0, key), s1.levels[key := LevelOf(s0.levels, key)];
    forall y ensures LevelOf(s0.levels, y) == LevelOf(back, y) { assert LevelOf(inside.levels, y) == LevelOf(s1.levels, y); }
  }

  /** When that setter is done and the level is back, the value is the one asked for. */
  lemma {:induction false} BacktrackIsFetched<V>(c: Program<V>, s0: Scope<V>, s1: Scope<V>, job: Job, key: string, r: V)
    requires Uncached(c, s0, job, key) && Due(c, Entered(s0, key), NextJob(c, s0, key))
    requires LevelOf(s0.levels, key) < Stores(c.body, key, |c.body|)
    requires Does(c, Entered(s0, key), s1, NextJob(c, s0, key))
    requires s1.right ==> r == s1.variables[key]
    ensures Fetches(c, s0, s1.(levels := s1.levels[key := LevelOf(s0.levels, key)], cache := s1.cache[key := r]), job, key, r)
  {
    LevelsBack(s0, s1, key);
    if s1.right { LeftIsGood(c, s0, s1, key, r); }
    if s0.right && JobReady(c, s0, job, Name(key)) { NextIsReady(c, s0, job, key); }
  }

  // ---------------------------------------------------------------------------------
  // Storing
  // ---------------------------------------------------------------------------------

  lemma {:induction false} DueFits<V>(c: Program<V>, s: Scope<V>, job: Job)
    requires Due(c, s, job)
    ensures Fits(c, job.x, job.at, Meaning(c.body[job.at]))
  {
    assert TameAt(c, job.at);
  }

  lemma {:induction false} TargetExists<V>(c: Program<V>, job: Job)
    requires job.at < |c.body| && Sets(c.body[job.at], job.x)
    ensures Stores(c.body, job.x, |c.body|) > 0
  {
    StoresGrow(c.body, job.x, job.at + 1, |c.body|);
  }

  /** `v` was stored in `x`, which was in the scope. */
  ghost predicate StoredIn<V>(s0: Scope<V>, s1: Scope<V>, x: string, v: V) {
    s1 == s0.(variables := s0.variables[x := v], cache := s0.cache[x := v])
  }

  lemma {:induction false} StoredIsDone<V>(c: Program<V>, s0: Scope<V>, read: Scope<V>, s1: Scope<V>, job: Job, v: V)
    requires Due(c, s0, job) && Reads(c, s0, read, job, Meaning(c.body[job.at]), v)
    requires s1.levels == read.levels && s1.right == read.right && s1.done == read.done
    requires read.right ==> StoredIn(read, s1, job.x, v)
    ensures Does(c, s0, s1, job)
  {
    if s1.right {
      forall y | y != job.x ensures GoodName(c, s1, y) { assert GoodName(c, read, y); }
    }
  }

  /** What a lookup has to give for `key`, by case. */
  lemma {:induction false} AskedFor<V>(c: Program<V>, table: Table, s: Scope<V>, job: Job, key: string)
    requires Due(c, s, job) && Fits(c, job.x, job.at, Name(key)) && key in s.variables
    requires TableFits(table, c.body)
    ensures |Entries(table, key)| == Stores(c.body, key, |c.body|)
    ensures key == job.x ==> |Entries(table, key)| > 1
    ensures key == job.x && LevelOf(s.levels, key) == 0 ==> Fetches(c, s, s, job, key, s.variables[key])
    ensures !(key == job.x && LevelOf(s.levels, key) == 0) && key in s.cache ==> Fetches(c, s, s, job, key, s.cache[key])
    ensures Stores(c.body, key, |c.body|) == 0 ==> Fetches(c, s, s, job, key, s.variables[key])
  {
    assert ListFits(Entries(table, key), c.body, key);
    if key == job.x {
      OwnNameHasMore(c.body, key, job.at, LevelOf(s.levels, key));
      if LevelOf(s.levels, key) == 0 { OwnNameIsFetched(c, s, job); }
    }
    if !(key == job.x && LevelOf(s.levels, key) == 0) && key in s.cache { CachedIsFetched(c, s, job, key); }
    if Stores(c.body, key, |c.body|) == 0 { NoSettersIsFetched(c, s, job, key, s.variables[key]); }
  }
}

/**
 Any number of processes that update the info file of the package cache at the same time
 (crates/config/src/cache.rs, `write_info_cache`): each takes the lock, reads the map, adds
 its entry, writes a temporary file, renames it over the info file and releases the lock. A
 process can die at any point, which releases its lock. Temporary names may coincide.
 */
module CacheProtocol {
  import opened Wrappers

  type Digest = seq<nat>
  type Info = map<string, Digest>

  /** What a file holds: a map as written, or something that does not read as one. */
  datatype Content = Complete(info: Info) | Broken

  /** One call: the entry to add, and the temporary name chosen for it. */
  datatype Job = Job(key: string, digest: Digest, tmp: string)

  datatype Phase =
    | Waiting
    | Locked
    | HasRead(cache: Info)
    | Created(cache: Info)
    | Written
    | Renamed
    | Finished
    | Dead

  /** `history` lists the jobs whose rename has happened, in that order. */
  datatype State = State(lock: Option<nat>, phases: seq<Phase>, files: map<string, Content>, info: Option<Content>, history: seq<nat>)

  /** What reading the info file gives: a missing or unreadable file counts as empty. */
  function Seen(info: Option<Content>): Info {
    if info.Some? && info.value.Complete? then info.value.info else map[]
  }

  function Init(jobs: seq<Job>, info: Option<Content>): State {
    State(None, seq(|jobs|, i => Waiting), map[], info, [])
  }

  /** The next step of job `w`; a job that waits for the lock stays as it is. */
  function Advance(jobs: seq<Job>, s: State, w: nat): State
    requires w < |jobs| == |s.phases|
  {
    var job := jobs[w];
    match s.phases[w]
    case Waiting => if s.lock.None? then s.(lock := Some(w), phases := s.phases[w := Locked]) else s
    case Locked => s.(phases := s.phases[w := HasRead(Seen(s.info)[job.key := job.digest])])
    case HasRead(cache) => s.(phases := s.phases[w := Created(cache)], files := s.files[job.tmp := Broken])
    case Created(cache) => s.(phases := s.phases[w := Written], files := s.files[job.tmp := Complete(cache)])
    case Written =>
      if job.tmp in s.files then
        s.(phases := s.phases[w := Renamed], files := s.files - {job.tmp}, info := Some(s.files[job.tmp]), history := s.history + [w])
      else Die(s, w)
    case Renamed => s.(phases := s.phases[w := Finished], lock := None)
    case Finished => s
    case Dead => s
  }

  function Die(s: State, w: nat): State
    requires w < |s.phases|
  {
    s.(phases := s.phases[w := Dead], lock := if s.lock == Some(w) then None else s.lock)
  }

  ghost predicate Next(jobs: seq<Job>, s: State, t: State)
    requires |jobs| == |s.phases|
  {
    exists w: nat :: w < |jobs| && (t == Advance(jobs, s, w) || (s.phases[w] != Finished && t == Die(s, w)))
  }

  /** A run: any interleaving of the steps of all jobs. */
  ghost predicate Run(jobs: seq<Job>, run: seq<State>) {
    && run != [] && run[0] == Init(jobs, run[0].info)
    && (forall i :: 0 <= i < |run| ==> |run[i].phases| == |jobs|)
    && forall i :: 0 < i < |run| ==> Next(jobs, run[i - 1], run[i])
  }

  // ---------------------------------------------------------------------------------
  // One after the other
  // ---------------------------------------------------------------------------------

  /** The map after the jobs in `history`, done one after the other. */
  function Serial(start: Info, jobs: seq<Job>, history: seq<nat>): Info
    requires forall i :: 0 <= i < |history| ==> history[i] < |jobs|
  {
    if history == [] then start
    else
      var job := jobs[history[|history| - 1]];
      Serial(start, jobs, history[..|history| - 1])[job.key := job.digest]
  }

  predicate InCritical(phase: Phase) {
    phase.Locked? || phase.HasRead? || phase.Created? || phase.Written? || phase.Renamed?
  }

  ghost predicate JobInv(job: Job, s: State, w: nat)
    requires w < |s.phases|
  {
    && (InCritical(s.phases[w]) ==> s.lock == Some(w))
    && (s.phases[w].HasRead? || s.phases[w].Created? ==> s.phases[w].cache == Seen(s.info)[job.key := job.digest])
    && (s.phases[w].Written? ==> job.tmp in s.files && s.files[job.tmp] == Complete(Seen(s.info)[job.key := job.digest]))
    && (s.phases[w].Renamed? || s.phases[w].Finished? ==> w in s.history)
    && (w in s.history ==> s.phases[w].Renamed? || s.phases[w].Finished? || s.phases[w].Dead?)
  }

  /** The info file is as if the renamed jobs had run one after the other, and no job is renamed twice. */
  ghost predicate Inv(jobs: seq<Job>, start: Option<Content>, s: State) {
    && |s.phases| == |jobs|
    && (forall w :: 0 <= w < |jobs| ==> JobInv(jobs[w], s, w))
    && (s.lock.Some? ==> s.lock.value < |jobs| && InCritical(s.phases[s.lock.value]))
    && (forall i :: 0 <= i < |s.history| ==> s.history[i] < |jobs|)
    && (forall i, j :: 0 <= i < j < |s.history| ==> s.history[i] != s.history[j])
    && (if s.history == [] then s.info == start else s.info.Some? && s.info.value.Complete?)
    && Seen(s.info) == Serial(Seen(start), jobs, s.history)
  }

  lemma {:induction false} InitInv(jobs: seq<Job>, start: Option<Content>)
    ensures Inv(jobs, start, Init(jobs, start))
  {
  }

  /** Only the job that holds the lock gets as far as changing a file. */
  lemma {:induction false} AdvanceInv(jobs: seq<Job>, start: Option<Content>, s: State, w: nat)
    requires Inv(jobs, start, s) && w < |jobs|
    ensures Inv(jobs, start, Advance(jobs, s, w))
  {
    assert JobInv(jobs[w], s, w);
    if s.phases[w].Written? {
      RenameInv(jobs, start, s, w);
    } else {
      var t := Advance(jobs, s, w);
      forall v | 0 <= v < |jobs| ensures JobInv(jobs[v], t, v) { assert JobInv(jobs[v], s, v); }
    }
  }

  lemma {:induction false} RenameInv(jobs: seq<Job>, start: Option<Content>, s: State, w: nat)
    requires Inv(jobs, start, s) && w < |jobs| && s.phases[w].Written?
    ensures Inv(jobs, start, Advance(jobs, s, w))
  {
    var t := Advance(jobs, s, w);
    assert JobInv(jobs[w], s, w);
    assert t.history[..|t.history| - 1] == s.history;
    forall v | 0 <= v < |jobs| ensures JobInv(jobs[v], t, v) { assert JobInv(jobs[v], s, v); }
  }

  lemma {:induction false} DieInv(jobs: seq<Job>, start: Option<Content>, s: State, w: nat)
    requires Inv(jobs, start, s) && w < |jobs| && s.phases[w] != Finished
    ensures Inv(jobs, start, Die(s, w))
  {
    var t := Die(s, w);
    forall v | 0 <= v < |jobs| ensures JobInv(jobs[v], t, v) { assert JobInv(jobs[v], s, v); }
  }

  lemma {:induction false} NextInv(jobs: seq<Job>, start: Option<Content>, s: State, t: State)
    requires Inv(jobs, start, s) && Next(jobs, s, t)
    ensures Inv(jobs, start, t)
  {
    var w: nat :| w < |jobs| && (t == Advance(jobs, s, w) || (s.phases[w] != Finished && t == Die(s, w)));
    if t == Advance(jobs, s, w) {
      AdvanceInv(jobs, start, s, w);
    } else {
      DieInv(jobs, start, s, w);
    }
  }

  lemma {:induction false} RunInv(jobs: seq<Job>, run: seq<State>, i: nat)
    requires Run(jobs, run) && i < |run|
    ensures Inv(jobs, run[0].info, run[i])
  {
    if i == 0 {
      InitInv(jobs, run[0].info);
    } else {
      RunInv(jobs, run, i - 1);
      NextInv(jobs, run[0].info, run[i - 1], run[i]);
    }
  }

  // ---------------------------------------------------------------------------------
  // No update is lost
  // ---------------------------------------------------------------------------------

  lemma {:induction false} HistoryGrows(jobs: seq<Job>, run: seq<State>, i: nat, j: nat)
    requires Run(jobs, run) && i <= j < |run|
    ensures run[i].history <= run[j].history
  {
    if i < j {
      HistoryGrows(jobs, run, i, j - 1);
      assert Next(jobs, run[j - 1], run[j]);
    }
  }

  lemma {:induction false} SerialGrows(start: Info, jobs: seq<Job>, a: seq<nat>, b: seq<nat>)
    requires a <= b && forall i :: 0 <= i < |b| ==> b[i] < |jobs|
    ensures Serial(start, jobs, a).Keys <= Serial(start, jobs, b).Keys
  {
    if a == b {
    } else {
      SerialGrows(start, jobs, a, b[..|b| - 1]);
    }
  }

  lemma {:induction false} SerialHas(start: Info, jobs: seq<Job>, history: seq<nat>, w: nat)
    requires w in history && forall i :: 0 <= i < |history| ==> history[i] < |jobs|
    ensures jobs[w].key in Serial(start, jobs, history)
  {
    var n := |history| - 1;
    if history[n] != w { SerialHas(start, jobs, history[..n], w); }
  }

  /**
   Over every run: no key disappears, the entry of every job that has finished stays, and the
   info file is the one that was there at the start or a complete map, so that a reader at any
   moment sees what some jobs done one after the other would have left.
   */
  lemma {:induction false} NoLostUpdate(jobs: seq<Job>, run: seq<State>, i: nat, j: nat)
    requires Run(jobs, run) && i <= j < |run|
    ensures Seen(run[i].info).Keys <= Seen(run[j].info).Keys
    ensures forall w :: 0 <= w < |jobs| && run[i].phases[w] == Finished ==> jobs[w].key in Seen(run[j].info)
    ensures run[j].info == run[0].info || (run[j].info.Some? && run[j].info.value.Complete?)
    ensures forall k :: 0 <= k < |run[j].history| ==> run[j].history[k] < |jobs|
    ensures Seen(run[j].info) == Serial(Seen(run[0].info), jobs, run[j].history)
  {
    RunInv(jobs, run, i);
    RunInv(jobs, run, j);
    HistoryGrows(jobs, run, i, j);
    SerialGrows(Seen(run[0].info), jobs, run[i].history, run[j].history);
    forall w | 0 <= w < |jobs| && run[i].phases[w] == Finished ensures jobs[w].key in Seen(run[j].info) {
      assert JobInv(jobs[w], run[i], w);
      SerialHas(Seen(run[0].info), jobs, run[j].history, w);
    }
  }

  lemma {:induction false} LastInSerial(start: Info, jobs: seq<Job>, history: seq<nat>, k: nat)
    requires k < |history| && forall i :: 0 <= i < |history| ==> history[i] < |jobs|
    requires forall i :: k < i < |history| ==> jobs[history[i]].key != jobs[history[k]].key
    ensures var job := jobs[history[k]];
            job.key in Serial(start, jobs, history) && Serial(start, jobs, history)[job.key] == job.digest
  {
    var n := |history| - 1;
    if k < n { LastInSerial(start, jobs, history[..n], k); }
  }

  lemma {:induction false} UntouchedInSerial(start: Info, jobs: seq<Job>, history: seq<nat>, key: string)
    requires forall i :: 0 <= i < |history| ==> history[i] < |jobs| && jobs[history[i]].key != key
    ensures key in Serial(start, jobs, history) <==> key in start
    ensures key in start ==> Serial(start, jobs, history)[key] == start[key]
  {
    if history != [] { UntouchedInSerial(start, jobs, history[..|history| - 1], key); }
  }

  /** The last of these jobs that writes `key`. */
  function LastWriter(jobs: seq<Job>, history: seq<nat>, key: string): (k: Option<nat>)
    requires forall i :: 0 <= i < |history| ==> history[i] < |jobs|
    ensures k.Some? ==> k.value < |history| && jobs[history[k.value]].key == key
    ensures forall i :: (if k.Some? then k.value + 1 else 0) <= i < |history| ==> jobs[history[i]].key != key
  {
    if history == [] then None
    else if jobs[history[|history| - 1]].key == key then Some(|history| - 1)
    else LastWriter(jobs, history[..|history| - 1], key)
  }

  /**
   At any moment of any run, the info file holds for every key the digest of the job that was
   renamed last among those that write the key, or what was there at the start if there is none.
   */
  lemma {:induction false} LastWriterWins(jobs: seq<Job>, run: seq<State>, j: nat, key: string)
    requires Run(jobs, run) && j < |run|
    ensures var h, start, now := run[j].history, Seen(run[0].info), Seen(run[j].info);
            && (forall i :: 0 <= i < |h| ==> h[i] < |jobs|)
            && var k := LastWriter(jobs, h, key);
               if k.Some? then key in now && now[key] == jobs[h[k.value]].digest
               else (key in now <==> key in start) && (key in now ==> now[key] == start[key])
  {
    RunInv(jobs, run, j);
    var h, start := run[j].history, Seen(run[0].info);
    var k := LastWriter(jobs, h, key);
    if k.Some? { LastInSerial(start, jobs, h, k.value); } else { UntouchedInSerial(start, jobs, h, key); }
  }

  /** When all jobs have finished, each has taken effect exactly once. */
  lemma {:induction false} AllTakeEffect(jobs: seq<Job>, run: seq<State>, j: nat)
    requires Run(jobs, run) && j < |run| && forall w :: 0 <= w < |jobs| ==> run[j].phases[w] == Finished
    ensures forall w :: 0 <= w < |jobs| ==> multiset(run[j].history)[w] == 1
    ensures run[j].lock.None?
  {
    RunInv(jobs, run, j);
    forall w | 0 <= w < |jobs| ensures multiset(run[j].history)[w] == 1 {
      assert JobInv(jobs[w], run[j], w);
      OnceOnly(run[j].history, w);
    }
  }

  /** No deadlock: as long as some job has not come to its end, some job can take a step. */
  lemma {:induction false} SomeoneCanGo(jobs: seq<Job>, run: seq<State>, i: nat, w: nat) returns (v: nat)
    requires Run(jobs, run) && i < |run| && w < |jobs| && run[i].phases[w] != Finished && run[i].phases[w] != Dead
    ensures v < |jobs| && Advance(jobs, run[i], v) != run[i]
  {
    RunInv(jobs, run, i);
    var s := run[i];
    v := if s.lock.Some? then s.lock.value else w;
    assert JobInv(jobs[w], s, w) && JobInv(jobs[v], s, v);
    assert Advance(jobs, s, v).phases[v] != s.phases[v];
  }

  lemma {:induction false} OnceOnly(history: seq<nat>, w: nat)
    requires forall i, j :: 0 <= i < j < |history| ==> history[i] != history[j]
    ensures multiset(history)[w] == if w in history then 1 else 0
  {
    if history != [] {
      var n := |history| - 1;
      OnceOnly(history[..n], w);
      assert history == history[..n] + [history[n]];
    }
  }
}

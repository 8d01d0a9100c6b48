/**
 Loading and saving package caches, one call after the other (crates/config/src/cache.rs,
 `load_pkg_cache` and `save_pkg_cache`). A save notes a digest of the package's source under
 the source's path, and then stores the data under the package's path; a load compares the
 digest and returns the data.

 The digest covers the bytes of the source file, or of the `.k` files of a directory one after
 the other. It is written only if the source exists, and it is found again only under the
 same path; both matter for what a load promises.
 */
module PackageCache {
  import opened Wrappers

  type Bytes = seq<nat>
  type Data = seq<nat>

  /** A source file, or a directory with its `.k` files in order. */
  datatype Source = File(bytes: Bytes) | Directory(files: seq<Bytes>)

  type Sources = map<string, Source>

  // ---------------------------------------------------------------------------------
  // Paths
  // ---------------------------------------------------------------------------------

  function Slashed(pkgpath: string): string {
    if pkgpath == "" then "" else (if pkgpath[0] == '.' then "/" else [pkgpath[0]]) + Slashed(pkgpath[1..])
  }

  /** The part before the first dot, and from there on. */
  function PackageName(pkgpath: string): string {
    if pkgpath == "" || pkgpath[0] == '.' then "" else [pkgpath[0]] + PackageName(pkgpath[1..])
  }

  function WithoutName(pkgpath: string): string {
    if pkgpath == "" || pkgpath[0] == '.' then pkgpath else WithoutName(pkgpath[1..])
  }

  function RealPath(sources: Sources, base: string, pkgpath: string): string {
    var path := base + "/" + Slashed(pkgpath);
    if path + ".k" in sources && sources[path + ".k"].File? then path + ".k" else path
  }

  /** `replacen(root, ".", 1)`: the first occurrence of `root` becomes a dot. */
  function Relative(root: string, path: string): string {
    if root <= path then "." + path[|root|..]
    else if path == "" then ""
    else [path[0]] + Relative(root, path[1..])
  }

  function Joined(files: seq<Bytes>): Bytes {
    if files == [] then [] else files[0] + Joined(files[1..])
  }

  function BytesOf(s: Source): Bytes {
    match s
    case File(bytes) => bytes
    case Directory(files) => Joined(files)
  }

  /** The bytes the digest is taken of; of a path that does not exist, none. */
  function Hashed(sources: Sources, path: string): Bytes {
    if path in sources then BytesOf(sources[path]) else []
  }

  datatype Settings = Settings(root: string, externals: map<string, string>)

  /** Where a load looks for the source; an external package only needs its base to exist. */
  function LoadPath(c: Settings, sources: Sources, pkgpath: string): Option<string> {
    var internal := RealPath(sources, c.root, pkgpath);
    var name := PackageName(pkgpath);
    if internal in sources then Some(internal)
    else if name in c.externals && c.externals[name] in sources then
      Some(RealPath(sources, c.externals[name], WithoutName(pkgpath)))
    else None
  }

  /** Where a save looks for it; the digest is written only if the path exists. */
  function SavePath(c: Settings, sources: Sources, pkgpath: string): Option<string> {
    var internal := RealPath(sources, c.root, pkgpath);
    var name := PackageName(pkgpath);
    if internal in sources then Some(internal)
    else if name in c.externals then Some(RealPath(sources, c.externals[name], WithoutName(pkgpath)))
    else None
  }

  predicate Saves(c: Settings, sources: Sources, pkgpath: string) {
    c.root != "" && pkgpath != "" && SavePath(c, sources, pkgpath).Some?
  }

  /** The key a source is noted under, and the bytes hashed. */
  datatype Hash = Hash(key: string, bytes: Bytes)

  function SavedSource(c: Settings, sources: Sources, pkgpath: string): Option<Hash> {
    var path := SavePath(c, sources, pkgpath);
    if path.Some? && path.value in sources then Some(Hash(Relative(c.root, path.value), Hashed(sources, path.value)))
    else None
  }

  function LoadedSource(c: Settings, sources: Sources, pkgpath: string): Option<Hash> {
    var path := LoadPath(c, sources, pkgpath);
    if path.Some? then Some(Hash(Relative(c.root, path.value), Hashed(sources, path.value))) else None
  }

  /** Every key is written for one of these packages only, whatever the sources are. */
  ghost predicate OneOwner(c: Settings, owner: string -> string, packages: set<string>) {
    forall sources, p :: p in packages ==> OwnedBy(SavedSource(c, sources, p), owner, p)
  }

  predicate OwnedBy(h: Option<Hash>, owner: string -> string, p: string) {
    h.Some? ==> owner(h.value.key) == p
  }

  // ---------------------------------------------------------------------------------
  // The files of the cache
  // ---------------------------------------------------------------------------------

  const INFO: string := "info"

  /** `get_cache_filename` and `get_cache_info_filename`: both are in the directory of the target. */
  function CacheFile(dir: string, pkgpath: string): string { dir + "/" + pkgpath }

  function InfoFile(dir: string): string { dir + "/" + INFO }

  /** The data file of a package is the info file exactly for the package `info`. */
  lemma {:induction false} OnlyInfoClashes(dir: string, pkgpath: string)
    ensures CacheFile(dir, pkgpath) == InfoFile(dir) <==> pkgpath == INFO
  {
    var n := |dir + "/"|;
    assert CacheFile(dir, pkgpath)[n..] == pkgpath && InfoFile(dir)[n..] == INFO;
  }

  /** What a file holds. Data do not read as digests, nor digests as data. */
  datatype Content = Digests(info: map<string, Bytes>) | Stored(data: Data)

  /** `read_info_cache`: a file that is missing or does not read as digests counts as empty. */
  function InfoIn(files: map<string, Content>): map<string, Bytes> {
    if INFO in files && files[INFO].Digests? then files[INFO].info else map[]
  }

  function Noted(files: map<string, Content>, key: string, bytes: Bytes): map<string, Content> {
    files[INFO := Digests(InfoIn(files)[key := bytes])]
  }

  /** The files after a save, which first notes the digest of the source if there is one. */
  function AfterSave(files: map<string, Content>, source: Option<Hash>, digest: Bytes -> Bytes, pkgpath: string, d: Data): map<string, Content> {
    (if source.Some? then Noted(files, source.value.key, digest(source.value.bytes)) else files)[pkgpath := Stored(d)]
  }

  // ---------------------------------------------------------------------------------
  // The cache directory
  // ---------------------------------------------------------------------------------

  /** The files of one target, by package path. */
  class Cache {
    const c: Settings
    const digest: Bytes -> Bytes
    var sources: Sources
    var files: map<string, Content>

    constructor (c: Settings, digest: Bytes -> Bytes)
      ensures this.c == c && this.digest == digest
      ensures sources == map[] && files == map[]
    {
      this.c, this.digest := c, digest;
      sources, files := map[], map[];
    }

    method Edit(to: Sources)
      modifies this`sources
      ensures sources == to
    {
      sources := to;
    }

    method WriteInfo(path: string)
      modifies this`files
      ensures files == Noted(old(files), Relative(c.root, path), digest(Hashed(sources, path)))
    {
      var info := InfoIn(files);
      info := info[Relative(c.root, path) := digest(Hashed(sources, path))];
      files := files[INFO := Digests(info)];
    }

    method SavePkgCache(pkgpath: string, d: Data) returns (ok: bool)
      modifies this`files
      ensures ok == Saves(c, sources, pkgpath)
      ensures files == if ok then AfterSave(old(files), SavedSource(c, sources, pkgpath), digest, pkgpath, d) else old(files)
    {
      if c.root == "" || pkgpath == "" { return false; }
      var path := RealPath(sources, c.root, pkgpath);
      if path in sources {
        WriteInfo(path);
      } else {
        var name := PackageName(pkgpath);
        if name !in c.externals { return false; }
        path := RealPath(sources, c.externals[name], WithoutName(pkgpath));
        if path in sources { WriteInfo(path); }
      }
      files := files[pkgpath := Stored(d)];
      return true;
    }

    /** The data stored for the package, if the source it has now is in the info file with the digest it has now. */
    method LoadPkgCache(pkgpath: string) returns (r: Option<Data>)
      ensures r.Some? <==> var now := LoadedSource(c, sources, pkgpath);
                           c.root != "" && pkgpath != "" && pkgpath in files && files[pkgpath].Stored? && now.Some?
                           && now.value.key in InfoIn(files) && InfoIn(files)[now.value.key] == digest(now.value.bytes)
      ensures r.Some? ==> r.value == files[pkgpath].data
    {
      if c.root == "" || pkgpath == "" || pkgpath !in files { return None; }
      var path := RealPath(sources, c.root, pkgpath);
      if path !in sources {
        var name := PackageName(pkgpath);
        if name !in c.externals || c.externals[name] !in sources { return None; }
        path := RealPath(sources, c.externals[name], WithoutName(pkgpath));
      }
      var info := InfoIn(files);
      var key := Relative(c.root, path);
      if key !in info || digest(Hashed(sources, path)) != info[key] { return None; }
      match files[pkgpath] {
        case Stored(d) => return Some(d);
        case Digests(_) => return None;
      }
    }
  }

  // ---------------------------------------------------------------------------------
  // Any sequence of edits, saves and loads
  // ---------------------------------------------------------------------------------

  datatype Op = Edit(to: Sources) | Save(pkgpath: string, data: Data) | Load(pkgpath: string)

  /** The sources after these operations. */
  function SourcesAfter(ops: seq<Op>): Sources {
    if ops == [] then map[]
    else if ops[|ops| - 1].Edit? then ops[|ops| - 1].to
    else SourcesAfter(ops[..|ops| - 1])
  }

  /** The last successful save of `p`. */
  function LastSave(c: Settings, ops: seq<Op>, p: string): Option<nat> {
    if ops == [] then None
    else
      var n := |ops| - 1;
      if ops[n].Save? && ops[n].pkgpath == p && Saves(c, SourcesAfter(ops[..n]), p) then Some(n)
      else LastSave(c, ops[..n], p)
  }

  /** What the save at `k` hashed, if its source existed. */
  function HashAt(c: Settings, ops: seq<Op>, k: nat): Option<Hash>
    requires k < |ops|
  {
    if ops[k].Save? && Saves(c, SourcesAfter(ops[..k]), ops[k].pkgpath) then SavedSource(c, SourcesAfter(ops[..k]), ops[k].pkgpath)
    else None
  }

  predicate HashesUnder(c: Settings, ops: seq<Op>, k: nat, key: string)
    requires k < |ops|
  {
    HashAt(c, ops, k).Some? && HashAt(c, ops, k).value.key == key
  }

  /** The operation at `k` puts the data of the package `info` where the digests were. */
  predicate Clobbers(c: Settings, ops: seq<Op>, k: nat)
    requires k < |ops|
  {
    ops[k].Save? && ops[k].pkgpath == INFO && Saves(c, SourcesAfter(ops[..k]), INFO)
  }

  /** The last save, of whatever package, that hashed under this key, if the digests were not lost after it. */
  function LastHash(c: Settings, ops: seq<Op>, key: string): Option<nat> {
    if ops == [] then None
    else
      var n := |ops| - 1;
      if Clobbers(c, ops, n) then None
      else if HashesUnder(c, ops, n, key) then Some(n)
      else LastHash(c, ops[..n], key)
  }

  /** The last save of `p` that hashed under this key, if the digests were not lost after it. */
  function LastHashOf(c: Settings, ops: seq<Op>, p: string, key: string): Option<nat> {
    if ops == [] then None
    else
      var n := |ops| - 1;
      if Clobbers(c, ops, n) then None
      else if HashesUnder(c, ops, n, key) && ops[n].pkgpath == p then Some(n)
      else LastHashOf(c, ops[..n], p, key)
  }

  lemma {:induction false} LastSaveIsSave(c: Settings, ops: seq<Op>, p: string)
    ensures var k := LastSave(c, ops, p);
            k.Some? ==> k.value < |ops| && ops[k.value].Save? && ops[k.value].pkgpath == p
  {
    if ops != [] { LastSaveIsSave(c, ops[..|ops| - 1], p); }
  }

  lemma {:induction false} HashPrefix(c: Settings, ops: seq<Op>, m: nat, k: nat)
    requires k < m <= |ops|
    ensures HashAt(c, ops[..m], k) == HashAt(c, ops, k)
  {
    assert ops[..m][..k] == ops[..k];
  }

  lemma {:induction false} LastHashHashes(c: Settings, ops: seq<Op>, key: string)
    ensures var h := LastHash(c, ops, key); h.Some? ==> h.value < |ops| && HashesUnder(c, ops, h.value, key)
  {
    if ops != [] {
      var n := |ops| - 1;
      LastHashHashes(c, ops[..n], key);
      var h := LastHash(c, ops[..n], key);
      if h.Some? { HashPrefix(c, ops, n, h.value); }
    }
  }

  /** The digest that was hashed last under this key. */
  function LastDigest(c: Settings, digest: Bytes -> Bytes, ops: seq<Op>, key: string): Option<Bytes> {
    var h := LastHash(c, ops, key);
    if h.Some? && h.value < |ops| && HashAt(c, ops, h.value).Some? then Some(digest(HashAt(c, ops, h.value).value.bytes)) else None
  }

  /**
   The answer to a load that comes after these operations: the data of the last save of the
   package, if the last save of any package that hashed under the key used now hashed the
   digest there is now, and the digests were not lost after it. The package `info` is never
   found.
   */
  function Answer(c: Settings, digest: Bytes -> Bytes, ops: seq<Op>, p: string): Option<Data> {
    var k, now := LastSave(c, ops, p), LoadedSource(c, SourcesAfter(ops), p);
    if c.root != "" && p != "" && p != INFO && k.Some? && k.value < |ops| && ops[k.value].Save? && now.Some?
       && LastDigest(c, digest, ops, now.value.key) == Some(digest(now.value.bytes))
    then Some(ops[k.value].data) else None
  }

  /** The files hold, for every package and every key, what the last save concerned left there. */
  ghost predicate DataFits(c: Settings, ops: seq<Op>, files: map<string, Content>) {
    && (INFO in files && files[INFO].Stored? ==> InfoIn(files) == map[])
    && forall p {:trigger LastSave(c, ops, p)} {:trigger p in files} :: p != INFO ==> DataFit(c, ops, files, p)
  }

  ghost predicate DataFit(c: Settings, ops: seq<Op>, files: map<string, Content>, p: string) {
    var k := LastSave(c, ops, p);
    && (p in files <==> k.Some?)
    && (k.Some? ==> k.value < |ops| && ops[k.value].Save? && files[p] == Stored(ops[k.value].data))
  }

  ghost predicate InfoFits(c: Settings, digest: Bytes -> Bytes, ops: seq<Op>, info: map<string, Bytes>) {
    forall key {:trigger LastDigest(c, digest, ops, key)} {:trigger key in info} ::
      LastDigest(c, digest, ops, key) == if key in info then Some(info[key]) else None
  }

  lemma {:induction false} NothingYet(c: Settings, digest: Bytes -> Bytes)
    ensures DataFits(c, [], map[]) && InfoFits(c, digest, [], InfoIn(map[]))
  {
    var files: map<string, Content> := map[];
    forall p | p != INFO ensures DataFit(c, [], files, p) { assert LastSave(c, [], p) == None; }
    forall key ensures LastDigest(c, digest, [], key) == None { assert LastHash(c, [], key) == None; }
  }

  /** The files after the operation at `n`. */
  function FilesAfter(c: Settings, digest: Bytes -> Bytes, ops: seq<Op>, n: nat, files: map<string, Content>): map<string, Content>
    requires n < |ops|
  {
    var sources := SourcesAfter(ops[..n]);
    if ops[n].Save? && Saves(c, sources, ops[n].pkgpath) then
      AfterSave(files, SavedSource(c, sources, ops[n].pkgpath), digest, ops[n].pkgpath, ops[n].data)
    else files
  }

  lemma {:induction false} DataStep(c: Settings, digest: Bytes -> Bytes, ops: seq<Op>, n: nat, files: map<string, Content>)
    requires n < |ops| && DataFits(c, ops[..n], files)
    ensures DataFits(c, ops[..n + 1], FilesAfter(c, digest, ops, n, files))
  {
    var before, after, files' := ops[..n], ops[..n + 1], FilesAfter(c, digest, ops, n, files);
    assert after[..n] == before;
    forall p | p != INFO ensures DataFit(c, after, files', p) {
      assert DataFit(c, before, files, p) by { assert LastSave(c, before, p) == LastSave(c, before, p); }
    }
  }

  /** The digests after the operation at `n`. */
  lemma {:induction false} InfoAfter(c: Settings, digest: Bytes -> Bytes, ops: seq<Op>, n: nat, files: map<string, Content>)
    requires n < |ops|
    ensures var h, after := HashAt(c, ops, n), FilesAfter(c, digest, ops, n, files);
            InfoIn(after) == if Clobbers(c, ops, n) then map[]
                             else if h.Some? then InfoIn(files)[h.value.key := digest(h.value.bytes)] else InfoIn(files)
  {
  }

  lemma {:induction false} InfoStep(c: Settings, digest: Bytes -> Bytes, ops: seq<Op>, n: nat, info: map<string, Bytes>, info': map<string, Bytes>)
    requires n < |ops| && InfoFits(c, digest, ops[..n], info)
    requires var h := HashAt(c, ops, n);
             info' == if Clobbers(c, ops, n) then map[] else if h.Some? then info[h.value.key := digest(h.value.bytes)] else info
    ensures InfoFits(c, digest, ops[..n + 1], info')
  {
    var before, after := ops[..n], ops[..n + 1];
    assert after[..n] == before;
    HashPrefix(c, ops, n + 1, n);
    forall key ensures LastDigest(c, digest, after, key) == if key in info' then Some(info'[key]) else None {
      assert LastDigest(c, digest, before, key) == if key in info then Some(info[key]) else None;
      LastDigestStep(c, digest, after, key);
    }
  }

  lemma {:induction false} LastDigestStep(c: Settings, digest: Bytes -> Bytes, ops: seq<Op>, key: string)
    requires ops != []
    ensures var n := |ops| - 1;
            LastDigest(c, digest, ops, key)
            == if Clobbers(c, ops, n) then None
               else if HashesUnder(c, ops, n, key) then Some(digest(HashAt(c, ops, n).value.bytes))
               else LastDigest(c, digest, ops[..n], key)
  {
    var n := |ops| - 1;
    if !Clobbers(c, ops, n) && !HashesUnder(c, ops, n, key) {
      LastHashHashes(c, ops[..n], key);
      var h := LastHash(c, ops[..n], key);
      if h.Some? { HashPrefix(c, ops, n, h.value); }
    }
  }

  /** The cache is what these operations have made it. */
  ghost predicate Fits(cache: Cache, ops: seq<Op>)
    reads cache
  {
    && cache.sources == SourcesAfter(ops) && DataFits(cache.c, ops, cache.files)
    && InfoFits(cache.c, cache.digest, ops, InfoIn(cache.files))
  }

  /** The operation at `i` on the cache. */
  method Perform(cache: Cache, ops: seq<Op>, i: nat) returns (answer: Option<Data>)
    modifies cache
    requires i < |ops| && Fits(cache, ops[..i])
    ensures Fits(cache, ops[..i + 1])
    ensures answer == if ops[i].Load? then Answer(cache.c, cache.digest, ops[..i], ops[i].pkgpath) else None
  {
    answer := None;
    ghost var files := cache.files;
    assert ops[..i + 1][..i] == ops[..i];
    match ops[i] {
      case Edit(to) => cache.Edit(to);
      case Save(pkgpath, d) => var _ := cache.SavePkgCache(pkgpath, d);
      case Load(pkgpath) =>
        answer := cache.LoadPkgCache(pkgpath);
        LoadIsAnswer(cache.c, cache.digest, ops[..i], pkgpath, files, answer);
    }
    assert cache.files == FilesAfter(cache.c, cache.digest, ops, i, files);
    DataStep(cache.c, cache.digest, ops, i, files);
    InfoAfter(cache.c, cache.digest, ops, i, files);
    InfoStep(cache.c, cache.digest, ops, i, InfoIn(files), InfoIn(cache.files));
  }

  lemma {:induction false} LoadIsAnswer(c: Settings, digest: Bytes -> Bytes, ops: seq<Op>, p: string, files: map<string, Content>, r: Option<Data>)
    requires DataFits(c, ops, files) && InfoFits(c, digest, ops, InfoIn(files))
    requires r.Some? <==> var now := LoadedSource(c, SourcesAfter(ops), p);
                          c.root != "" && p != "" && p in files && files[p].Stored? && now.Some?
                          && now.value.key in InfoIn(files) && InfoIn(files)[now.value.key] == digest(now.value.bytes)
    requires r.Some? ==> r.value == files[p].data
    ensures r == Answer(c, digest, ops, p)
  {
    var now := LoadedSource(c, SourcesAfter(ops), p);
    if p != INFO { assert DataFit(c, ops, files, p) by { assert LastSave(c, ops, p) == LastSave(c, ops, p); } }
    if now.Some? {
      assert LastDigest(c, digest, ops, now.value.key)
          == if now.value.key in InfoIn(files) then Some(InfoIn(files)[now.value.key]) else None;
    }
  }

  /** Over every sequence of operations, every load is answered in this way. */
  method Serve(c: Settings, digest: Bytes -> Bytes, ops: seq<Op>) returns (answers: seq<Option<Data>>)
    ensures |answers| == |ops|
    ensures forall i :: 0 <= i < |ops| ==> answers[i] == if ops[i].Load? then Answer(c, digest, ops[..i], ops[i].pkgpath) else None
  {
    var cache := new Cache(c, digest);
    answers := [];
    assert ops[..0] == [];
    NothingYet(c, digest);
    for i := 0 to |ops|
      invariant |answers| == i && cache.c == c && cache.digest == digest
      invariant Fits(cache, ops[..i])
      invariant forall j :: 0 <= j < i ==> answers[j] == if ops[j].Load? then Answer(c, digest, ops[..j], ops[j].pkgpath) else None
    {
      var answer := Perform(cache, ops, i);
      answers := answers + [answer];
    }
  }

  // ---------------------------------------------------------------------------------
  // When the answer is fresh
  // ---------------------------------------------------------------------------------

  /** Where the key belongs to `p` alone, the last save that hashed under it is one of `p`. */
  lemma {:induction false} OwnHashes(c: Settings, ops: seq<Op>, owner: string -> string, packages: set<string>, key: string)
    requires OneOwner(c, owner, packages) && forall i :: 0 <= i < |ops| && ops[i].Save? ==> ops[i].pkgpath in packages
    ensures LastHash(c, ops, key) == LastHashOf(c, ops, owner(key), key)
  {
    if ops != [] {
      var n := |ops| - 1;
      OwnHashes(c, ops[..n], owner, packages, key);
      if HashesUnder(c, ops, n, key) {
        assert OwnedBy(SavedSource(c, SourcesAfter(ops[..n]), ops[n].pkgpath), owner, ops[n].pkgpath);
      }
    }
  }

  lemma {:induction false} HashIsSave(c: Settings, ops: seq<Op>, p: string, key: string)
    ensures var h, k := LastHashOf(c, ops, p, key), LastSave(c, ops, p);
            h.Some? ==> && h.value < |ops| && HashesUnder(c, ops, h.value, key) && ops[h.value].pkgpath == p
                        && k.Some? && h.value <= k.value < |ops| && ops[k.value].Save?
  {
    if ops != [] {
      var n := |ops| - 1;
      HashIsSave(c, ops[..n], p, key);
      LastSaveIsSave(c, ops, p);
      var h := LastHashOf(c, ops[..n], p, key);
      if h.Some? { HashPrefix(c, ops, n, h.value); }
    }
  }

  /**
   Where keys have one owner: a load that finds a source gives data if and only if the last
   save of the package that hashed under the key used now hashed the digest there is now. The
   data are those of the last save of all; so they were made from another form of the source,
   or from none, exactly if those are two different saves.
   */
  lemma {:induction false} AnswerIff(c: Settings, digest: Bytes -> Bytes, ops: seq<Op>, p: string, owner: string -> string, packages: set<string>)
    requires OneOwner(c, owner, packages) && forall i :: 0 <= i < |ops| && ops[i].Save? ==> ops[i].pkgpath in packages
    requires c.root != "" && p != "" && p != INFO && LoadedSource(c, SourcesAfter(ops), p).Some?
    requires OwnedBy(LoadedSource(c, SourcesAfter(ops), p), owner, p)
    ensures var now, r := LoadedSource(c, SourcesAfter(ops), p).value, Answer(c, digest, ops, p);
            var h, k := LastHashOf(c, ops, p, now.key), LastSave(c, ops, p);
            && (h.Some? ==> h.value < |ops| && HashAt(c, ops, h.value).Some? && k.Some?)
            && (k.Some? ==> k.value < |ops| && ops[k.value].Save?)
            && (r.Some? <==> h.Some? && digest(HashAt(c, ops, h.value).value.bytes) == digest(now.bytes))
            && (r.Some? ==> r.value == ops[k.value].data)
            && (r.Some? ==> (h == k <==> HashesUnder(c, ops, k.value, now.key)))
  {
    var now := LoadedSource(c, SourcesAfter(ops), p).value;
    OwnHashes(c, ops, owner, packages, now.key);
    HashIsSave(c, ops, p, now.key);
    LastSaveIsSave(c, ops, p);
    LastHashLater(c, ops, p, now.key);
  }

  /** The digests were not lost after the operation at `k`. */
  predicate KeptSince(c: Settings, ops: seq<Op>, k: nat) {
    |ops| > k + 1 ==> !Clobbers(c, ops, |ops| - 1) && KeptSince(c, ops[..|ops| - 1], k)
  }

  /** If the last save hashed under the key, it is the last that did, unless the digests were lost since. */
  lemma {:induction false} LastHashLater(c: Settings, ops: seq<Op>, p: string, key: string)
    requires p != INFO
    ensures var h, k := LastHashOf(c, ops, p, key), LastSave(c, ops, p);
            k.Some? && k.value < |ops| && HashesUnder(c, ops, k.value, key) ==> h == if KeptSince(c, ops, k.value) then k else None
  {
    if ops != [] {
      var n := |ops| - 1;
      LastHashLater(c, ops[..n], p, key);
      LastSaveIsSave(c, ops, p);
      var k := LastSave(c, ops[..n], p);
      if k.Some? && k == LastSave(c, ops, p) {
        LastSaveIsSave(c, ops[..n], p);
        HashPrefix(c, ops, n, k.value);
      }
    }
  }

  /**
   With an injective digest, and if the last save hashed under the key used now: data come back
   exactly if the hashed bytes are unchanged and the package `info` was not saved since.
   */
  lemma {:induction false} UnchangedIffLoaded(c: Settings, digest: Bytes -> Bytes, ops: seq<Op>, p: string, owner: string -> string, packages: set<string>)
    requires OneOwner(c, owner, packages) && forall i :: 0 <= i < |ops| && ops[i].Save? ==> ops[i].pkgpath in packages
    requires c.root != "" && p != "" && p != INFO && LoadedSource(c, SourcesAfter(ops), p).Some?
    requires OwnedBy(LoadedSource(c, SourcesAfter(ops), p), owner, p)
    requires forall a, b :: digest(a) == digest(b) ==> a == b
    ensures var now, k := LoadedSource(c, SourcesAfter(ops), p).value, LastSave(c, ops, p);
            k.Some? ==>
              && k.value < |ops| && ops[k.value].Save?
              && (HashesUnder(c, ops, k.value, now.key) ==>
                    (Answer(c, digest, ops, p) == Some(ops[k.value].data)
                     <==> HashAt(c, ops, k.value).value.bytes == now.bytes && KeptSince(c, ops, k.value)))
  {
    AnswerIff(c, digest, ops, p, owner, packages);
    LastHashLater(c, ops, p, LoadedSource(c, SourcesAfter(ops), p).value.key);
  }

  /** Saving the package `info` loses the digests of all packages: no load finds anything until they are saved again. */
  lemma {:induction false} InfoLosesAll(c: Settings, digest: Bytes -> Bytes, ops: seq<Op>, p: string)
    requires ops != [] && Clobbers(c, ops, |ops| - 1)
    ensures Answer(c, digest, ops, p) == None
  {
  }

  // ---------------------------------------------------------------------------------
  // When keys have one owner
  // ---------------------------------------------------------------------------------

  predicate NoSlash(p: string) {
    forall i :: 0 <= i < |p| ==> p[i] != '/'
  }

  function Dotted(path: string): string {
    if path == "" then "" else (if path[0] == '/' then "." else [path[0]]) + Dotted(path[1..])
  }

  /** The package a key of the form `./a/b` or `./a/b.k` belongs to. */
  function InternalOwner(key: string): string {
    if |key| < 2 then ""
    else
      var path := key[2..];
      if |path| >= 2 && path[|path| - 2..] == ".k" then Dotted(path[..|path| - 2]) else Dotted(path)
  }

  lemma {:induction false} DottedSlashed(p: string)
    requires NoSlash(p)
    ensures Dotted(Slashed(p)) == p
    ensures forall i :: 0 <= i < |Slashed(p)| ==> Slashed(p)[i] != '.'
  {
    if p != "" {
      DottedSlashed(p[1..]);
      var first := if p[0] == '.' then "/" else [p[0]];
      assert Slashed(p) == first + Slashed(p[1..]);
      assert Slashed(p)[0] == first[0] && Slashed(p)[1..] == Slashed(p[1..]);
    }
  }

  lemma {:induction false} RelativeInside(root: string, rest: string)
    ensures Relative(root, root + rest) == "." + rest
  {
    assert (root + rest)[|root|..] == rest;
  }

  /** A path without one of the characters of `root` stays as it is. */
  lemma {:induction false} RelativeOutside(root: string, path: string, j: nat)
    requires j < |root| && forall i :: 0 <= i < |path| ==> path[i] != root[j]
    ensures Relative(root, path) == path
  {
    if path != "" { RelativeOutside(root, path[1..], j); }
    if j < |path| { assert path[j] != root[j]; }
  }

  /** Without external packages, packages whose names have no slash never share a key. */
  lemma {:induction false} InternalPackagesHaveOneOwner(c: Settings, packages: set<string>)
    requires c.externals == map[] && forall p :: p in packages ==> NoSlash(p)
    ensures OneOwner(c, InternalOwner, packages)
    ensures forall sources, p :: p in packages ==> OwnedBy(LoadedSource(c, sources, p), InternalOwner, p)
  {
    forall sources: Sources, p | p in packages
      ensures OwnedBy(SavedSource(c, sources, p), InternalOwner, p) && OwnedBy(LoadedSource(c, sources, p), InternalOwner, p)
    {
      InternalKey(c, sources, p);
    }
  }

  lemma {:induction false} InternalKey(c: Settings, sources: Sources, p: string)
    requires c.externals == map[] && NoSlash(p)
    ensures OwnedBy(SavedSource(c, sources, p), InternalOwner, p) && LoadedSource(c, sources, p) == SavedSource(c, sources, p)
  {
    var slashed := Slashed(p);
    DottedSlashed(p);
    var path := RealPath(sources, c.root, p);
    assert c.root + "/" + slashed == c.root + ("/" + slashed);
    assert c.root + "/" + slashed + ".k" == c.root + ("/" + slashed + ".k");
    RelativeInside(c.root, "/" + slashed);
    RelativeInside(c.root, "/" + slashed + ".k");
    var key := Relative(c.root, path);
    if path == c.root + "/" + slashed {
      assert key[2..] == slashed;
      assert |slashed| >= 2 ==> slashed[|slashed| - 2..][0] == slashed[|slashed| - 2] != ".k"[0];
    } else {
      assert key[2..] == slashed + ".k";
      assert (slashed + ".k")[|slashed|..] == ".k" && (slashed + ".k")[..|slashed|] == slashed;
    }
  }

  // ---------------------------------------------------------------------------------
  // What the conditions are for
  // ---------------------------------------------------------------------------------

  function AsDirectory(root: string, p: string, a: Bytes): Sources {
    map[root + "/" + Slashed(p) := Directory([a])]
  }

  function AsFile(root: string, p: string, a: Bytes, b: Bytes): Sources {
    AsDirectory(root, p, a)[root + "/" + Slashed(p) + ".k" := File(b)]
  }

  lemma {:induction false} MoveKeys(root: string, p: string, a: Bytes, b: Bytes)
    ensures var c, path := Settings(root, map[]), "./" + Slashed(p);
            && SavedSource(c, AsDirectory(root, p, a), p) == LoadedSource(c, AsDirectory(root, p, a), p) == Some(Hash(path, Joined([a])))
            && SavedSource(c, AsFile(root, p, a, b), p) == Some(Hash(path + ".k", b))
            && path != path + ".k"
  {
    var path := root + "/" + Slashed(p);
    assert path == root + ("/" + Slashed(p)) && path + ".k" == root + ("/" + Slashed(p) + ".k");
    assert |path + ".k"| != |path|;
    RelativeInside(root, "/" + Slashed(p));
    RelativeInside(root, "/" + Slashed(p) + ".k");
    assert "." + ("/" + Slashed(p)) == "./" + Slashed(p);
    assert "." + ("/" + Slashed(p) + ".k") == "./" + Slashed(p) + ".k";
    assert |"./" + Slashed(p) + ".k"| != |"./" + Slashed(p)|;
  }

  /** A directory is saved; it is a file, saved too; it is the directory again. */
  function MoveOps(root: string, p: string, a: Bytes, b: Bytes, d1: Data, d2: Data): seq<Op> {
    [Edit(AsDirectory(root, p, a)), Save(p, d1), Edit(AsFile(root, p, a, b)), Save(p, d2), Edit(AsDirectory(root, p, a)), Load(p)]
  }

  /** Then the load finds the old digest under the old key, and returns the data made from the file. */
  method StaleAfterMove(root: string, p: string, digest: Bytes -> Bytes, a: Bytes, b: Bytes, d1: Data, d2: Data) returns (r: Option<Data>)
    requires root != "" && p != "" && p != INFO
    ensures r == Some(d2)
  {
    var ops := MoveOps(root, p, a, b, d1, d2);
    var answers := Serve(Settings(root, map[]), digest, ops);
    r := answers[5];
    MoveKeys(root, p, a, b);
    StaleAnswer(Settings(root, map[]), digest, ops, p);
  }

  lemma {:induction false} StaleAnswer(c: Settings, digest: Bytes -> Bytes, ops: seq<Op>, p: string)
    requires |ops| == 6 && ops[0].Edit? && ops[2].Edit? && ops[4] == ops[0] && c.root != "" && p != "" && p != INFO
    requires ops[1].Save? && ops[1].pkgpath == p && ops[3].Save? && ops[3].pkgpath == p && ops[5] == Load(p)
    requires Saves(c, ops[0].to, p) && Saves(c, ops[2].to, p)
    requires SavedSource(c, ops[0].to, p).Some? && LoadedSource(c, ops[0].to, p) == SavedSource(c, ops[0].to, p)
    requires var h := SavedSource(c, ops[2].to, p); h.Some? ==> h.value.key != SavedSource(c, ops[0].to, p).value.key
    ensures Answer(c, digest, ops[..5], p) == Some(ops[3].data)
  {
    var all := ops[..5];
    var key := SavedSource(c, ops[0].to, p).value.key;
    assert all[..4] == ops[..4] && ops[..4][..3] == ops[..3] && ops[..3][..2] == ops[..2] && ops[..2][..1] == ops[..1] && ops[..1][..0] == [];
    assert SourcesAfter(ops[..1]) == ops[0].to && SourcesAfter(ops[..2]) == ops[0].to;
    assert SourcesAfter(ops[..3]) == ops[2].to && SourcesAfter(all) == ops[0].to;
    assert LastSave(c, ops[..4], p) == Some(3) && LastSave(c, all, p) == Some(3);
    assert HashesUnder(c, ops[..2], 1, key);
    assert LastHash(c, ops[..2], key) == Some(1) && LastHash(c, ops[..3], key) == Some(1);
    assert !HashesUnder(c, ops[..4], 3, key);
    assert LastHash(c, ops[..4], key) == Some(1) && LastHash(c, all, key) == Some(1);
    assert all[..1] == ops[..1];
  }

  /** An external package in `/e`, and `/e` without it. */
  function Present(a: Bytes): Sources { map["/e" := Directory([]), "/e//m" := Directory([a])] }

  function Absent(): Sources { map["/e" := Directory([])] }

  lemma {:induction false} AbsentNames()
    ensures PackageName("lib.m") == "lib" && WithoutName("lib.m") == ".m" && Slashed(".m") == "/m" && Slashed("lib.m") == "lib/m"
    ensures Relative("/r", "/e//m") == "/e//m"
  {
    RelativeOutside("/r", "/e//m", 1);
  }

  lemma {:induction false} AbsentPaths(sources: Sources)
    requires forall path :: path in sources ==> path == "/e" || path == "/e//m"
    ensures RealPath(sources, "/r", "lib.m") == "/r/lib/m" && "/r/lib/m" !in sources
    ensures RealPath(sources, "/e", ".m") == "/e//m"
  {
    AbsentNames();
    assert "/r/lib/m"[1] == 'r' && "/r/lib/m.k"[1] == 'r' && |"/e//m.k"| == 7;
    assert "/e"[1] == 'e' && "/e//m"[1] == 'e' && |"/e//m"| == 5 && |"/e"| == 2;
  }

  lemma {:induction false} AbsentKeys(a: Bytes)
    ensures var c := Settings("/r", map["lib" := "/e"]);
            && SavedSource(c, Present(a), "lib.m") == LoadedSource(c, Present(a), "lib.m") == Some(Hash("/e//m", Joined([a])))
            && SavedSource(c, Absent(), "lib.m") == None && SavePath(c, Absent(), "lib.m").Some?
  {
    AbsentNames();
    AbsentPaths(Present(a));
    AbsentPaths(Absent());
    assert |"/e"| != |"/e//m"|;
  }

  /** An external package is saved; it is gone at the next save; it is back: the load returns the data made without it. */
  method StaleAfterAbsence(digest: Bytes -> Bytes, a: Bytes, d1: Data, d2: Data) returns (r: Option<Data>)
    ensures r == Some(d2)
  {
    var c := Settings("/r", map["lib" := "/e"]);
    var ops := [Edit(Present(a)), Save("lib.m", d1), Edit(Absent()), Save("lib.m", d2), Edit(Present(a)), Load("lib.m")];
    var answers := Serve(c, digest, ops);
    r := answers[5];
    AbsentKeys(a);
    StaleAnswer(c, digest, ops, "lib.m");
  }

  /** A package `a` and a package `info`, in `/r`. */
  function Both(a: Bytes, b: Bytes): Sources { map["/r/a" := Directory([a]), "/r/info" := Directory([b])] }

  lemma {:induction false} BothKeys(a: Bytes, b: Bytes)
    ensures var c := Settings("/r", map[]);
            && SavedSource(c, Both(a, b), "a") == LoadedSource(c, Both(a, b), "a") == Some(Hash("./a", Joined([a])))
            && Saves(c, Both(a, b), "a") && Saves(c, Both(a, b), INFO)
  {
    var c, sources := Settings("/r", map[]), Both(a, b);
    assert Slashed("a") == "a" && Slashed(INFO) == INFO;
    assert |"/r/a.k"| == 6 && |"/r/a"| == 4 && |"/r/info"| == 7 && |"/r/info.k"| == 9;
    assert RealPath(sources, "/r", "a") == "/r/a" && RealPath(sources, "/r", INFO) == "/r/info";
    RelativeInside("/r", "/a");
    assert "/r" + "/a" == "/r/a" && "." + "/a" == "./a";
  }

  /** Nothing changes but that the package `info` is saved, and the data of `a` are not found any more; nor are its own. */
  method LostToInfo(digest: Bytes -> Bytes, a: Bytes, b: Bytes, d: Data, e: Data) returns (answers: seq<Option<Data>>)
    ensures |answers| == 6 && answers[2] == Some(d) && answers[4] == None && answers[5] == None
  {
    var c := Settings("/r", map[]);
    var ops := [Edit(Both(a, b)), Save("a", d), Load("a"), Save(INFO, e), Load("a"), Load(INFO)];
    answers := Serve(c, digest, ops);
    BothKeys(a, b);
    FoundThenLost(c, digest, ops);
  }

  lemma {:induction false} FoundThenLost(c: Settings, digest: Bytes -> Bytes, ops: seq<Op>)
    requires |ops| == 6 && ops[0].Edit? && c.root != "" && ops[1].Save? && ops[1].pkgpath == "a" && ops[2] == Load("a")
    requires ops[3].Save? && ops[3].pkgpath == INFO && ops[4] == Load("a") && ops[5] == Load(INFO)
    requires Saves(c, ops[0].to, "a") && Saves(c, ops[0].to, INFO)
    requires SavedSource(c, ops[0].to, "a").Some? && LoadedSource(c, ops[0].to, "a") == SavedSource(c, ops[0].to, "a")
    ensures Answer(c, digest, ops[..2], "a") == Some(ops[1].data)
    ensures Answer(c, digest, ops[..4], "a") == None && Answer(c, digest, ops[..5], INFO) == None
  {
    assert ops[..4][..3] == ops[..3] && ops[..3][..2] == ops[..2] && ops[..2][..1] == ops[..1] && ops[..1][..0] == [];
    assert SourcesAfter(ops[..1]) == ops[0].to && SourcesAfter(ops[..2]) == ops[0].to && SourcesAfter(ops[..3]) == ops[0].to;
    assert |INFO| == 4;
    assert LastHash(c, ops[..2], SavedSource(c, ops[0].to, "a").value.key) == Some(1);
    InfoLosesAll(c, digest, ops[..4], "a");
  }
}

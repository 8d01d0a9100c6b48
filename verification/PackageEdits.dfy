/**
 Which edits of a package's source a load notices (crates/config/src/cache.rs,
 `get_cache_info`, `get_pkg_realpath_from_pkgpath`): every edit of a file, and of any one file
 of a directory; not bytes that move from the end of one file to the beginning of the next.
 */
module PackageEdits {
  import opened Wrappers
  import opened PackageCache

  // ---------------------------------------------------------------------------------
  // Edits
  // ---------------------------------------------------------------------------------

  /** Other bytes in a file, or in one of the files of a directory. */
  ghost predicate Altered(a: Source, b: Source) {
    || (a.File? && b.File? && a.bytes != b.bytes)
    || (exists pre: seq<Bytes>, x: Bytes, y: Bytes, post: seq<Bytes> ::
          a == Directory(pre + [x] + post) && b == Directory(pre + [y] + post) && x != y)
  }

  /** The bytes `m` at the end of one file of a directory are at the beginning of the next in the other. */
  ghost predicate Moved(a: Source, b: Source) {
    exists pre: seq<Bytes>, x: Bytes, m: Bytes, y: Bytes, post: seq<Bytes> ::
      a == Directory(pre + [x + m, y] + post) && b == Directory(pre + [x, m + y] + post)
  }

  lemma {:induction false} JoinedConcat(a: seq<Bytes>, b: seq<Bytes>)
    ensures Joined(a + b) == Joined(a) + Joined(b)
  {
    if a == [] {
      assert a + b == b;
    } else {
      assert (a + b)[0] == a[0] && (a + b)[1..] == a[1..] + b;
      JoinedConcat(a[1..], b);
    }
  }

  lemma {:induction false} JoinedAround(pre: seq<Bytes>, x: Bytes, post: seq<Bytes>)
    ensures Joined(pre + [x] + post) == Joined(pre) + x + Joined(post)
  {
    JoinedConcat(pre + [x], post);
    JoinedConcat(pre, [x]);
    assert Joined([x]) == x + Joined([x][1..]);
  }

  lemma {:induction false} Cancel(a: Bytes, x: Bytes, y: Bytes, b: Bytes)
    requires a + x + b == a + y + b
    ensures x == y
  {
    var xs, ys := a + x + b, a + y + b;
    assert |x| == |y|;
    assert x == xs[|a|..|a| + |x|] && y == ys[|a|..|a| + |y|];
  }

  lemma {:induction false} AlteredShows(a: Source, b: Source)
    requires Altered(a, b)
    ensures BytesOf(a) != BytesOf(b)
  {
    if a.Directory? {
      var pre: seq<Bytes>, x: Bytes, y: Bytes, post: seq<Bytes> :|
        a == Directory(pre + [x] + post) && b == Directory(pre + [y] + post) && x != y;
      JoinedAround(pre, x, post);
      JoinedAround(pre, y, post);
      if BytesOf(a) == BytesOf(b) { Cancel(Joined(pre), x, y, Joined(post)); }
    }
  }

  lemma {:induction false} TwoJoined(pre: seq<Bytes>, x: Bytes, y: Bytes, post: seq<Bytes>)
    ensures Joined(pre + [x, y] + post) == Joined(pre) + (x + y) + Joined(post)
  {
    JoinedConcat(pre + [x, y], post);
    JoinedConcat(pre, [x, y]);
    JoinedConcat([x], [y]);
    JoinedAround([], x, []);
    JoinedAround([], y, []);
    assert [x] + [y] == [x, y];
  }

  lemma {:induction false} MovedHides(a: Source, b: Source)
    requires Moved(a, b)
    ensures BytesOf(a) == BytesOf(b)
  {
    var pre: seq<Bytes>, x: Bytes, m: Bytes, y: Bytes, post: seq<Bytes> :|
      a == Directory(pre + [x + m, y] + post) && b == Directory(pre + [x, m + y] + post);
    TwoJoined(pre, x + m, y, post);
    TwoJoined(pre, x, m + y, post);
    assert (x + m) + y == x + (m + y);
  }

  // ---------------------------------------------------------------------------------
  // After any history
  // ---------------------------------------------------------------------------------

  /**
   Where keys have one owner and the digest is injective: a package whose source, at the path
   where the last save found it, has been edited since is not found.
   */
  lemma {:induction false} EditIsNoticed(c: Settings, digest: Bytes -> Bytes, ops: seq<Op>, p: string, owner: string -> string, packages: set<string>, k: nat, path: string)
    requires OneOwner(c, owner, packages) && forall i :: 0 <= i < |ops| && ops[i].Save? ==> ops[i].pkgpath in packages
    requires OwnedBy(LoadedSource(c, SourcesAfter(ops), p), owner, p)
    requires forall a, b :: digest(a) == digest(b) ==> a == b
    requires LastSave(c, ops, p) == Some(k) && k < |ops|
    requires SavePath(c, SourcesAfter(ops[..k]), p) == Some(path) && LoadPath(c, SourcesAfter(ops), p) == Some(path)
    requires path in SourcesAfter(ops[..k]) && path in SourcesAfter(ops)
    requires Altered(SourcesAfter(ops[..k])[path], SourcesAfter(ops)[path])
    ensures Answer(c, digest, ops, p) == None
  {
    if c.root != "" && p != "" && p != INFO {
      LastSaveIsSave(c, ops, p);
      UnchangedIffLoaded(c, digest, ops, p, owner, packages);
      AnswerIff(c, digest, ops, p, owner, packages);
      AlteredShows(SourcesAfter(ops[..k])[path], SourcesAfter(ops)[path]);
      assert Saves(c, SourcesAfter(ops[..k]), p) by { SaveSucceeded(c, ops, p); }
    }
  }

  lemma {:induction false} SaveSucceeded(c: Settings, ops: seq<Op>, p: string)
    ensures var k := LastSave(c, ops, p); k.Some? ==> k.value < |ops| && Saves(c, SourcesAfter(ops[..k.value]), p)
  {
    if ops != [] {
      var n := |ops| - 1;
      SaveSucceeded(c, ops[..n], p);
      var k := LastSave(c, ops[..n], p);
      if k.Some? { assert ops[..n][..k.value] == ops[..k.value]; }
    }
  }

  // ---------------------------------------------------------------------------------
  // From the sources alone
  // ---------------------------------------------------------------------------------

  /** A package path as a path of files: a slash for every dot. */
  lemma {:induction false} SlashForDot(p: string)
    ensures |Slashed(p)| == |p| && forall i :: 0 <= i < |p| ==> Slashed(p)[i] == if p[i] == '.' then '/' else p[i]
  {
    if p != "" {
      SlashForDot(p[1..]);
      var first := if p[0] == '.' then "/" else [p[0]];
      assert Slashed(p) == first + Slashed(p[1..]);
      forall i | 0 <= i < |p| ensures Slashed(p)[i] == if p[i] == '.' then '/' else p[i] {
        if i > 0 { assert Slashed(p)[i] == Slashed(p[1..])[i - 1]; }
      }
    }
  }

  lemma {:induction false} NameStep(first: char, name: string, rest: string, all: string)
    requires name + rest == all && '.' !in name && first != '.'
    ensures ([first] + name) + rest == [first] + all && '.' !in [first] + name
  {
  }

  /** The name of an external package is what stands before the first dot. */
  lemma {:induction false} NameBeforeDot(p: string)
    ensures PackageName(p) + WithoutName(p) == p && '.' !in PackageName(p)
    ensures WithoutName(p) == "" || WithoutName(p)[0] == '.'
  {
    if p != "" && p[0] != '.' {
      NameBeforeDot(p[1..]);
      NameStep(p[0], PackageName(p[1..]), WithoutName(p[1..]), p[1..]);
      assert p == [p[0]] + p[1..];
    }
  }

  /** A save succeeds for a package that has a source, and for one whose name is that of an external package. */
  lemma {:induction false} SavedIff(c: Settings, sources: Sources, p: string)
    ensures var path := c.root + "/" + Slashed(p);
            Saves(c, sources, p)
            <==> c.root != "" && p != ""
                 && (path in sources || (path + ".k" in sources && sources[path + ".k"].File?) || PackageName(p) in c.externals)
  {
  }

  /** These sources, but with `s` for the package at `path`: a file ends in `.k`, a directory does not. */
  function With(rest: Sources, path: string, s: Source): Sources {
    (rest - {path, path + ".k"})[if s.File? then path + ".k" else path := s]
  }

  lemma {:induction false} WithPlaces(c: Settings, rest: Sources, p: string, s: Source)
    ensures var sources := With(rest, c.root + "/" + Slashed(p), s);
            var path := if s.File? then c.root + "/" + Slashed(p) + ".k" else c.root + "/" + Slashed(p);
            && SavePath(c, sources, p) == LoadPath(c, sources, p) == Some(path)
            && Hashed(sources, path) == BytesOf(s)
  {
    var path := c.root + "/" + Slashed(p);
    assert |path + ".k"| != |path|;
  }

  lemma {:induction false} TwoPlaces(root: string, p: string)
    ensures Relative(root, root + "/" + Slashed(p)) != Relative(root, root + "/" + Slashed(p) + ".k")
  {
    var path := root + "/" + Slashed(p);
    assert path == root + ("/" + Slashed(p)) && path + ".k" == root + ("/" + Slashed(p) + ".k");
    RelativeInside(root, "/" + Slashed(p));
    RelativeInside(root, "/" + Slashed(p) + ".k");
    assert |"." + ("/" + Slashed(p) + ".k")| != |"." + ("/" + Slashed(p))|;
  }

  /**
   A package is saved, its source becomes another, and it is loaded: it is found if nothing
   changed, or if bytes only moved between neighbouring files, and it is not found if a file
   was edited or became a directory, or a directory a file.
   */
  method SaveEditLoad(c: Settings, p: string, digest: Bytes -> Bytes, rest: Sources, a: Source, b: Source, d: Data) returns (r: Option<Data>)
    requires c.root != "" && p != "" && p != INFO
    requires forall x, y :: digest(x) == digest(y) ==> x == y
    ensures a == b || Moved(a, b) ==> r == Some(d)
    ensures Altered(a, b) || a.File? != b.File? ==> r == None
  {
    var path := c.root + "/" + Slashed(p);
    var ops := [Edit(With(rest, path, a)), Save(p, d), Edit(With(rest, path, b)), Load(p)];
    var answers := Serve(c, digest, ops);
    r := answers[3];
    WithPlaces(c, rest, p, a);
    WithPlaces(c, rest, p, b);
    TwoPlaces(c.root, p);
    AnswerAfterEdit(c, digest, ops, p);
    if Altered(a, b) { AlteredShows(a, b); }
    if Moved(a, b) { MovedHides(a, b); }
  }

  lemma {:induction false} AnswerAfterEdit(c: Settings, digest: Bytes -> Bytes, ops: seq<Op>, p: string)
    requires |ops| == 4 && ops[0].Edit? && ops[1].Save? && ops[1].pkgpath == p && ops[2].Edit?
    requires c.root != "" && p != "" && p != INFO && Saves(c, ops[0].to, p)
    requires SavedSource(c, ops[0].to, p).Some? && LoadedSource(c, ops[2].to, p).Some?
    ensures var then', now := SavedSource(c, ops[0].to, p).value, LoadedSource(c, ops[2].to, p).value;
            Answer(c, digest, ops[..3], p)
            == if then'.key == now.key && digest(then'.bytes) == digest(now.bytes) then Some(ops[1].data) else None
  {
    var all := ops[..3];
    var key := LoadedSource(c, ops[2].to, p).value.key;
    assert all[..2] == ops[..2] && ops[..2][..1] == ops[..1] && all[..1] == ops[..1] && ops[..1][..0] == [];
    assert SourcesAfter(ops[..1]) == ops[0].to && SourcesAfter(all) == ops[2].to;
    assert LastSave(c, ops[..2], p) == Some(1) && LastSave(c, all, p) == Some(1);
    assert HashAt(c, all, 1) == SavedSource(c, ops[0].to, p) == HashAt(c, ops[..2], 1);
    assert LastHash(c, ops[..1], key) == None;
    assert LastHash(c, all, key) == LastHash(c, ops[..2], key);
  }
}

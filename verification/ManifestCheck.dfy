/** Building a manifest from a tree, and verifying a tree against a manifest. */
module ManifestCheck {
  import opened Common
  import opened Manifest

  type Digest = string
  type Hash = Bytes -> Digest

  /** What the tree has at a path. */
  function Find(fs: seq<File>, p: Path): Option<Content> {
    if fs == [] then None else if fs[0].path == p then Some(fs[0].data) else Find(fs[1..], p)
  }

  function OnDisk(root: Listing, p: Path): Option<Content> {
    Find(AllFiles(root, []), p)
  }

  lemma {:induction false} FindIs(fs: seq<File>, p: Path)
    requires DistinctPaths(fs)
    ensures forall c :: Find(fs, p) == Some(c) <==> File(p, c) in fs
    ensures Find(fs, p).None? ==> forall f :: f in fs ==> f.path != p
  {
    if fs != [] {
      assert DistinctPaths(fs[1..]);
      FindIs(fs[1..], p);
      assert fs == [fs[0]] + fs[1..];
      forall f | f in fs[1..] ensures f.path != fs[0].path {
        var k :| 0 <= k < |fs[1..]| && fs[1..][k] == f;
        assert fs[k + 1] == f;
      }
    }
  }

  /** What the tree has at a path is what following the path finds. */
  lemma OnDiskIsAt(root: Listing, p: Path)
    requires WellFormed(root) && p != []
    ensures OnDisk(root, p) == At(root, p)
  {
    TreePathsDistinct(root, []);
    FindIs(AllFiles(root, []), p);
    forall c ensures OnDisk(root, p) == Some(c) <==> At(root, p) == Some(c) {
      assert [] + p == p;
      FilesAreAt(root, [], p, c);
    }
    var disk, tree := OnDisk(root, p), At(root, p);
    assert disk.Some? ==> disk == Some(disk.value) == tree;
    assert tree.Some? ==> tree == Some(tree.value) == disk;
  }

  /** The tracked files of a tree, as a bag: each once, one per path. */
  ghost predicate OncePerPath(found: multiset<File>, root: Listing) {
    forall f: File :: found[f] == if Tracked(f.path) && OnDisk(root, f.path) == Some(f.data) then 1 else 0
  }

  lemma WalkFindsOnce(root: Listing, found: multiset<File>)
    requires WellFormed(root) && found == multiset(TrackedIn(AllFiles(root, [])))
    ensures OncePerPath(found, root)
  {
    var all := AllFiles(root, []);
    TreePathsDistinct(root, []);
    forall f: File ensures found[f] == if Tracked(f.path) && OnDisk(root, f.path) == Some(f.data) then 1 else 0 {
      TrackedCount(all, f);
      FindIs(all, f.path);
      AtMostOnce(all, f);
    }
  }

  lemma {:induction false} AtMostOnce(fs: seq<File>, f: File)
    requires DistinctPaths(fs)
    ensures multiset(fs)[f] == if f in fs then 1 else 0
  {
    if fs != [] {
      assert fs == [fs[0]] + fs[1..];
      assert DistinctPaths(fs[1..]);
      AtMostOnce(fs[1..], f);
      assert forall k :: 0 <= k < |fs[1..]| ==> fs[1..][k] == fs[k + 1];
      assert fs[0] !in fs[1..];
    }
  }

  /** The manifest lists exactly the tracked readable files, with their digests. */
  ghost predicate IsManifestOf(files: map<Path, Digest>, root: Listing, hash: Hash) {
    forall p: Path ::
      && (p in files <==> Tracked(p) && OnDisk(root, p).Some? && OnDisk(root, p).value.Readable?)
      && (p in files ==> files[p] == hash(OnDisk(root, p).value.bytes))
  }

  /** In terms of paths: a manifest lists what is tracked, there and readable. */
  lemma ManifestMeans(files: map<Path, Digest>, root: Listing, hash: Hash, p: Path)
    requires WellFormed(root) && IsManifestOf(files, root, hash) && p != []
    ensures p in files <==> Tracked(p) && At(root, p).Some? && At(root, p).value.Readable?
    ensures p in files ==> files[p] == hash(At(root, p).value.bytes)
  {
    OnDiskIsAt(root, p);
  }

  /** The entries of some files, later ones overriding earlier ones. */
  function Hashed(fs: seq<File>, hash: Hash): map<Path, Digest> {
    if fs == [] then map[]
    else
      var f := fs[|fs| - 1];
      var init := Hashed(fs[..|fs| - 1], hash);
      if f.data.Readable? then init[f.path := hash(f.data.bytes)] else init
  }

  lemma HashedNext(fs: seq<File>, hash: Hash, i: nat)
    requires i < |fs|
    ensures Hashed(fs[..i + 1], hash)
         == if fs[i].data.Readable? then Hashed(fs[..i], hash)[fs[i].path := hash(fs[i].data.bytes)]
           else Hashed(fs[..i], hash)
  {
    assert fs[..i + 1][..i] == fs[..i];
  }

  lemma {:induction false} HashedIs(fs: seq<File>, hash: Hash, f: File)
    requires forall g :: g in fs && g.path == f.path ==> g == f
    ensures f.path in Hashed(fs, hash) <==> f in fs && f.data.Readable?
    ensures f in fs && f.data.Readable? ==> Hashed(fs, hash)[f.path] == hash(f.data.bytes)
  {
    if fs != [] {
      assert fs == fs[..|fs| - 1] + [fs[|fs| - 1]];
      HashedIs(fs[..|fs| - 1], hash, f);
    }
  }

  lemma HashedWalk(found: seq<File>, root: Listing, hash: Hash)
    requires OncePerPath(multiset(found), root)
    ensures IsManifestOf(Hashed(found, hash), root, hash)
  {
    forall p: Path
      ensures p in Hashed(found, hash) <==> Tracked(p) && OnDisk(root, p).Some? && OnDisk(root, p).value.Readable?
      ensures p in Hashed(found, hash) ==> Hashed(found, hash)[p] == hash(OnDisk(root, p).value.bytes)
    {
      var f := File(p, if OnDisk(root, p).Some? then OnDisk(root, p).value else Unreadable);
      forall g | g in found && g.path == p ensures g == f {
        assert multiset(found)[g] >= 1;
      }
      HashedIs(found, hash, f);
      assert f in found <==> multiset(found)[f] >= 1;
    }
  }

  /** Files that cannot be read are left out without notice. */
  method BuildManifest(root: Listing, hash: Hash) returns (files: map<Path, Digest>)
    requires WellFormed(root)
    ensures IsManifestOf(files, root, hash)
  {
    var found := PrunedWalk(root);
    files := map[];
    for i := 0 to |found|
      invariant files == Hashed(found[..i], hash)
    {
      HashedNext(found, hash, i);
      if found[i].data.Readable? {
        files := files[found[i].path := hash(found[i].data.bytes)];
      }
    }
    assert found[..|found|] == found;
    WalkFindsOnce(root, multiset(found));
    HashedWalk(found, root, hash);
  }

  datatype Diff = Missing(path: Path) | Modified(path: Path) | New(path: Path)

  /** A tracked file cannot be read while verifying: the error is not caught. */
  datatype Outcome = RaisedError | Report(ok: bool, diffs: seq<Diff>)

  predicate Differs(expected: map<Path, Digest>, root: Listing, hash: Hash, d: Diff) {
    match d
    case Missing(p) => p in expected && OnDisk(root, p).None?
    case Modified(p) =>
      p in expected && OnDisk(root, p).Some? && OnDisk(root, p).value.Readable?
      && hash(OnDisk(root, p).value.bytes) != expected[p]
    case New(p) => p !in expected && Tracked(p) && OnDisk(root, p).Some?
  }

  predicate CannotRead(root: Listing, p: Path) {
    OnDisk(root, p) == Some(Unreadable)
  }

  /** In terms of paths: listed and gone, listed and there with another digest, or tracked
      and there but not listed. */
  lemma DiffersMeans(expected: map<Path, Digest>, root: Listing, hash: Hash, p: Path)
    requires WellFormed(root) && p != []
    ensures Differs(expected, root, hash, Missing(p)) <==> p in expected && At(root, p).None?
    ensures Differs(expected, root, hash, Modified(p)) <==>
              p in expected && exists b :: At(root, p) == Some(Readable(b)) && hash(b) != expected[p]
    ensures Differs(expected, root, hash, New(p)) <==> p !in expected && Tracked(p) && At(root, p).Some?
    ensures CannotRead(root, p) <==> At(root, p) == Some(Unreadable)
  {
    OnDiskIsAt(root, p);
    if Differs(expected, root, hash, Modified(p)) {
      assert At(root, p) == Some(Readable(At(root, p).value.bytes));
    }
  }

  /** The difference, if any, at a path the manifest lists. */
  function DiffAt(expected: map<Path, Digest>, root: Listing, hash: Hash, p: Path): seq<Diff>
    requires p in expected
  {
    match OnDisk(root, p)
    case None => [Missing(p)]
    case Some(Unreadable) => []
    case Some(Readable(b)) => if hash(b) != expected[p] then [Modified(p)] else []
  }

  /** Compares a tree with any manifest: unless an expected file cannot be read, every
      missing, modified or new file is reported exactly once and nothing else is. */
  method VerifyManifest(expected: map<Path, Digest>, root: Listing, hash: Hash) returns (r: Outcome)
    requires WellFormed(root)
    ensures r.RaisedError? <==> exists p :: p in expected && CannotRead(root, p)
    ensures r.Report? ==>
              && (r.ok <==> r.diffs == [])
              && forall d: Diff :: multiset(r.diffs)[d] == if Differs(expected, root, hash, d) then 1 else 0
  {
    var keys := expected.Keys;
    var diffs: seq<Diff> := [];
    while keys != {}
      invariant keys <= expected.Keys
      invariant forall p :: p in expected && p !in keys ==> !CannotRead(root, p)
      invariant forall d: Diff ::
          multiset(diffs)[d] == if !d.New? && d.path !in keys && Differs(expected, root, hash, d) then 1 else 0
      decreases keys
    {
      var p :| p in keys;
      if CannotRead(root, p) {
        return RaisedError;
      }
      diffs := diffs + DiffAt(expected, root, hash, p);
      keys := keys - {p};
    }
    var news := FindNew(expected, root);
    CountNew(diffs, news, expected, root, hash);
    diffs := diffs + news;
    r := Report(diffs == [], diffs);
  }

  lemma CountNew(listed: seq<Diff>, news: seq<Diff>, expected: map<Path, Digest>, root: Listing, hash: Hash)
    requires forall d: Diff :: multiset(listed)[d] == if !d.New? && Differs(expected, root, hash, d) then 1 else 0
    requires forall d: Diff :: multiset(news)[d] == if d.New? && Differs(expected, root, hash, d) then 1 else 0
    ensures forall d: Diff :: multiset(listed + news)[d] == if Differs(expected, root, hash, d) then 1 else 0
  {
  }

  /** The tracked files of the tree that the manifest does not list. */
  method FindNew(expected: map<Path, Digest>, root: Listing) returns (news: seq<Diff>)
    requires WellFormed(root)
    ensures forall d: Diff ::
              multiset(news)[d] == if d.New? && d.path !in expected && Tracked(d.path) && OnDisk(root, d.path).Some?
                then 1 else 0
  {
    var found := PrunedWalk(root);
    WalkFindsOnce(root, multiset(found));
    news := [];
    for i := 0 to |found|
      invariant forall d: Diff ::
                  multiset(news)[d] == if d.New? && d.path !in expected then PathCount(found[..i], d.path) else 0
    {
      PathCountNext(found, i);
      if found[i].path !in expected {
        news := news + [New(found[i].path)];
      }
    }
    assert found[..|found|] == found;
    forall d: Diff
      ensures PathCount(found, d.path) == if Tracked(d.path) && OnDisk(root, d.path).Some? then 1 else 0
    {
      PathCountOnce(found, root, d.path);
    }
  }

  function PathCount(fs: seq<File>, p: Path): nat {
    if fs == [] then 0 else PathCount(fs[..|fs| - 1], p) + (if fs[|fs| - 1].path == p then 1 else 0)
  }

  lemma PathCountNext(fs: seq<File>, i: nat)
    requires i < |fs|
    ensures forall p :: PathCount(fs[..i + 1], p) == PathCount(fs[..i], p) + (if fs[i].path == p then 1 else 0)
  {
    assert fs[..i + 1][..i] == fs[..i];
  }

  /** When all files at a path are the same file, counting the path counts the file. */
  lemma {:induction false} PathCountIs(fs: seq<File>, f: File)
    requires forall g :: g in fs && g.path == f.path ==> g == f
    ensures PathCount(fs, f.path) == multiset(fs)[f]
  {
    if fs != [] {
      assert fs == fs[..|fs| - 1] + [fs[|fs| - 1]];
      PathCountIs(fs[..|fs| - 1], f);
    }
  }

  lemma PathCountOnce(found: seq<File>, root: Listing, p: Path)
    requires OncePerPath(multiset(found), root)
    ensures PathCount(found, p) == if Tracked(p) && OnDisk(root, p).Some? then 1 else 0
  {
    var f := File(p, if OnDisk(root, p).Some? then OnDisk(root, p).value else Unreadable);
    forall g | g in found && g.path == p ensures g == f {
      assert multiset(found)[g] >= 1;
    }
    PathCountIs(found, f);
  }

  // ---- what a report means ----

  /** A readable file must be there unchanged; at any other tracked path there must be
      nothing. */
  predicate Agrees(before: Option<Content>, after: Option<Content>) {
    if before.Some? && before.value.Readable? then after == before else after.None?
  }

  /** Verifying a tree against the manifest of another one comes out clean exactly when
      the two trees agree at every tracked path. */
  lemma CleanIffAgrees(files: map<Path, Digest>, before: Listing, after: Listing, hash: Hash)
    requires IsManifestOf(files, before, hash) && forall a, b :: hash(a) == hash(b) ==> a == b
    ensures (forall p :: p in files ==> !CannotRead(after, p)) && (forall d :: !Differs(files, after, hash, d))
       <==> forall p: Path :: Tracked(p) ==> Agrees(OnDisk(before, p), OnDisk(after, p))
  {
    if (forall p :: p in files ==> !CannotRead(after, p)) && (forall d :: !Differs(files, after, hash, d)) {
      forall p: Path | Tracked(p) ensures Agrees(OnDisk(before, p), OnDisk(after, p)) {
        assert p in files ==> !CannotRead(after, p);
        assert !Differs(files, after, hash, Missing(p));
        assert !Differs(files, after, hash, Modified(p));
        assert !Differs(files, after, hash, New(p));
        if p in files {
          var was, now := OnDisk(before, p).value.bytes, OnDisk(after, p).value.bytes;
          assert hash(now) == files[p] == hash(was);
        }
      }
    }
  }

  /** In particular a fully readable tree verifies against its own manifest, and an
      unreadable tracked file alone makes it fail. */
  lemma OwnManifest(files: map<Path, Digest>, root: Listing, hash: Hash)
    requires IsManifestOf(files, root, hash) && forall a, b :: hash(a) == hash(b) ==> a == b
    ensures (forall p :: p in files ==> !CannotRead(root, p)) && (forall d :: !Differs(files, root, hash, d))
       <==> forall p: Path :: Tracked(p) ==> !CannotRead(root, p)
  {
    CleanIffAgrees(files, root, root, hash);
  }

  /** One unreadable file: the tree's own manifest is empty and the file counts as new. */
  lemma UnreadableIsNew(files: map<Path, Digest>, hash: Hash)
    requires IsManifestOf(files, FileEntry("f", Unreadable, Nil), hash)
    ensures WellFormed(FileEntry("f", Unreadable, Nil)) && CannotRead(FileEntry("f", Unreadable, Nil), ["f"])
    ensures files == map[] && Differs(files, FileEntry("f", Unreadable, Nil), hash, New(["f"]))
  {
    var root, fs := FileEntry("f", Unreadable, Nil), [File(["f"], Unreadable)];
    assert [] + ["f"] == ["f"];
    assert AllFiles(root, []) == fs + AllFiles(Nil, []) == fs;
    forall p: Path ensures OnDisk(root, p) == if p == ["f"] then Some(Unreadable) else None {
      assert fs[1..] == [] && Find(fs[1..], p) == None;
      assert OnDisk(root, p) == Find(fs, p);
    }
  }

  /** With readable files each kind of difference means what it says. */
  lemma DiffMeaning(files: map<Path, Digest>, before: Listing, after: Listing, hash: Hash, p: Path)
    requires IsManifestOf(files, before, hash) && forall a, b :: hash(a) == hash(b) ==> a == b
    requires !CannotRead(before, p) && !CannotRead(after, p)
    ensures Differs(files, after, hash, Missing(p)) <==> Tracked(p) && OnDisk(before, p).Some? && OnDisk(after, p).None?
    ensures Differs(files, after, hash, Modified(p)) <==>
              Tracked(p) && OnDisk(before, p).Some? && OnDisk(after, p).Some? && OnDisk(before, p) != OnDisk(after, p)
    ensures Differs(files, after, hash, New(p)) <==> Tracked(p) && OnDisk(before, p).None? && OnDisk(after, p).Some?
  {
  }
}

/** The build manifest: a pruned walk that hashes every tracked file, and the
    comparison of a manifest with a tree. */
module Manifest {
  import opened Common

  type Path = seq<string>
  type Bytes = seq<bv8>

  datatype Content = Readable(bytes: Bytes) | Unreadable

  /** A directory, as a list of its entries. */
  datatype Listing =
    | Nil
    | FileEntry(name: string, data: Content, rest: Listing)
    | DirEntry(name: string, sub: Listing, rest: Listing)

  datatype File = File(path: Path, data: Content)
  datatype Dir = Dir(path: Path, listing: Listing)

  const EXCLUDE_PATTERNS: set<string> := {
    "aura.db", "aura.db-shm", "aura.db-wal", "boot.log", "override_audit.jsonl",
    "aura_events.log", ".write_probe", ".aura_probe", ".aura_write_probe"
  }
  const EXCLUDE_DIRS: set<string> := {"tmp", "overlay", "mnt"}

  /** Neither below an excluded top directory nor of an excluded name. */
  predicate Tracked(p: Path) {
    p != [] && (|p| > 1 ==> p[0] !in EXCLUDE_DIRS) && p[|p| - 1] !in EXCLUDE_PATTERNS
  }

  /** Which paths are tracked, by name. */
  lemma TrackedMeans(p: Path)
    ensures Tracked(p) <==>
              && p != [] && (|p| == 1 || p[0] !in {"tmp", "overlay", "mnt"})
              && p[|p| - 1] !in {"aura.db", "aura.db-shm", "aura.db-wal", "boot.log", "override_audit.jsonl",
                                 "aura_events.log", ".write_probe", ".aura_probe", ".aura_write_probe"}
  {
  }

  /** Every file of the tree, however deep. */
  function AllFiles(l: Listing, dir: Path): seq<File> {
    match l
    case Nil => []
    case FileEntry(n, d, rest) => [File(dir + [n], d)] + AllFiles(rest, dir)
    case DirEntry(n, sub, rest) => AllFiles(sub, dir + [n]) + AllFiles(rest, dir)
  }

  function FilesIn(l: Listing, dir: Path): seq<File> {
    match l
    case Nil => []
    case FileEntry(n, d, rest) => [File(dir + [n], d)] + FilesIn(rest, dir)
    case DirEntry(_, _, rest) => FilesIn(rest, dir)
  }

  function SubDirs(l: Listing, dir: Path): seq<Dir> {
    match l
    case Nil => []
    case FileEntry(_, _, rest) => SubDirs(rest, dir)
    case DirEntry(n, sub, rest) => [Dir(dir + [n], sub)] + SubDirs(rest, dir)
  }

  function FilesBelow(dirs: seq<Dir>): seq<File> {
    if dirs == [] then [] else AllFiles(dirs[0].listing, dirs[0].path) + FilesBelow(dirs[1..])
  }

  // ---- well-formed trees ----

  predicate HasName(l: Listing, n: string) {
    match l
    case Nil => false
    case FileEntry(m, _, rest) => m == n || HasName(rest, n)
    case DirEntry(m, _, rest) => m == n || HasName(rest, n)
  }

  /** No directory has two entries of the same name. */
  predicate WellFormed(l: Listing) {
    match l
    case Nil => true
    case FileEntry(n, _, rest) => !HasName(rest, n) && WellFormed(rest)
    case DirEntry(n, sub, rest) => !HasName(rest, n) && WellFormed(sub) && WellFormed(rest)
  }

  /** The files of a directory lie below it, under one of its entries. */
  lemma {:induction false} PathsBelow(l: Listing, dir: Path, f: File)
    requires f in AllFiles(l, dir)
    ensures |f.path| > |dir| && dir <= f.path && HasName(l, f.path[|dir|])
  {
    match l {
      case FileEntry(n, d, rest) =>
        if f != File(dir + [n], d) {
          PathsBelow(rest, dir, f);
        }
      case DirEntry(n, sub, rest) =>
        if f in AllFiles(sub, dir + [n]) {
          PathsBelow(sub, dir + [n], f);
          assert (dir + [n])[|dir|] == f.path[|dir|];
          assert dir == (dir + [n])[..|dir|] == f.path[..|dir|];
        } else {
          PathsBelow(rest, dir, f);
        }
    }
  }

  ghost predicate DistinctPaths(fs: seq<File>) {
    forall i, k :: 0 <= i < k < |fs| ==> fs[i].path != fs[k].path
  }

  lemma {:induction false} TreePathsDistinct(l: Listing, dir: Path)
    requires WellFormed(l)
    ensures DistinctPaths(AllFiles(l, dir))
  {
    match l {
      case Nil =>
      case FileEntry(n, d, rest) =>
        TreePathsDistinct(rest, dir);
        var later := AllFiles(rest, dir);
        forall k | 0 <= k < |later| ensures later[k].path != dir + [n] {
          PathsBelow(rest, dir, later[k]);
        }
      case DirEntry(n, sub, rest) =>
        TreePathsDistinct(sub, dir + [n]);
        TreePathsDistinct(rest, dir);
        var inside, later := AllFiles(sub, dir + [n]), AllFiles(rest, dir);
        forall i, k | 0 <= i < |inside| && 0 <= k < |later| ensures inside[i].path != later[k].path {
          PathsBelow(sub, dir + [n], inside[i]);
          PathsBelow(rest, dir, later[k]);
          assert inside[i].path[|dir|] == (dir + [n])[|dir|];
        }
    }
  }

  // ---- paths ----

  /** What is found by following a path from the top, directory by directory. */
  function At(l: Listing, p: Path): Option<Content> {
    if p == [] then None
    else
      match l
      case Nil => None
      case FileEntry(n, d, rest) => if p == [n] then Some(d) else At(rest, p)
      case DirEntry(n, sub, rest) => if |p| > 1 && p[0] == n then At(sub, p[1..]) else At(rest, p)
  }

  lemma AtEntries(n: string, d: Content, sub: Listing, rest: Listing, p: Path)
    requires p != []
    ensures At(Nil, p) == None && At(FileEntry(n, d, rest), [n]) == Some(d)
    ensures At(DirEntry(n, sub, rest), [n] + p) == At(sub, p)
    ensures p[0] != n ==> At(FileEntry(n, d, rest), p) == At(rest, p) == At(DirEntry(n, sub, rest), p)
  {
    assert ([n] + p)[1..] == p;
  }

  /** The files of a tree are those its paths lead to. */
  lemma {:induction false} FilesAreAt(l: Listing, dir: Path, p: Path, c: Content)
    requires WellFormed(l) && p != []
    ensures File(dir + p, c) in AllFiles(l, dir) <==> At(l, p) == Some(c)
    decreases l
  {
    match l {
      case Nil =>
      case FileEntry(n, d, rest) =>
        FilesAreAt(rest, dir, p, c);
        assert dir + p == dir + [n] <==> p == [n] by {
          assert (dir + p)[|dir|..] == p && (dir + [n])[|dir|..] == [n];
        }
        if p == [n] && File(dir + p, c) in AllFiles(rest, dir) {
          PathsBelow(rest, dir, File(dir + p, c));
        }
      case DirEntry(n, sub, rest) =>
        FilesAreAt(rest, dir, p, c);
        var f := File(dir + p, c);
        if f in AllFiles(sub, dir + [n]) {
          PathsBelow(sub, dir + [n], f);
          assert f.path[|dir|] == (dir + [n])[|dir|] == n && f.path[|dir|] == p[0];
        }
        if |p| > 1 && p[0] == n {
          assert (dir + [n]) + p[1..] == dir + p;
          FilesAreAt(sub, dir + [n], p[1..], c);
          if f in AllFiles(rest, dir) {
            PathsBelow(rest, dir, f);
          }
        }
    }
  }

  // ---- the pruned walk ----

  lemma {:induction false} BelowConcat(a: seq<Dir>, b: seq<Dir>)
    ensures FilesBelow(a + b) == FilesBelow(a) + FilesBelow(b)
  {
    if a == [] {
      assert a + b == b;
    } else {
      assert (a + b)[1..] == a[1..] + b;
      BelowConcat(a[1..], b);
    }
  }

  /** A directory's files are those directly in it and those of its sub-directories. */
  lemma {:induction false} FilesSplit(l: Listing, dir: Path)
    ensures multiset(AllFiles(l, dir)) == multiset(FilesIn(l, dir)) + multiset(FilesBelow(SubDirs(l, dir)))
  {
    match l {
      case Nil =>
      case FileEntry(n, d, rest) => FilesSplit(rest, dir);
      case DirEntry(n, sub, rest) =>
        FilesSplit(rest, dir);
        BelowConcat([Dir(dir + [n], sub)], SubDirs(rest, dir));
    }
  }

  function TrackedIn(fs: seq<File>): seq<File> {
    if fs == [] then [] else (if Tracked(fs[0].path) then [fs[0]] else []) + TrackedIn(fs[1..])
  }

  lemma {:induction false} TrackedCount(fs: seq<File>, f: File)
    ensures multiset(TrackedIn(fs))[f] == if Tracked(f.path) then multiset(fs)[f] else 0
  {
    if fs != [] {
      assert fs == [fs[0]] + fs[1..];
      TrackedCount(fs[1..], f);
    }
  }

  /** Same files, same tracked files. */
  lemma TrackedOfBag(a: seq<File>, b: seq<File>, c: seq<File>)
    requires multiset(a) == multiset(b) + multiset(c)
    ensures multiset(TrackedIn(a)) == multiset(TrackedIn(b)) + multiset(TrackedIn(c))
  {
    forall f: File ensures multiset(TrackedIn(a))[f] == multiset(TrackedIn(b))[f] + multiset(TrackedIn(c))[f] {
      TrackedCount(a, f);
      TrackedCount(b, f);
      TrackedCount(c, f);
    }
  }

  lemma NothingTracked(fs: seq<File>)
    requires forall f :: f in fs ==> !Tracked(f.path)
    ensures TrackedIn(fs) == []
  {
  }

  predicate Excluded(dir: Path) {
    dir != [] && dir[0] in EXCLUDE_DIRS
  }

  /** Nothing below an excluded top directory is tracked. */
  lemma PrunedIsUntracked(l: Listing, dir: Path)
    requires Excluded(dir)
    ensures TrackedIn(AllFiles(l, dir)) == []
  {
    forall f | f in AllFiles(l, dir) ensures !Tracked(f.path) {
      PathsBelow(l, dir, f);
    }
    NothingTracked(AllFiles(l, dir));
  }

  function ListingSize(l: Listing): nat {
    match l
    case Nil => 1
    case FileEntry(_, _, rest) => 1 + ListingSize(rest)
    case DirEntry(_, sub, rest) => 1 + ListingSize(sub) + ListingSize(rest)
  }

  function StackSize(dirs: seq<Dir>): nat {
    if dirs == [] then 0 else ListingSize(dirs[0].listing) + StackSize(dirs[1..])
  }

  lemma {:induction false} StackConcat(a: seq<Dir>, b: seq<Dir>)
    ensures StackSize(a + b) == StackSize(a) + StackSize(b)
  {
    if a == [] {
      assert a + b == b;
    } else {
      assert (a + b)[1..] == a[1..] + b;
      StackConcat(a[1..], b);
    }
  }

  lemma SubDirsSmaller(l: Listing, dir: Path)
    ensures StackSize(SubDirs(l, dir)) < ListingSize(l)
  {
  }

  /** The files of one directory whose names are not excluded. */
  method Filter(l: Listing, dir: Path) returns (fs: seq<File>)
    requires !Excluded(dir)
    ensures fs == TrackedIn(FilesIn(l, dir))
  {
    fs := [];
    var files := FilesIn(l, dir);
    for i := 0 to |files|
      invariant fs == TrackedIn(files[..i])
    {
      TrackedNext(files, i);
      FileDirectlyIn(l, dir, i);
      var name := files[i].path[|dir|];
      if name !in EXCLUDE_PATTERNS {
        fs := fs + [files[i]];
      }
    }
    assert files[..|files|] == files;
  }

  lemma {:induction false} TrackedConcat(a: seq<File>, b: seq<File>)
    ensures TrackedIn(a + b) == TrackedIn(a) + TrackedIn(b)
  {
    if a == [] {
      assert a + b == b;
    } else {
      TrackedConcat(a[1..], b);
      var head := if Tracked(a[0].path) then [a[0]] else [];
      assert (a + b)[1..] == a[1..] + b && (a + b)[0] == a[0];
      assert TrackedIn(a + b) == head + (TrackedIn(a[1..]) + TrackedIn(b));
    }
  }

  lemma TrackedNext(fs: seq<File>, i: nat)
    requires i < |fs|
    ensures TrackedIn(fs[..i + 1]) == TrackedIn(fs[..i]) + (if Tracked(fs[i].path) then [fs[i]] else [])
  {
    assert fs[..i + 1] == fs[..i] + [fs[i]];
    TrackedConcat(fs[..i], [fs[i]]);
  }

  lemma FileDirectlyIn(l: Listing, dir: Path, i: nat)
    requires i < |FilesIn(l, dir)|
    ensures var p := FilesIn(l, dir)[i].path; |p| == |dir| + 1 && p[..|dir|] == dir
  {
    match l {
      case FileEntry(_, _, rest) => if i > 0 { FileDirectlyIn(rest, dir, i - 1); }
      case DirEntry(_, _, rest) => FileDirectlyIn(rest, dir, i);
    }
  }

  /** The tracked files still to be found below the directories of the stack. */
  ghost function Todo(stack: seq<Dir>): multiset<File> {
    multiset(TrackedIn(FilesBelow(stack)))
  }

  lemma TodoRoot(root: Listing)
    ensures Todo([Dir([], root)]) == multiset(TrackedIn(AllFiles(root, [])))
  {
    var stack := [Dir([], root)];
    assert FilesBelow(stack) == AllFiles(root, []) + FilesBelow([]);
    assert FilesBelow(stack) == AllFiles(root, []);
  }

  lemma SkipDir(stack: seq<Dir>)
    requires stack != [] && Excluded(stack[0].path)
    ensures Todo(stack[1..]) == Todo(stack)
  {
    PrunedIsUntracked(stack[0].listing, stack[0].path);
    TrackedConcat(AllFiles(stack[0].listing, stack[0].path), FilesBelow(stack[1..]));
  }

  lemma VisitDir(stack: seq<Dir>)
    requires stack != []
    ensures var d := stack[0]; var next := SubDirs(d.listing, d.path) + stack[1..];
            && Todo(stack) == multiset(TrackedIn(FilesIn(d.listing, d.path))) + Todo(next)
            && StackSize(next) < StackSize(stack)
  {
    var d, rest := stack[0], stack[1..];
    var subs := SubDirs(d.listing, d.path);
    TrackedConcat(AllFiles(d.listing, d.path), FilesBelow(rest));
    FilesSplit(d.listing, d.path);
    TrackedOfBag(AllFiles(d.listing, d.path), FilesIn(d.listing, d.path), FilesBelow(subs));
    BelowConcat(subs, rest);
    TrackedConcat(FilesBelow(subs), FilesBelow(rest));
    StackConcat(subs, rest);
    SubDirsSmaller(d.listing, d.path);
  }

  /** The walk, top down, not entering excluded top directories: it collects exactly the
      tracked files of the whole tree, each once. */
  method PrunedWalk(root: Listing) returns (found: seq<File>)
    ensures multiset(found) == multiset(TrackedIn(AllFiles(root, [])))
  {
    found := [];
    var stack := [Dir([], root)];
    TodoRoot(root);
    while stack != []
      invariant multiset(found) + Todo(stack) == multiset(TrackedIn(AllFiles(root, [])))
      decreases StackSize(stack)
    {
      var d := stack[0];
      if Excluded(d.path) {
        SkipDir(stack);
        stack := stack[1..];
      } else {
        var fs := Filter(d.listing, d.path);
        VisitDir(stack);
        found := found + fs;
        stack := SubDirs(d.listing, d.path) + stack[1..];
      }
    }
  }
}

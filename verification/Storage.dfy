/** The storage service: a rootfs whose read-only partitions are written through an
    overlay directory, and the plain file store it stands for. */
module Storage {
  import opened Common

  /** A clean path relative to the rootfs, by components. */
  type Path = p: seq<string> | p != [] witness [""]
  type Bytes = seq<bv8>

  /** The regular files on disk, overlay included. */
  type Files = map<Path, Bytes>

  const PARTITIONS: map<string, bool> := map[
    "boot" := false, "system" := false, "user" := true, "overlay" := true,
    "aura" := true, "services" := true, "var" := true, "tmp" := true,
    "etc" := false, "bin" := false, "home" := true, "mnt" := true
  ]

  /** Anything outside the known partitions counts as writable. */
  predicate Writable(p: Path) {
    p[0] in PARTITIONS ==> PARTITIONS[p[0]]
  }

  predicate UnderOverlay(p: Path) {
    p[0] == "overlay"
  }

  function OverlayCopy(p: Path): Path {
    ["overlay"] + p
  }

  /** `ensure_writable`: where a write to the path goes. */
  function Destination(p: Path, force: bool): Path {
    if !force && Writable(p) then p else OverlayCopy(p)
  }

  /** `read_file`: the overlay copy first, then the base copy, else not found. */
  function Lookup(files: Files, p: Path): Option<Bytes> {
    if OverlayCopy(p) in files then Some(files[OverlayCopy(p)])
    else if p in files then Some(files[p])
    else None
  }

  function Written(files: Files, p: Path, data: Bytes, force: bool): Files {
    files[Destination(p, force) := data]
  }

  /** The read-only partitions, by name. */
  lemma ReadOnlyPartitions(p: Path)
    ensures !Writable(p) <==> p[0] in {"boot", "system", "etc", "bin"}
  {
    var n := p[0];
    if n == "boot" {
      assert n[0] == 'b' && |n| == 4;
    } else if n == "system" {
      assert n[0] == 's' && |n| == 6;
    } else if n == "etc" {
      assert n[0] == 'e';
    } else if n == "bin" {
      assert n[0] == 'b' && |n| == 3;
    } else {
      assert n in PARTITIONS ==> PARTITIONS[n];
    }
  }

  lemma OverlayIsWritable(p: Path)
    requires UnderOverlay(p)
    ensures Writable(p)
  {
  }

  lemma OverlayCopyInjective(p: Path, q: Path)
    ensures OverlayCopy(p) == OverlayCopy(q) <==> p == q
    ensures OverlayCopy(p) != p && UnderOverlay(OverlayCopy(p))
  {
    assert OverlayCopy(p)[1..] == p && OverlayCopy(q)[1..] == q;
  }

  // ---- one write ----

  /** What a write leaves readable under its own path: the data, except that a plain
      write to a writable partition is hidden by an overlay copy with other content. */
  lemma ReadAfterWrite(files: Files, p: Path, data: Bytes, force: bool)
    ensures Lookup(Written(files, p, data, force), p) == Some(data)
       <==> !(!force && Writable(p) && OverlayCopy(p) in files && files[OverlayCopy(p)] != data)
  {
    OverlayCopyInjective(p, p);
  }

  /** A concrete run in which a write is lost: force one version of a user file into
      the overlay, then write another version normally. */
  lemma ShadowedWriteIsLost()
    ensures var p: Path, v1: Bytes, v2: Bytes := ["user", "f"], [1], [2];
            Lookup(Written(Written(map[], p, v1, true), p, v2, false), p) == Some(v1)
  {
    var p: Path := ["user", "f"];
    OverlayCopyInjective(p, p);
    assert Writable(p);
  }

  /** A write outside the overlay directory leaves every other path as it was. */
  lemma OtherPathsUnchanged(files: Files, p: Path, data: Bytes, force: bool, q: Path)
    requires !UnderOverlay(p) && !UnderOverlay(q) && q != p
    ensures Lookup(Written(files, p, data, force), q) == Lookup(files, q)
  {
    OverlayCopyInjective(p, q);
    OverlayCopyInjective(q, p);
  }

  // ---- refinement of a plain store ----

  /** The overlay holds no copy of a file that belongs in a writable partition. */
  ghost predicate NoShadows(files: Files) {
    forall p: Path :: Writable(p) ==> OverlayCopy(p) !in files
  }

  /** What can be read outside the overlay directory is exactly the plain map. */
  ghost predicate StandsFor(files: Files, store: map<Path, Bytes>) {
    forall p: Path :: !UnderOverlay(p) ==> Lookup(files, p) == if p in store then Some(store[p]) else None
  }

  /** Every disk stands for some plain map. */
  lemma EveryDiskStandsForAMap(files: Files) returns (store: map<Path, Bytes>)
    ensures StandsFor(files, store)
  {
    var base: set<Path> := set p | p in files;
    var copied: set<Path> := set p: Path | p in files && |p| > 1 && UnderOverlay(p) :: p[1..];
    store := map p | p in base + copied && Lookup(files, p).Some? :: Lookup(files, p).value;
    forall p: Path | !UnderOverlay(p) && Lookup(files, p).Some? ensures p in base + copied {
      if OverlayCopy(p) in files {
        assert OverlayCopy(p)[1..] == p;
      }
    }
  }

  datatype Op = Write(path: Path, data: Bytes, force: bool) | Read(path: Path) | Boot(layout: Bytes)

  /** Paths outside the overlay; a forced write only where the overlay is used anyway. */
  predicate Proper(op: Op) {
    match op
    case Write(p, _, force) => !UnderOverlay(p) && (force ==> !Writable(p))
    case Read(p) => !UnderOverlay(p)
    case Boot(_) => true
  }

  /** Boots are proper, reads outside the overlay, and writes there that are not forced
      over a writable partition. */
  lemma ProperMeans(p: Path, data: Bytes, force: bool)
    ensures Proper(Boot(data))
    ensures Proper(Read(p)) <==> p[0] != "overlay"
    ensures Proper(Write(p, data, force)) <==>
              p[0] != "overlay" && (force ==> p[0] in {"boot", "system", "etc", "bin"})
  {
    ReadOnlyPartitions(p);
  }

  predicate InTmp(p: Path) {
    |p| > 1 && p[0] == "tmp"
  }

  const LAYOUT: Path := ["layout.json"]

  /** `start` empties tmp and writes the layout file. */
  function Booted(files: Files, layout: Bytes): Files {
    (map p | p in files && !InTmp(p) :: files[p])[LAYOUT := layout]
  }

  function Apply(files: Files, op: Op): Files {
    match op
    case Write(p, data, force) => Written(files, p, data, force)
    case Read(_) => files
    case Boot(layout) => Booted(files, layout)
  }

  function PlainApply(store: map<Path, Bytes>, op: Op): map<Path, Bytes> {
    match op
    case Write(p, data, _) => store[p := data]
    case Read(_) => store
    case Boot(layout) => (map p | p in store && !InTmp(p) :: store[p])[LAYOUT := layout]
  }

  lemma WriteRefines(files: Files, store: map<Path, Bytes>, p: Path, data: Bytes, force: bool)
    requires NoShadows(files) && StandsFor(files, store) && Proper(Write(p, data, force))
    ensures NoShadows(Written(files, p, data, force))
    ensures StandsFor(Written(files, p, data, force), store[p := data])
  {
    ReadAfterWrite(files, p, data, force);
    forall q: Path | !UnderOverlay(q) && q != p
      ensures Lookup(Written(files, p, data, force), q) == Lookup(files, q)
    {
      OtherPathsUnchanged(files, p, data, force, q);
    }
    forall q: Path | Writable(q) ensures OverlayCopy(q) !in Written(files, p, data, force) {
      OverlayCopyInjective(q, p);
    }
  }

  lemma BootRefines(files: Files, store: map<Path, Bytes>, layout: Bytes)
    requires NoShadows(files) && StandsFor(files, store)
    ensures NoShadows(Booted(files, layout))
    ensures StandsFor(Booted(files, layout), PlainApply(store, Boot(layout)))
  {
    forall p: Path ensures OverlayCopy(p) in Booted(files, layout) <==> OverlayCopy(p) in files {
      assert OverlayCopy(p)[0] == "overlay" && |OverlayCopy(p)| > 1;
    }
    assert "tmp"[0] != "overlay"[0];
    forall p: Path | !UnderOverlay(p)
      ensures Lookup(Booted(files, layout), p)
           == if p == LAYOUT then Some(layout) else if InTmp(p) then None else Lookup(files, p)
    {
      assert InTmp(p) ==> Writable(p);
      assert p == LAYOUT ==> Writable(p);
    }
  }

  /** What a boot does to the plain map: the entries below tmp go, the layout is set, and
      nothing else changes. */
  lemma PlainBoot(store: map<Path, Bytes>, layout: Bytes)
    ensures var store' := PlainApply(store, Boot(layout));
            && (forall p: Path :: |p| > 1 && p[0] == "tmp" ==> p !in store')
            && ["layout.json"] in store' && store'[["layout.json"]] == layout
            && forall p: Path :: p != ["layout.json"] && !(|p| > 1 && p[0] == "tmp") ==>
                 && (p in store' <==> p in store)
                 && (p in store ==> store'[p] == store[p])
  {
  }

  function Execute(files: Files, ops: seq<Op>): Files
    decreases |ops|
  {
    if ops == [] then files else Execute(Apply(files, ops[0]), ops[1..])
  }

  /** What the reads of a run return. */
  function Outputs(files: Files, ops: seq<Op>): seq<Option<Bytes>>
    decreases |ops|
  {
    if ops == [] then []
    else (if ops[0].Read? then [Lookup(files, ops[0].path)] else []) + Outputs(Apply(files, ops[0]), ops[1..])
  }

  function PlainOutputs(store: map<Path, Bytes>, ops: seq<Op>): seq<Option<Bytes>>
    decreases |ops|
  {
    if ops == [] then []
    else (if ops[0].Read? then [if ops[0].path in store then Some(store[ops[0].path]) else None] else [])
         + PlainOutputs(PlainApply(store, ops[0]), ops[1..])
  }

  function PlainExecute(store: map<Path, Bytes>, ops: seq<Op>): map<Path, Bytes>
    decreases |ops|
  {
    if ops == [] then store else PlainExecute(PlainApply(store, ops[0]), ops[1..])
  }

  /** Runs end with their last operation; only a read has an output, that of the state it
      meets. */
  lemma {:induction false} RunNext(files: Files, ops: seq<Op>, op: Op)
    ensures Execute(files, []) == files && Outputs(files, []) == []
    ensures Execute(files, ops + [op]) == Apply(Execute(files, ops), op)
    ensures Outputs(files, ops + [op])
         == Outputs(files, ops) + if op.Read? then [Lookup(Execute(files, ops), op.path)] else []
    decreases |ops|
  {
    if ops == [] {
      assert [op][1..] == [] && [] + [op] == [op];
    } else {
      assert (ops + [op])[1..] == ops[1..] + [op];
      RunNext(Apply(files, ops[0]), ops[1..], op);
    }
  }

  lemma {:induction false} PlainRunNext(store: map<Path, Bytes>, ops: seq<Op>, op: Op)
    ensures PlainExecute(store, []) == store && PlainOutputs(store, []) == []
    ensures PlainExecute(store, ops + [op]) == PlainApply(PlainExecute(store, ops), op)
    ensures var m := PlainExecute(store, ops);
            PlainOutputs(store, ops + [op])
            == PlainOutputs(store, ops)
               + if !op.Read? then [] else if op.path in m then [Some(m[op.path])] else [None]
    decreases |ops|
  {
    if ops == [] {
      assert [op][1..] == [] && [] + [op] == [op];
    } else {
      assert (ops + [op])[1..] == ops[1..] + [op];
      PlainRunNext(PlainApply(store, ops[0]), ops[1..], op);
    }
  }

  /** Over any run of proper operations the overlay cannot be told from a plain map
      from paths to bytes. */
  lemma {:induction false} OverlayRefinesPlainStore(files: Files, store: map<Path, Bytes>, ops: seq<Op>)
    requires NoShadows(files) && StandsFor(files, store)
    requires forall op :: op in ops ==> Proper(op)
    ensures Outputs(files, ops) == PlainOutputs(store, ops)
    ensures StandsFor(Execute(files, ops), PlainExecute(store, ops))
    decreases |ops|
  {
    if ops != [] {
      var op := ops[0];
      match op {
        case Write(p, data, force) => WriteRefines(files, store, p, data, force);
        case Read(_) =>
        case Boot(layout) => BootRefines(files, store, layout);
      }
      assert Proper(op);
      OverlayRefinesPlainStore(Apply(files, op), PlainApply(store, op), ops[1..]);
    }
  }

  /** Whatever is written, by force or not, the base copies in read-only partitions
      never change. */
  lemma {:induction false} ReadOnlyBaseNeverChanges(files: Files, ops: seq<Op>, p: Path)
    requires !Writable(p)
    ensures p in Execute(files, ops) <==> p in files
    ensures p in files ==> Execute(files, ops)[p] == files[p]
    decreases |ops|
  {
    if ops != [] {
      assert p != LAYOUT && !InTmp(p) by {
        assert Writable(LAYOUT);
      }
      if ops[0].Write? {
        OverlayCopyInjective(ops[0].path, p);
        if UnderOverlay(p) {
          OverlayIsWritable(p);
        }
      }
      ReadOnlyBaseNeverChanges(Apply(files, ops[0]), ops[1..], p);
    }
  }

  class StorageService {
    var files: Files
    var running: bool

    constructor (files: Files)
      ensures this.files == files && !running
    {
      this.files, running := files, false;
    }

    /** `start`, on a writable rootfs; starting twice does nothing. */
    method Start(layout: Bytes)
      modifies this
      ensures running
      ensures files == if old(running) then old(files) else Apply(old(files), Boot(layout))
      ensures !old(running) ==>
                && (forall p: Path :: |p| > 1 && p[0] == "tmp" ==> p !in files)
                && ["layout.json"] in files && files[["layout.json"]] == layout
                && forall p: Path :: p != ["layout.json"] && !(|p| > 1 && p[0] == "tmp") ==>
                     && (p in files <==> p in old(files))
                     && (p in files ==> files[p] == old(files)[p])
    {
      if running {
        return;
      }
      running := true;
      var kept: Files := map p | p in files && !InTmp(p) :: files[p];
      files := kept[LAYOUT := layout];
    }

    method Stop()
      modifies this`running
      ensures !running
    {
      running := false;
    }

    method WriteFile(p: Path, data: Bytes, force: bool := false)
      modifies this`files
      ensures files == Apply(old(files), Write(p, data, force))
      ensures var dest: Path := if force || p[0] in {"boot", "system", "etc", "bin"} then ["overlay"] + p else p;
              files == old(files)[dest := data]
    {
      ReadOnlyPartitions(p);
      var dest := if force then OverlayCopy(p) else EnsureWritable(p);
      files := files[dest := data];
    }

    function EnsureWritable(p: Path): Path {
      if Writable(p) then p else OverlayCopy(p)
    }

    method ReadFile(p: Path) returns (data: Option<Bytes>)
      ensures data == Lookup(files, p)
      ensures var copy: Path := ["overlay"] + p;
              data == if copy in files then Some(files[copy]) else if p in files then Some(files[p]) else None
    {
      var overlay := OverlayCopy(p);
      if overlay in files {
        return Some(files[overlay]);
      }
      data := if p in files then Some(files[p]) else None;
    }
  }
}

/** `push modpack`: a module tree as a sequence of cpio records. */
module Modpack {
  import opened Bytes
  import opened Paths
  import opened Wrappers

  // ---- the tree ----

  /** A file tree as `lstat` and the readers show it; `None`, `listable` and `Vanished` say what cannot be read. */
  datatype Node =
    | Dir(mode: nat, children: Forest, listable: bool)
    | File(mode: nat, data: Option<bytes>)
    | Link(mode: nat, target: Option<string>)
    | Special(mode: nat)
    | Vanished

  /** The entries of a directory, in the order in which they are visited. */
  datatype Forest = Empty | Entry(name: string, node: Node, rest: Forest)

  /** `Mode().Perm()` */
  function Perm(mode: nat): (r: nat)
    ensures r < 512
  {
    mode % 512
  }

  /** 0o100000, which no permission bit overlaps. */
  const REGULAR: nat := 0x8000

  // ---- the archive ----

  datatype Record =
    | DirRecord(name: string, mode: nat)
    | LinkRecord(name: string, mode: nat, target: string)
    | FileRecord(name: string, mode: nat, data: bytes)

  /** The records up to the first thing that cannot be read, and whether all could be. */
  type Walked = (seq<Record>, bool)

  function Then(a: Walked, b: Walked): Walked {
    if a.1 then (a.0 + b.0, b.1) else a
  }

  /** The relative path of an entry of the directory at `rel`. */
  function ChildRel(rel: string, name: string): string {
    if rel == "" then name else rel + "/" + name
  }

  /** The walk of the tree at `rel`, with the names the callback gives. */
  function Walk(root: string, rel: string, node: Node): Walked
    decreases node
  {
    var name := PathJoin(root, rel);
    match node
    case Dir(mode, children, listable) =>
      Then(([DirRecord(name, Perm(mode))], true), if listable then WalkForest(root, rel, children) else ([], false))
    case Link(mode, target) => if target.None? then ([], false) else ([LinkRecord(name, Perm(mode), target.value)], true)
    case File(mode, data) => if data.None? then ([], false) else ([FileRecord(name, REGULAR + Perm(mode), data.value)], true)
    case Special(_) => ([], true)
    case Vanished => ([], false)
  }

  function WalkForest(root: string, rel: string, forest: Forest): Walked
    decreases forest
  {
    match forest
    case Empty => ([], true)
    case Entry(name, node, rest) => Then(Walk(root, ChildRel(rel, name), node), WalkForest(root, rel, rest))
  }

  function Release(src: string): string {
    Base(TrimSlashes(src))
  }

  /** The path that the walk is rooted at, for `lib/modules` and a release. */
  function RootInCpio(lib: string, modules: string, release: string): string {
    PathJoin(PathJoin(lib, modules), release)
  }

  /** The two directories at the start of the archive. */
  function Top(lib: string, both: string): seq<Record> {
    [DirRecord(lib, 0x1ED), DirRecord(both, 0x1ED)]
  }

  datatype Failure = NoSource | NotADirectory | Unreadable

  function ArchiveIn(lib: string, modules: string, both: string, release: string, tree: Node): (seq<Record>, Option<Failure>) {
    var (records, ok) := Walk(RootInCpio(lib, modules, release), "", tree);
    (Top(lib, both) + records, if ok then None else Some(Unreadable))
  }

  /**
    What is written for a source: `stat` sees `seen`, which is behind a link at the source; the walk starts at `tree`,
    which is what `lstat` sees.
   */
  function Archive(src: string, seen: Option<Node>, tree: Node): (seq<Record>, Option<Failure>) {
    if seen.None? then ([], Some(NoSource))
    else if !seen.value.Dir? then ([], Some(NotADirectory))
    else ArchiveIn("lib", "modules", "lib/modules", Release(src), tree)
  }

  /** How the two are related: they are the same, unless the source is itself a link. */
  predicate SameSource(seen: Node, tree: Node) {
    tree.Link? || tree == seen
  }

  // ---- the walk, record by record ----

  /** The cpio writer: records are appended, and a trailer closes the archive. */
  class Writer {
    var records: seq<Record>
    var closed: bool

    constructor ()
      ensures records == [] && !closed
    {
      records, closed := [], false;
    }

    method Write(r: Record)
      modifies this
      ensures records == old(records) + [r] && closed == old(closed)
    {
      records := records + [r];
    }

    method Close()
      modifies this
      ensures closed && records == old(records)
    {
      closed := true;
    }
  }

  /** The callback for one path. */
  method Visit(w: Writer, root: string, rel: string, node: Node) returns (ok: bool)
    modifies w
    ensures w.closed == old(w.closed)
    ensures !node.Dir? ==> (w.records, ok) == (old(w.records) + Walk(root, rel, node).0, Walk(root, rel, node).1)
    ensures node.Dir? ==> ok && w.records == old(w.records) + [DirRecord(PathJoin(root, rel), Perm(node.mode))]
  {
    var name := PathJoin(root, rel);
    match node
    case Dir(mode, _, _) =>
      w.Write(DirRecord(name, Perm(mode)));
      ok := true;
    case Link(mode, target) =>
      if target.None? {
        assert w.records + [] == w.records;
        return false;
      }
      w.Write(LinkRecord(name, Perm(mode), target.value));
      ok := true;
    case File(mode, data) =>
      if data.None? {
        assert w.records + [] == w.records;
        return false;
      }
      w.Write(FileRecord(name, REGULAR + Perm(mode), data.value));
      ok := true;
    case Special(_) =>
      ok := true;
      assert w.records + [] == w.records;
    case Vanished =>
      ok := false;
      assert w.records + [] == w.records;
  }

  /** `filepath.WalkDir`: a path, then what is in it, stopping at the first error. */
  method WalkDir(w: Writer, root: string, rel: string, node: Node) returns (ok: bool)
    modifies w
    ensures w.closed == old(w.closed)
    ensures (w.records, ok) == (old(w.records) + Walk(root, rel, node).0, Walk(root, rel, node).1)
    decreases node
  {
    ghost var was := w.records;
    ok := Visit(w, root, rel, node);
    if !ok || !node.Dir? {
      return;
    }
    ghost var here := [DirRecord(PathJoin(root, rel), Perm(node.mode))];
    if !node.listable {
      assert here + [] == here;
      return false;
    }
    assert (was + here) + WalkForest(root, rel, node.children).0 == was + (here + WalkForest(root, rel, node.children).0);
    ok := WalkEntries(w, root, rel, node.children);
  }

  method WalkEntries(w: Writer, root: string, rel: string, forest: Forest) returns (ok: bool)
    modifies w
    ensures w.closed == old(w.closed)
    ensures (w.records, ok) == (old(w.records) + WalkForest(root, rel, forest).0, WalkForest(root, rel, forest).1)
    decreases forest
  {
    ok := true;
    ghost var was := w.records;
    match forest
    case Empty =>
      assert was + [] == was;
    case Entry(name, node, rest) =>
      ok := WalkDir(w, root, ChildRel(rel, name), node);
      if ok {
        ghost var first, others := Walk(root, ChildRel(rel, name), node).0, WalkForest(root, rel, rest).0;
        assert (was + first) + others == was + (first + others);
        ok := WalkEntries(w, root, rel, rest);
      }
  }

  /** `packModules`, at the level of records: the archive is closed when nothing failed. */
  method PackModules(src: string, seen: Option<Node>, tree: Node) returns (w: Writer, failure: Option<Failure>)
    ensures fresh(w) && (w.records, failure) == Archive(src, seen, tree) && w.closed == failure.None?
  {
    w := new Writer();
    if seen.None? {
      return w, Some(NoSource);
    }
    if !seen.value.Dir? {
      return w, Some(NotADirectory);
    }
    var root := RootInCpio("lib", "modules", Release(src));
    w.Write(DirRecord("lib", 0x1ED));
    w.Write(DirRecord("lib/modules", 0x1ED));
    assert w.records == Top("lib", "lib/modules");
    var ok := WalkDir(w, root, "", tree);
    if !ok {
      return w, Some(Unreadable);
    }
    w.Close();
    failure := None;
  }
}

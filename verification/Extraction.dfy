/** Unpacking an archive record by record, and what becomes of a packed tree. */
module Extraction {
  import opened Bytes
  import opened Modpack
  import opened Paths
  import opened Wrappers

  type Path = seq<string>

  datatype Item =
    | DirItem(perm: nat)
    | FileItem(perm: nat, data: bytes)
    | LinkItem(perm: nat, target: string)

  /** What is at each path; `[]` is the root directory. */
  type Files = map<Path, Item>

  const BARE: Files := map[[] := DirItem(0x1ED)]

  function At(fs: Files, p: Path): Option<Item> {
    if p in fs then Some(fs[p]) else None
  }

  // ---- the unpacker ----

  function Where(r: Record): (p: Path)
    ensures p != []
  {
    Components(r.name)
  }

  function Parent(p: Path): Path
    requires p != []
  {
    p[..|p| - 1]
  }

  /** A file record must carry the type bits of a regular file, the others get theirs from the writer. */
  predicate Typed(r: Record) {
    r.mode / 0x1000 == if r.FileRecord? then 8 else 0
  }

  /** All twelve mode bits of a record are applied. */
  function ItemOf(r: Record): Item {
    match r
    case DirRecord(_, mode) => DirItem(mode % 0x1000)
    case FileRecord(_, mode, data) => FileItem(mode % 0x1000, data)
    case LinkRecord(_, mode, target) => LinkItem(mode % 0x1000, target)
  }

  /** A record can be placed in a directory that exists, where nothing else is. */
  predicate Placeable(fs: Files, r: Record) {
    Typed(r) && Where(r) !in fs && Parent(Where(r)) in fs && fs[Parent(Where(r))].DirItem?
  }

  /** The files after the records in order, or `None` when one could not be placed. */
  function Unpack(fs: Files, records: seq<Record>): Option<Files>
    decreases |records|
  {
    if records == [] then Some(fs)
    else if Placeable(fs, records[0]) then Unpack(fs[Where(records[0]) := ItemOf(records[0])], records[1..])
    else None
  }

  lemma {:induction false} UnpackConcat(fs: Files, a: seq<Record>, b: seq<Record>)
    ensures Unpack(fs, a + b) == match Unpack(fs, a) case None => None case Some(mid) => Unpack(mid, b)
    decreases |a|
  {
    if a == [] {
      assert a + b == b;
    } else {
      assert (a + b)[1..] == a[1..] + b;
      if Placeable(fs, a[0]) {
        UnpackConcat(fs[Where(a[0]) := ItemOf(a[0])], a[1..], b);
      }
    }
  }

  // ---- the tree by itself ----

  function Find(forest: Forest, name: string): Option<Node> {
    match forest
    case Empty => None
    case Entry(n, node, rest) => if n == name then Some(node) else Find(rest, name)
  }

  /** The node that a path leads to. */
  function Resolve(node: Node, p: Path): Option<Node>
    decreases |p|
  {
    if p == [] then Some(node)
    else if !node.Dir? then None
    else match Find(node.children, p[0])
         case None => None
         case Some(child) => Resolve(child, p[1..])
  }

  /** What is to be kept of a node: nothing of a socket, a fifo or a device. */
  function Kept(node: Node): Option<Item> {
    match node
    case Dir(mode, _, _) => Some(DirItem(Perm(mode)))
    case File(mode, data) => if data.None? then None else Some(FileItem(Perm(mode), data.value))
    case Link(mode, target) => if target.None? then None else Some(LinkItem(Perm(mode), target.value))
    case Special(_) => None
    case Vanished => None
  }

  function KeptAt(node: Node, p: Path): Option<Item> {
    match Resolve(node, p)
    case None => None
    case Some(n) => Kept(n)
  }

  /** What every directory guarantees: proper names, each once. */
  predicate WellNamed(node: Node)
    decreases node
  {
    node.Dir? ==> WellNamedForest(node.children)
  }

  predicate WellNamedForest(forest: Forest)
    decreases forest
  {
    match forest
    case Empty => true
    case Entry(name, node, rest) => Proper(name) && Find(rest, name).None? && WellNamed(node) && WellNamedForest(rest)
  }

  /** Everything that the walk reads can be read. */
  predicate Readable(node: Node)
    decreases node
  {
    match node
    case Dir(_, children, listable) => listable && ReadableForest(children)
    case File(_, data) => data.Some?
    case Link(_, target) => target.Some?
    case Special(_) => true
    case Vanished => false
  }

  predicate ReadableForest(forest: Forest)
    decreases forest
  {
    match forest
    case Empty => true
    case Entry(_, node, rest) => Readable(node) && ReadableForest(rest)
  }

  // ---- the walk of a tree, unpacked ----

  predicate Below(at: Path, p: Path) {
    |at| <= |p| && p[..|at|] == at
  }

  /** Nothing is at `at` or below it, and its parent is a directory. */
  predicate Vacant(fs: Files, at: Path) {
    && at != []
    && (forall p :: p in fs ==> !Below(at, p))
    && Parent(at) in fs && fs[Parent(at)].DirItem?
  }

  /** `after` is `before` with what is kept of `node` at `at`. */
  ghost predicate Grafted(before: Files, after: Files, at: Path, node: Node) {
    forall p :: At(after, p) == if Below(at, p) then KeptAt(node, p[|at|..]) else At(before, p)
  }

  /** What is kept of `forest` in the directory at `at`. */
  function KeptIn(forest: Forest, p: Path): Option<Item>
    requires p != []
  {
    match Find(forest, p[0])
    case None => None
    case Some(child) => KeptAt(child, p[1..])
  }

  predicate Under(at: Path, p: Path) {
    |at| < |p| && p[..|at|] == at
  }

  ghost predicate Filled(before: Files, after: Files, at: Path, forest: Forest) {
    forall p :: At(after, p) == if Under(at, p) && Find(forest, p[|at|]).Some? then KeptIn(forest, p[|at|..]) else At(before, p)
  }

  /** No file lies at or below an entry of `forest` in the directory at `at`. */
  predicate VacantIn(fs: Files, at: Path, forest: Forest) {
    && (forall p :: p in fs && Under(at, p) ==> Find(forest, p[|at|]).None?)
    && at in fs && fs[at].DirItem?
  }

  lemma BelowEntry(at: Path, name: string, p: Path)
    ensures Below(at + [name], p) <==> Under(at, p) && p[|at|] == name
    ensures Under(at, p) ==> p[|at|..] == [p[|at|]] + p[|at| + 1..]
  {
    if |at| < |p| {
      assert p[..|at| + 1] == p[..|at|] + [p[|at|]];
    }
  }

  lemma NameAt(root: Path, rel: Path)
    requires root != [] && AllProper(root) && AllProper(rel)
    ensures Components(PathJoin(JoinNames(root), JoinNames(rel))) == root + rel
  {
    JoinOfProper(root, rel);
    ComponentsOfJoin(root + rel);
  }

  lemma {:induction false} JoinIsEmpty(cs: Path)
    requires AllProper(cs)
    ensures JoinNames(cs) == "" <==> cs == []
  {
    if cs != [] {
      assert Proper(cs[0]);
    }
  }

  lemma ChildRelJoins(rel: Path, name: string)
    requires AllProper(rel)
    ensures ChildRel(JoinNames(rel), name) == JoinNames(rel + [name])
  {
    JoinNext(rel, name);
    JoinIsEmpty(rel);
  }

  /** One record at a vacant place, unpacked. */
  lemma UnpackOne(fs: Files, r: Record, at: Path)
    requires Vacant(fs, at) && Where(r) == at && Typed(r)
    ensures Unpack(fs, [r]) == Some(fs[at := ItemOf(r)])
  {
    assert Below(at, at);
    assert [r][1..] == [];
  }

  lemma FileModes(mode: nat)
    ensures Perm(mode) % 0x1000 == Perm(mode) && (REGULAR + Perm(mode)) % 0x1000 == Perm(mode)
    ensures Perm(mode) / 0x1000 == 0 && (REGULAR + Perm(mode)) / 0x1000 == 8
  {
  }

  /** The record of a node that is not a directory. */
  lemma LeafUnpacks(fs: Files, root: Path, rel: Path, node: Node) returns (after: Files)
    requires root != [] && AllProper(root) && AllProper(rel)
    requires !node.Dir? && Readable(node) && Vacant(fs, root + rel)
    ensures Unpack(fs, Walk(JoinNames(root), JoinNames(rel), node).0) == Some(after)
    ensures Grafted(fs, after, root + rel, node)
  {
    var at := root + rel;
    var records := Walk(JoinNames(root), JoinNames(rel), node).0;
    NameAt(root, rel);
    FileModes(node.mode);
    after := fs;
    if records != [] {
      UnpackOne(fs, records[0], at);
      assert records == [records[0]];
      after := fs[at := ItemOf(records[0])];
    }
    forall p
      ensures At(after, p) == if Below(at, p) then KeptAt(node, p[|at|..]) else At(fs, p)
    {
      if Below(at, p) && |p| == |at| {
        assert p == at && p[|at|..] == [];
      }
    }
  }

  /** The walk at a vacant place puts the kept part of the tree there, and never gets stuck. */
  lemma {:induction false} WalkUnpacks(fs: Files, root: Path, rel: Path, node: Node) returns (after: Files)
    requires root != [] && AllProper(root) && AllProper(rel)
    requires WellNamed(node) && Readable(node) && Vacant(fs, root + rel)
    ensures Walk(JoinNames(root), JoinNames(rel), node).1
    ensures Unpack(fs, Walk(JoinNames(root), JoinNames(rel), node).0) == Some(after)
    ensures Grafted(fs, after, root + rel, node)
    decreases node
  {
    if !node.Dir? {
      after := LeafUnpacks(fs, root, rel, node);
      return;
    }
    var at := root + rel;
    var head := DirRecord(PathJoin(JoinNames(root), JoinNames(rel)), Perm(node.mode));
    NameAt(root, rel);
    FileModes(node.mode);
    UnpackOne(fs, head, at);
    var mid := fs[at := ItemOf(head)];
    assert forall p :: Under(at, p) ==> Below(at, p) && p != at;
    after := ForestUnpacks(mid, root, rel, node.children);
    UnpackConcat(fs, [head], WalkForest(JoinNames(root), JoinNames(rel), node.children).0);
    DirGrafted(fs, mid, after, at, node);
  }

  lemma {:induction false} ForestUnpacks(fs: Files, root: Path, rel: Path, forest: Forest) returns (after: Files)
    requires root != [] && AllProper(root) && AllProper(rel)
    requires WellNamedForest(forest) && ReadableForest(forest) && VacantIn(fs, root + rel, forest)
    ensures WalkForest(JoinNames(root), JoinNames(rel), forest).1
    ensures Unpack(fs, WalkForest(JoinNames(root), JoinNames(rel), forest).0) == Some(after)
    ensures Filled(fs, after, root + rel, forest)
    decreases forest
  {
    var at := root + rel;
    match forest
    case Empty =>
      after := fs;
    case Entry(name, node, rest) =>
      ChildRelJoins(rel, name);
      assert root + (rel + [name]) == at + [name];
      EntryVacant(fs, at, forest);
      var mid := WalkUnpacks(fs, root, rel + [name], node);
      RestVacant(fs, mid, at, forest);
      after := ForestUnpacks(mid, root, rel, rest);
      UnpackConcat(fs, Walk(JoinNames(root), JoinNames(rel + [name]), node).0,
                   WalkForest(JoinNames(root), JoinNames(rel), rest).0);
      EntryFilled(fs, mid, after, at, forest);
  }

  lemma DirGrafted(fs: Files, mid: Files, after: Files, at: Path, node: Node)
    requires node.Dir? && Vacant(fs, at) && mid == fs[at := DirItem(Perm(node.mode))]
    requires Filled(mid, after, at, node.children)
    ensures Grafted(fs, after, at, node)
  {
    forall p
      ensures At(after, p) == if Below(at, p) then KeptAt(node, p[|at|..]) else At(fs, p)
    {
      if Below(at, p) {
        var q := p[|at|..];
        if |p| == |at| {
          assert p == at && q == [];
        } else {
          assert Under(at, p) && q[0] == p[|at|];
          assert At(fs, p).None?;
        }
      }
    }
  }

  lemma EntryVacant(fs: Files, at: Path, forest: Forest)
    requires forest.Entry? && VacantIn(fs, at, forest)
    ensures Vacant(fs, at + [forest.name])
  {
    var here := at + [forest.name];
    assert Parent(here) == at;
    forall p | p in fs
      ensures !Below(here, p)
    {
      BelowEntry(at, forest.name, p);
    }
  }

  lemma RestVacant(fs: Files, mid: Files, at: Path, forest: Forest)
    requires forest.Entry? && Find(forest.rest, forest.name).None?
    requires VacantIn(fs, at, forest) && Grafted(fs, mid, at + [forest.name], forest.node)
    ensures VacantIn(mid, at, forest.rest)
  {
    var here := at + [forest.name];
    assert At(mid, at) == At(fs, at);
    forall p | p in mid && Under(at, p)
      ensures Find(forest.rest, p[|at|]).None?
    {
      assert At(mid, p).Some?;
      BelowEntry(at, forest.name, p);
    }
  }

  lemma EntryFilled(fs: Files, mid: Files, after: Files, at: Path, forest: Forest)
    requires forest.Entry? && Find(forest.rest, forest.name).None?
    requires Grafted(fs, mid, at + [forest.name], forest.node)
    requires Filled(mid, after, at, forest.rest)
    ensures Filled(fs, after, at, forest)
  {
    var here := at + [forest.name];
    forall p
      ensures At(after, p) == if Under(at, p) && Find(forest, p[|at|]).Some? then KeptIn(forest, p[|at|..]) else At(fs, p)
    {
      BelowEntry(at, forest.name, p);
    }
  }
}

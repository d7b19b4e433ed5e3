/** What the archive of a module tree holds, and when it can be unpacked at all. */
module PackFacts {
  import opened Modpack
  import opened Paths
  import opened Extraction
  import opened Wrappers

  // ---- the root of the archive ----

  /** Whatever the source is called, the release is a proper name, `.` or `..`. */
  lemma ReleaseIsOneName(src: string)
    ensures Proper(Release(src)) || Release(src) == "." || Release(src) == ".."
  {
    TrimmedHasNoLastSlash(src);
  }

  /** The release is the last part of the source, without the slashes behind it; a source of slashes only has none. */
  lemma ReleaseIsLastPart(src: string) returns (front: string, slashes: string)
    ensures AllSlashes(slashes)
    ensures AllSlashes(src) ==> Release(src) == "."
    ensures !AllSlashes(src) ==>
              && src == front + Release(src) + slashes && (front == "" || front[|front| - 1] == '/')
              && Release(src) != "" && '/' !in Release(src)
  {
    front, slashes := BaseIsLastPart(src);
    TrimmedHasNoLastSlash(src);
    OnlySlashes(src);
  }

  function RootParts(lib: string, modules: string, release: string): Path {
    if release == "." then [lib, modules] else if release == ".." then [lib] else [lib, modules, release]
  }

  /** `both` is the path of `b` in `a`. */
  predicate Joined(a: string, b: string, both: string) {
    Proper(a) && Proper(b) && both == a + "/" + b
  }

  lemma LibModules()
    ensures Joined("lib", "modules", "lib/modules")
  {
    assert "lib/modules" == "lib" + "/" + "modules";
  }

  lemma TwoParts(a: string, b: string, both: string)
    requires Joined(a, b, both)
    ensures PathJoin(a, b) == JoinNames([a, b]) == both
    ensures Components(a) == [a] && Components(both) == [a, b]
  {
    JoinOfProper([a], [b]);
    ComponentsOfOne(a);
    ComponentsOfJoin([a, b]);
    assert [a] + [b] == [a, b];
    assert [a, b][1..] == [b];
  }

  /** Where the walk is rooted: `.` and `..` are cleaned away. */
  lemma RootIs(lib: string, modules: string, both: string, release: string)
    requires Joined(lib, modules, both) && (Proper(release) || release == "." || release == "..")
    ensures RootInCpio(lib, modules, release) == JoinNames(RootParts(lib, modules, release))
    ensures AllProper(RootParts(lib, modules, release))
  {
    var top := [lib, modules];
    TwoParts(lib, modules, both);
    if Proper(release) {
      JoinOfProper(top, [release]);
      assert top + [release] == [lib, modules, release];
    } else {
      ComponentsOfOne(release);
      ComponentsOfJoin(top);
      CleanProper([], top);
      assert [] + top == top;
      CleanConcat([], top, [release]);
      assert [release][1..] == [];
      assert top[..1] == [lib];
    }
  }

  // ---- what fails ----

  /** The walk succeeds exactly when everything it reads can be read. */
  lemma {:induction false} WalkSucceedsExactly(root: string, rel: string, node: Node)
    ensures Walk(root, rel, node).1 <==> Readable(node)
    decreases node
  {
    if node.Dir? {
      ForestSucceedsExactly(root, rel, node.children);
    }
  }

  lemma {:induction false} ForestSucceedsExactly(root: string, rel: string, forest: Forest)
    ensures WalkForest(root, rel, forest).1 <==> ReadableForest(forest)
    decreases forest
  {
    match forest
    case Empty =>
    case Entry(name, node, rest) =>
      WalkSucceedsExactly(root, ChildRel(rel, name), node);
      ForestSucceedsExactly(root, rel, rest);
  }

  // ---- the archive, unpacked ----

  /** What is at `p` after unpacking: the two directories above, and the kept tree under the release. */
  function Expected(lib: string, modules: string, release: string, tree: Node, p: Path): Option<Item> {
    if Below([lib, modules, release], p) then KeptAt(tree, p[3..])
    else if p == [] || p == [lib] || p == [lib, modules] then Some(DirItem(0x1ED))
    else None
  }

  function TopFiles(lib: string, modules: string): Files {
    map[[] := DirItem(0x1ED), [lib] := DirItem(0x1ED), [lib, modules] := DirItem(0x1ED)]
  }

  lemma TopUnpacks(lib: string, modules: string, both: string)
    requires Joined(lib, modules, both)
    ensures Unpack(BARE, Top(lib, both)) == Some(TopFiles(lib, modules))
  {
    TwoParts(lib, modules, both);
    var top := Top(lib, both);
    var first := BARE[[lib] := DirItem(0x1ED)];
    assert Parent([lib]) == [] && Parent([lib, modules]) == [lib];
    assert top[1..] == [top[1]] && [top[1]][1..] == [];
    assert first[[lib, modules] := DirItem(0x1ED)] == TopFiles(lib, modules);
    assert Unpack(first, top[1..]) == Some(TopFiles(lib, modules));
  }

  lemma ReleaseIsVacant(lib: string, modules: string, release: string)
    ensures Vacant(TopFiles(lib, modules), [lib, modules, release])
  {
    assert Parent([lib, modules, release]) == [lib, modules];
  }

  lemma GraftedIsExpected(lib: string, modules: string, release: string, tree: Node, fs: Files)
    requires Grafted(TopFiles(lib, modules), fs, [lib, modules, release], tree)
    ensures forall p :: At(fs, p) == Expected(lib, modules, release, tree, p)
  {
  }

  /** Under the two directories above the release, the walk unpacks to what is kept of the tree. */
  lemma TreeUnpacks(lib: string, modules: string, release: string, tree: Node) returns (fs: Files)
    requires AllProper([lib, modules, release]) && WellNamed(tree) && Readable(tree)
    ensures Unpack(TopFiles(lib, modules), Walk(JoinNames([lib, modules, release]), "", tree).0) == Some(fs)
    ensures Grafted(TopFiles(lib, modules), fs, [lib, modules, release], tree)
  {
    var root := [lib, modules, release];
    ReleaseIsVacant(lib, modules, release);
    assert root + [] == root;
    fs := WalkUnpacks(TopFiles(lib, modules), root, [], tree);
  }

  lemma RebuildsIn(lib: string, modules: string, both: string, release: string, tree: Node) returns (fs: Files)
    requires Joined(lib, modules, both) && Proper(release) && WellNamed(tree) && Readable(tree)
    ensures Unpack(BARE, ArchiveIn(lib, modules, both, release, tree).0) == Some(fs)
    ensures forall p :: At(fs, p) == Expected(lib, modules, release, tree, p)
  {
    RootIs(lib, modules, both, release);
    TopUnpacks(lib, modules, both);
    fs := TreeUnpacks(lib, modules, release, tree);
    UnpackConcat(BARE, Top(lib, both), Walk(RootInCpio(lib, modules, release), "", tree).0);
    GraftedIsExpected(lib, modules, release, tree, fs);
  }

  lemma ArchiveUnpacks(src: string, seen: Node, tree: Node) returns (fs: Files)
    requires Proper(Release(src)) && seen.Dir? && WellNamed(tree) && Archive(src, Some(seen), tree).1.None?
    ensures Unpack(BARE, Archive(src, Some(seen), tree).0) == Some(fs)
    ensures forall p :: At(fs, p) == Expected("lib", "modules", Release(src), tree, p)
  {
    LibModules();
    WalkSucceedsExactly(RootInCpio("lib", "modules", Release(src)), "", tree);
    fs := RebuildsIn("lib", "modules", "lib/modules", Release(src), tree);
  }

  /** The read, write and execute bits of the owner, of the group and of others, and no other bit. */
  predicate SamePermissions(perm: nat, mode: nat) {
    && perm / 64 % 8 == mode / 64 % 8 && perm / 8 % 8 == mode / 8 % 8 && perm % 8 == mode % 8
    && perm / 512 == 0
  }

  /** What an unpacked tree has where the packed one has `node`: the same thing, but for sockets, fifos and devices. */
  predicate Mirrors(item: Option<Item>, node: Option<Node>) {
    match node
    case Some(Dir(mode, _, _)) => item.Some? && item.value.DirItem? && SamePermissions(item.value.perm, mode)
    case Some(File(mode, data)) =>
      item.Some? && item.value.FileItem? && SamePermissions(item.value.perm, mode) && Some(item.value.data) == data
    case Some(Link(mode, target)) =>
      item.Some? && item.value.LinkItem? && SamePermissions(item.value.perm, mode) && Some(item.value.target) == target
    case Some(Special(_)) => item == None
    case Some(Vanished) => item == None
    case None => item == None
  }

  lemma OctalDigits(q: nat, m: nat)
    requires m < 512
    ensures (512 * q + m) / 64 % 8 == m / 64 && (512 * q + m) / 8 % 8 == m / 8 % 8 && (512 * q + m) % 8 == m % 8
    ensures m / 64 % 8 == m / 64
  {
    assert (512 * q + m) / 64 == 8 * q + m / 64;
    assert (512 * q + m) / 8 == 64 * q + m / 8;
  }

  lemma PermMirrors(mode: nat)
    ensures SamePermissions(Perm(mode), mode)
  {
    OctalDigits(mode / 512, Perm(mode));
  }

  lemma KeptMirrors(node: Node)
    requires Readable(node)
    ensures Mirrors(Kept(node), Some(node))
  {
    if !node.Vanished? {
      PermMirrors(node.mode);
    }
  }

  lemma {:induction false} ReadableBelow(node: Node, p: Path)
    requires Readable(node) && Resolve(node, p).Some?
    ensures Readable(Resolve(node, p).value)
    decreases |p|
  {
    if p != [] {
      FoundIsReadable(node.children, p[0]);
      ReadableBelow(Find(node.children, p[0]).value, p[1..]);
    }
  }

  lemma {:induction false} FoundIsReadable(forest: Forest, name: string)
    requires ReadableForest(forest) && Find(forest, name).Some?
    ensures Readable(Find(forest, name).value)
    decreases forest
  {
    if forest.name != name {
      FoundIsReadable(forest.rest, name);
    }
  }

  lemma RootMirrors(lib: string, modules: string, release: string, tree: Node, fs: Files, p: Path)
    requires Readable(tree) && forall q :: At(fs, q) == Expected(lib, modules, release, tree, q)
    ensures Mirrors(At(fs, [lib, modules, release] + p), Resolve(tree, p))
  {
    var root := [lib, modules, release];
    assert (root + p)[3..] == p && (root + p)[..3] == root;
    assert At(fs, root + p) == KeptAt(tree, p);
    if Resolve(tree, p).Some? {
      ReadableBelow(tree, p);
      KeptMirrors(Resolve(tree, p).value);
    }
  }

  lemma TopIsPlain(lib: string, modules: string, release: string, tree: Node, fs: Files)
    requires forall q :: At(fs, q) == Expected(lib, modules, release, tree, q)
    ensures At(fs, []) == At(fs, [lib]) == At(fs, [lib, modules]) == Some(DirItem(0x1ED))
    ensures forall q :: q in fs ==> q == [] || q == [lib] || q == [lib, modules] || Below([lib, modules, release], q)
  {
    forall q | q in fs
      ensures q == [] || q == [lib] || q == [lib, modules] || Below([lib, modules, release], q)
    {
      assert At(fs, q).Some?;
    }
  }

  /**
    Unpacking an archive never gets stuck. Under the release it gives at every path what the tree has there, with its
    bytes, its target and the nine permission bits; above it the two directories, open to all to read; and nothing else.
   */
  lemma ArchiveRebuildsTree(src: string, seen: Node, tree: Node) returns (fs: Files)
    requires Proper(Release(src)) && seen.Dir? && WellNamed(tree) && Archive(src, Some(seen), tree).1.None?
    ensures Unpack(BARE, Archive(src, Some(seen), tree).0) == Some(fs)
    ensures forall p :: Mirrors(At(fs, ["lib", "modules", Release(src)] + p), Resolve(tree, p))
    ensures At(fs, []) == At(fs, ["lib"]) == At(fs, ["lib", "modules"]) == Some(DirItem(0x1ED))
    ensures forall q :: q in fs ==>
              q == [] || q == ["lib"] || q == ["lib", "modules"] || Below(["lib", "modules", Release(src)], q)
  {
    fs := ArchiveUnpacks(src, seen, tree);
    WalkSucceedsExactly(RootInCpio("lib", "modules", Release(src)), "", tree);
    forall p
      ensures Mirrors(At(fs, ["lib", "modules", Release(src)] + p), Resolve(tree, p))
    {
      RootMirrors("lib", "modules", Release(src), tree, fs, p);
    }
    TopIsPlain("lib", "modules", Release(src), tree, fs);
  }

  /** Packing finishes exactly for a source that is a directory, through its link if need be, and a readable tree. */
  lemma ArchiveFinishesExactly(src: string, seen: Option<Node>, tree: Node)
    ensures Archive(src, seen, tree).1 ==
            if seen.None? then Some(NoSource)
            else if !seen.value.Dir? then Some(NotADirectory)
            else if !Readable(tree) then Some(Unreadable)
            else None
    ensures seen.None? || !seen.value.Dir? ==> Archive(src, seen, tree).0 == []
  {
    WalkSucceedsExactly(RootInCpio("lib", "modules", Release(src)), "", tree);
  }

  /** A walk that comes to a place already taken starts with a record that cannot be placed. */
  lemma TakenPlaceStops(lib: string, modules: string, both: string, release: string, tree: Node)
    requires Joined(lib, modules, both) && (release == "." || release == "..")
    requires (tree.Dir? || tree.Link?) && Readable(tree)
    ensures Unpack(BARE, ArchiveIn(lib, modules, both, release, tree).0).None?
  {
    var root := RootParts(lib, modules, release);
    RootIs(lib, modules, both, release);
    var records := Walk(JoinNames(root), "", tree).0;
    NameAt(root, []);
    assert root + [] == root;
    assert Where(records[0]) == root && root in TopFiles(lib, modules);
    TopUnpacks(lib, modules, both);
    UnpackConcat(BARE, Top(lib, both), records);
  }

  /** An archive that was written to the end can be unpacked exactly when the source names its release. */
  lemma UnpacksExactly(src: string, seen: Node, tree: Node)
    requires seen.Dir? && SameSource(seen, tree) && WellNamed(tree) && Archive(src, Some(seen), tree).1.None?
    ensures Unpack(BARE, Archive(src, Some(seen), tree).0).Some? <==> Release(src) != "." && Release(src) != ".."
  {
    ReleaseIsOneName(src);
    if Proper(Release(src)) {
      var _ := ArchiveUnpacks(src, seen, tree);
    } else {
      LibModules();
      WalkSucceedsExactly(RootInCpio("lib", "modules", Release(src)), "", tree);
      TakenPlaceStops("lib", "modules", "lib/modules", Release(src), tree);
    }
  }

  // ---- a link at the source ----

  /** The files hold the tree at `root`. */
  ghost predicate HoldTree(fs: Files, root: Path, tree: Node) {
    forall p :: Mirrors(At(fs, root + p), Resolve(tree, p))
  }

  /** The files of a link are not those of a directory. */
  lemma LinkIsNoDirectory(fs: Files, root: Path, seen: Node, tree: Node)
    requires seen.Dir? && tree.Link? && HoldTree(fs, root, tree)
    ensures !HoldTree(fs, root, seen)
  {
    assert Mirrors(At(fs, root + []), Resolve(tree, []));
    assert !Mirrors(At(fs, root + []), Resolve(seen, []));
  }

  /**
    A finished archive unpacks to the directory that the check of the source saw exactly when the source is not itself
    a link: a link to a directory passes the check, and is packed without what it leads to.
   */
  lemma HoldsWhatWasSeenExactly(src: string, seen: Node, tree: Node) returns (fs: Files)
    requires Proper(Release(src)) && seen.Dir? && SameSource(seen, tree) && WellNamed(seen)
    requires Archive(src, Some(seen), tree).1.None?
    ensures Unpack(BARE, Archive(src, Some(seen), tree).0) == Some(fs)
    ensures HoldTree(fs, ["lib", "modules", Release(src)], seen) <==> !tree.Link?
  {
    fs := ArchiveRebuildsTree(src, seen, tree);
    if tree.Link? {
      LinkIsNoDirectory(fs, ["lib", "modules", Release(src)], seen, tree);
    }
  }

  lemma NothingBelowLink(fs: Files, root: Path, link: Node)
    requires link.Link? && HoldTree(fs, root, link)
    ensures Mirrors(At(fs, root), Some(link)) && forall p :: Under(root, p) ==> At(fs, p).None?
  {
    assert root + [] == root;
    assert Mirrors(At(fs, root + []), Resolve(link, []));
    forall p | Under(root, p)
      ensures At(fs, p).None?
    {
      assert p == root + p[|root|..];
      assert Mirrors(At(fs, root + p[|root|..]), Resolve(link, p[|root|..]));
    }
  }

  /** What is left of such a source: the link, and nothing below it, whatever the directory holds. */
  lemma LinkedSourceLosesItsTree(src: string, seen: Node, link: Node) returns (fs: Files)
    requires Proper(Release(src)) && seen.Dir? && link.Link? && link.target.Some?
    ensures Archive(src, Some(seen), link).1.None?
    ensures Unpack(BARE, Archive(src, Some(seen), link).0) == Some(fs)
    ensures Mirrors(At(fs, ["lib", "modules", Release(src)]), Some(link))
    ensures forall p :: Under(["lib", "modules", Release(src)], p) ==> At(fs, p).None?
  {
    WalkSucceedsExactly(RootInCpio("lib", "modules", Release(src)), "", link);
    fs := ArchiveRebuildsTree(src, seen, link);
    NothingBelowLink(fs, ["lib", "modules", Release(src)], link);
  }

  // ---- order and names ----

  /** A directory record before `i` for the directory that the record at `i` is to be placed in. */
  predicate ParentBefore(records: seq<Record>, i: nat)
    requires i < |records|
  {
    var up := Parent(Where(records[i]));
    up == [] || exists j :: 0 <= j < i && records[j].DirRecord? && Where(records[j]) == up
  }

  /** The record at `i` comes after the directory that it is placed in, and its name is new. */
  predicate Fits(records: seq<Record>, i: nat)
    requires i < |records|
  {
    Typed(records[i]) && ParentBefore(records, i) && forall j :: 0 <= j < i ==> Where(records[j]) != Where(records[i])
  }

  /** Every directory comes before what is in it, and no name comes twice. */
  predicate WellOrdered(records: seq<Record>) {
    forall i :: 0 <= i < |records| ==> Fits(records, i)
  }

  /** What unpacked records have left behind. */
  ghost predicate Holds(fs: Files, records: seq<Record>) {
    && (forall p :: p in fs ==> p == [] || exists j :: 0 <= j < |records| && Where(records[j]) == p)
    && (forall j :: 0 <= j < |records| ==> Where(records[j]) in fs && fs[Where(records[j])] == ItemOf(records[j]))
    && [] in fs && fs[[]].DirItem?
  }

  lemma PlaceableMeans(records: seq<Record>, n: nat, fs: Files)
    requires n < |records| && Holds(fs, records[..n])
    ensures Placeable(fs, records[n]) <==> Fits(records, n)
  {
    var early := records[..n];
    assert forall j :: 0 <= j < n ==> early[j] == records[j];
    var up := Parent(Where(records[n]));
    if up in fs && fs[up].DirItem? && up != [] {
      var j :| 0 <= j < n && Where(early[j]) == up;
      assert records[j].DirRecord? && Where(records[j]) == up;
    }
  }

  lemma HoldsNext(records: seq<Record>, n: nat, fs: Files)
    requires n < |records| && Holds(fs, records[..n]) && Placeable(fs, records[n])
    ensures Holds(fs[Where(records[n]) := ItemOf(records[n])], records[..n + 1])
  {
    var early, more := records[..n], records[..n + 1];
    var after := fs[Where(records[n]) := ItemOf(records[n])];
    assert more == early + [records[n]];
    forall p | p in after
      ensures p == [] || exists j :: 0 <= j < n + 1 && Where(more[j]) == p
    {
      if p == Where(records[n]) {
        assert Where(more[n]) == p;
      } else if p != [] {
        var j :| 0 <= j < n && Where(early[j]) == p;
        assert Where(more[j]) == p;
      }
    }
    forall j | 0 <= j < n + 1
      ensures Where(more[j]) in after && after[Where(more[j])] == ItemOf(more[j])
    {
      if j < n {
        assert more[j] == early[j];
      }
    }
  }

  lemma {:induction false} OrderedFrom(records: seq<Record>, n: nat, fs: Files)
    requires n <= |records| && Holds(fs, records[..n]) && forall i :: 0 <= i < n ==> Fits(records, i)
    ensures Unpack(fs, records[n..]).Some? <==> WellOrdered(records)
    decreases |records| - n
  {
    if n < |records| {
      PlaceableMeans(records, n, fs);
      assert records[n..][1..] == records[n + 1..];
      if Placeable(fs, records[n]) {
        HoldsNext(records, n, fs);
        OrderedFrom(records, n + 1, fs[Where(records[n]) := ItemOf(records[n])]);
      }
    }
  }

  /** Records can be unpacked in order exactly when parents come first and names are distinct. */
  lemma UnpacksWhenOrdered(records: seq<Record>)
    ensures Unpack(BARE, records).Some? <==> WellOrdered(records)
  {
    OrderedFrom(records, 0, BARE);
    assert records[0..] == records;
  }

  lemma {:induction false} WalkStaysBelow(root: Path, rel: Path, node: Node)
    requires root != [] && AllProper(root) && AllProper(rel) && WellNamed(node)
    ensures forall i :: 0 <= i < |Walk(JoinNames(root), JoinNames(rel), node).0| ==>
              Below(root, Where(Walk(JoinNames(root), JoinNames(rel), node).0[i]))
    decreases node
  {
    NameAt(root, rel);
    assert (root + rel)[..|root|] == root;
    if node.Dir? {
      ForestStaysBelow(root, rel, node.children);
    }
  }

  lemma {:induction false} ForestStaysBelow(root: Path, rel: Path, forest: Forest)
    requires root != [] && AllProper(root) && AllProper(rel) && WellNamedForest(forest)
    ensures forall i :: 0 <= i < |WalkForest(JoinNames(root), JoinNames(rel), forest).0| ==>
              Below(root, Where(WalkForest(JoinNames(root), JoinNames(rel), forest).0[i]))
    decreases forest
  {
    match forest
    case Empty =>
    case Entry(name, node, rest) =>
      ChildRelJoins(rel, name);
      WalkStaysBelow(root, rel + [name], node);
      ForestStaysBelow(root, rel, rest);
  }

  lemma StaysBelowIn(lib: string, modules: string, both: string, release: string, tree: Node)
    requires Joined(lib, modules, both) && Proper(release) && WellNamed(tree)
    ensures ArchiveIn(lib, modules, both, release, tree).0[..2] == Top(lib, both)
    ensures forall i :: 2 <= i < |ArchiveIn(lib, modules, both, release, tree).0| ==>
              Below([lib, modules, release], Where(ArchiveIn(lib, modules, both, release, tree).0[i]))
  {
    var root := [lib, modules, release];
    RootIs(lib, modules, both, release);
    WalkStaysBelow(root, [], tree);
    assert JoinNames([]) == "";
    var records := Walk(JoinNames(root), "", tree).0;
    var all := ArchiveIn(lib, modules, both, release, tree).0;
    assert all == Top(lib, both) + records;
    forall i | 2 <= i < |all|
      ensures Below(root, Where(all[i]))
    {
      assert all[i] == records[i - 2];
    }
  }

  /** Past the first two records everything lies at or under the release, even when the walk fails midway. */
  lemma ArchiveStaysBelow(src: string, seen: Node, tree: Node)
    requires Proper(Release(src)) && seen.Dir? && WellNamed(tree)
    ensures Archive(src, Some(seen), tree).0[..2] == Top("lib", "lib/modules")
    ensures forall i :: 2 <= i < |Archive(src, Some(seen), tree).0| ==>
              Below(["lib", "modules", Release(src)], Where(Archive(src, Some(seen), tree).0[i]))
  {
    LibModules();
    StaysBelowIn("lib", "modules", "lib/modules", Release(src), tree);
  }

  /** The tree as it would be if everything in it could be read. */
  function Repaired(node: Node): Node
    decreases node
  {
    match node
    case Dir(mode, children, _) => Dir(mode, RepairedForest(children), true)
    case File(mode, data) => if data.None? then File(mode, Some([])) else node
    case Link(mode, target) => if target.None? then Link(mode, Some("")) else node
    case Special(_) => node
    case Vanished => Special(0)
  }

  function RepairedForest(forest: Forest): Forest
    decreases forest
  {
    match forest
    case Empty => Empty
    case Entry(name, node, rest) => Entry(name, Repaired(node), RepairedForest(rest))
  }

  lemma {:induction false} RepairKeepsNames(node: Node)
    requires WellNamed(node)
    ensures WellNamed(Repaired(node)) && Readable(Repaired(node))
    decreases node
  {
    if node.Dir? {
      RepairKeepsForest(node.children);
    }
  }

  lemma {:induction false} RepairKeepsForest(forest: Forest)
    requires WellNamedForest(forest)
    ensures WellNamedForest(RepairedForest(forest)) && ReadableForest(RepairedForest(forest))
    ensures forall n :: Find(RepairedForest(forest), n).None? <==> Find(forest, n).None?
    decreases forest
  {
    match forest
    case Empty =>
    case Entry(_, node, rest) =>
      RepairKeepsNames(node);
      RepairKeepsForest(rest);
  }

  /** A walk that fails has written the start of what it would have written. */
  lemma {:induction false} WalkIsPrefix(root: string, rel: string, node: Node)
    ensures Walk(root, rel, node).0 <= Walk(root, rel, Repaired(node)).0
    ensures Walk(root, rel, node).1 ==> Walk(root, rel, Repaired(node)) == Walk(root, rel, node)
    decreases node
  {
    if node.Dir? {
      ForestIsPrefix(root, rel, node.children);
    }
  }

  lemma {:induction false} ForestIsPrefix(root: string, rel: string, forest: Forest)
    ensures WalkForest(root, rel, forest).0 <= WalkForest(root, rel, RepairedForest(forest)).0
    ensures WalkForest(root, rel, forest).1 ==>
              WalkForest(root, rel, RepairedForest(forest)) == WalkForest(root, rel, forest)
    decreases forest
  {
    match forest
    case Empty =>
    case Entry(name, node, rest) =>
      WalkIsPrefix(root, ChildRel(rel, name), node);
      ForestIsPrefix(root, rel, rest);
  }

  lemma PrefixIsOrdered(records: seq<Record>, more: seq<Record>)
    requires WellOrdered(more) && records <= more
    ensures WellOrdered(records)
  {
    forall i | 0 <= i < |records|
      ensures Fits(records, i)
    {
      assert Fits(more, i);
      assert forall j :: 0 <= j <= i ==> records[j] == more[j];
    }
  }

  /** In every archive, finished or not, each directory comes before what is in it, and no name comes twice. */
  lemma ArchiveIsOrdered(src: string, seen: Node, tree: Node)
    requires Proper(Release(src)) && seen.Dir? && WellNamed(tree)
    ensures WellOrdered(Archive(src, Some(seen), tree).0)
  {
    var whole := Repaired(tree);
    RepairKeepsNames(tree);
    WalkSucceedsExactly(RootInCpio("lib", "modules", Release(src)), "", whole);
    var _ := ArchiveUnpacks(src, seen, whole);
    UnpacksWhenOrdered(Archive(src, Some(seen), whole).0);
    WalkIsPrefix(RootInCpio("lib", "modules", Release(src)), "", tree);
    PrefixIsOrdered(Archive(src, Some(seen), tree).0, Archive(src, Some(seen), whole).0);
  }
}

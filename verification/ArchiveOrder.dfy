/** The order of the records: that of `filepath.WalkDir`, a directory before what is in it, and siblings by name. */
module ArchiveOrder {
  import opened Extraction
  import opened Modpack
  import opened PackFacts
  import opened Paths
  import opened Text
  import opened Wrappers

  // ---- the order of paths ----

  /** Part by part, the first path ends or has the smaller name where the two first differ. */
  predicate PathLess(p: Path, q: Path) {
    exists k :: 0 <= k <= |p| && k < |q| && p[..k] == q[..k] && (k == |p| || Less(p[k], q[k]))
  }

  /** Every record comes after those whose paths are smaller. */
  ghost predicate InPathOrder(records: seq<Record>) {
    forall i, j :: 0 <= i < j < |records| ==> PathLess(Where(records[i]), Where(records[j]))
  }

  /** Every directory lists its entries in the order of their names, as `fs.ReadDir` does. */
  predicate Listed(node: Node)
    decreases node
  {
    node.Dir? ==> ListedForest(node.children)
  }

  predicate ListedForest(forest: Forest)
    decreases forest
  {
    match forest
    case Empty => true
    case Entry(name, node, rest) => Before(name, rest) && Listed(node) && ListedForest(rest)
  }

  /** The name comes before all names of the forest. */
  predicate Before(name: string, forest: Forest)
    decreases forest
  {
    match forest
    case Empty => true
    case Entry(other, _, rest) => Less(name, other) && Before(name, rest)
  }

  // ---- where the records of a walk are ----

  ghost predicate AllBelow(records: seq<Record>, at: Path) {
    forall i :: 0 <= i < |records| ==> Below(at, Where(records[i]))
  }

  /** Every record is in the directory at `at`, under a name that comes after `name`. */
  ghost predicate AllAfter(records: seq<Record>, at: Path, name: string) {
    forall i :: 0 <= i < |records| ==> Under(at, Where(records[i])) && Less(name, Where(records[i])[|at|])
  }

  lemma BelowIsUnder(at: Path, name: string, p: Path)
    requires Below(at + [name], p)
    ensures Under(at, p) && p[|at|] == name
  {
    BelowEntry(at, name, p);
  }

  lemma {:induction false} WalkIsBelow(root: Path, rel: Path, node: Node)
    requires root != [] && AllProper(root) && AllProper(rel) && WellNamed(node)
    ensures AllBelow(Walk(JoinNames(root), JoinNames(rel), node).0, root + rel)
    decreases node
  {
    NameAt(root, rel);
    if node.Dir? {
      ForestIsUnder(root, rel, node.children);
      var head := DirRecord(PathJoin(JoinNames(root), JoinNames(rel)), Perm(node.mode));
      var rest := WalkForest(JoinNames(root), JoinNames(rel), node.children).0;
      assert forall i :: 0 <= i < |rest| ==> Under(root + rel, Where(rest[i]));
      assert Where(head) == root + rel;
    }
  }

  lemma {:induction false} ForestIsUnder(root: Path, rel: Path, forest: Forest)
    requires root != [] && AllProper(root) && AllProper(rel) && WellNamedForest(forest)
    ensures forall i :: 0 <= i < |WalkForest(JoinNames(root), JoinNames(rel), forest).0| ==>
              Under(root + rel, Where(WalkForest(JoinNames(root), JoinNames(rel), forest).0[i]))
    decreases forest
  {
    match forest
    case Empty =>
    case Entry(name, node, rest) =>
      ChildRelJoins(rel, name);
      WalkIsBelow(root, rel + [name], node);
      ForestIsUnder(root, rel, rest);
      assert root + (rel + [name]) == (root + rel) + [name];
      var first := Walk(JoinNames(root), JoinNames(rel + [name]), node).0;
      forall i | 0 <= i < |first|
        ensures Under(root + rel, Where(first[i]))
      {
        BelowIsUnder(root + rel, name, Where(first[i]));
      }
  }

  lemma {:induction false} ForestIsAfter(root: Path, rel: Path, forest: Forest, name: string)
    requires root != [] && AllProper(root) && AllProper(rel) && WellNamedForest(forest) && Before(name, forest)
    ensures AllAfter(WalkForest(JoinNames(root), JoinNames(rel), forest).0, root + rel, name)
    decreases forest
  {
    match forest
    case Empty =>
    case Entry(other, node, rest) =>
      ChildRelJoins(rel, other);
      WalkIsBelow(root, rel + [other], node);
      ForestIsAfter(root, rel, rest, name);
      assert root + (rel + [other]) == (root + rel) + [other];
      var first := Walk(JoinNames(root), JoinNames(rel + [other]), node).0;
      forall i | 0 <= i < |first|
        ensures Under(root + rel, Where(first[i])) && Less(name, Where(first[i])[|root + rel|])
      {
        BelowIsUnder(root + rel, other, Where(first[i]));
      }
  }

  // ---- the order of a walk ----

  lemma HeadFirst(at: Path, q: Path)
    requires Under(at, q)
    ensures PathLess(at, q)
  {
    assert at[..|at|] == q[..|at|];
  }

  lemma SiblingFirst(at: Path, name: string, p: Path, q: Path)
    requires Below(at + [name], p) && Under(at, q) && Less(name, q[|at|])
    ensures PathLess(p, q)
  {
    BelowIsUnder(at, name, p);
    assert p[..|at|] == q[..|at|];
  }

  lemma {:induction false} WalkInOrder(root: Path, rel: Path, node: Node)
    requires root != [] && AllProper(root) && AllProper(rel) && WellNamed(node) && Listed(node)
    ensures InPathOrder(Walk(JoinNames(root), JoinNames(rel), node).0)
    decreases node
  {
    if node.Dir? {
      NameAt(root, rel);
      ForestIsUnder(root, rel, node.children);
      ForestInOrder(root, rel, node.children);
      var rest := WalkForest(JoinNames(root), JoinNames(rel), node.children).0;
      forall i | 0 <= i < |rest|
        ensures PathLess(root + rel, Where(rest[i]))
      {
        HeadFirst(root + rel, Where(rest[i]));
      }
    }
  }

  lemma {:induction false} ForestInOrder(root: Path, rel: Path, forest: Forest)
    requires root != [] && AllProper(root) && AllProper(rel) && WellNamedForest(forest) && ListedForest(forest)
    ensures InPathOrder(WalkForest(JoinNames(root), JoinNames(rel), forest).0)
    decreases forest
  {
    match forest
    case Empty =>
    case Entry(name, node, rest) =>
      var at := root + rel;
      ChildRelJoins(rel, name);
      WalkInOrder(root, rel + [name], node);
      ForestInOrder(root, rel, rest);
      WalkIsBelow(root, rel + [name], node);
      ForestIsAfter(root, rel, rest, name);
      assert root + (rel + [name]) == at + [name];
      OrderJoins(Walk(JoinNames(root), JoinNames(rel + [name]), node).0, WalkForest(JoinNames(root), JoinNames(rel), rest).0, at, name);
  }

  lemma OrderJoins(a: seq<Record>, b: seq<Record>, at: Path, name: string)
    requires InPathOrder(a) && InPathOrder(b) && AllBelow(a, at + [name]) && AllAfter(b, at, name)
    ensures InPathOrder(a + b)
  {
    forall i, j | 0 <= i < |a| && 0 <= j < |b|
      ensures PathLess(Where(a[i]), Where(b[j]))
    {
      SiblingFirst(at, name, Where(a[i]), Where(b[j]));
    }
  }

  /** The records of an archive are in the order of their paths, also when the walk fails midway. */
  lemma ArchiveInOrder(src: string, seen: Node, tree: Node)
    requires Proper(Release(src)) && seen.Dir? && WellNamed(tree) && Listed(tree)
    ensures InPathOrder(Archive(src, Some(seen), tree).0)
  {
    LibModules();
    OrderedIn("lib", "modules", "lib/modules", Release(src), tree);
  }

  lemma OrderedIn(lib: string, modules: string, both: string, release: string, tree: Node)
    requires Joined(lib, modules, both) && Proper(release) && WellNamed(tree) && Listed(tree)
    ensures InPathOrder(ArchiveIn(lib, modules, both, release, tree).0)
  {
    var root := [lib, modules, release];
    RootIs(lib, modules, both, release);
    WalkInOrder(root, [], tree);
    WalkIsBelow(root, [], tree);
    assert root + [] == root && JoinNames([]) == "";
    WithTop(lib, modules, both, release, Walk(JoinNames(root), "", tree).0);
  }

  lemma WithTop(lib: string, modules: string, both: string, release: string, records: seq<Record>)
    requires Joined(lib, modules, both) && AllBelow(records, [lib, modules, release]) && InPathOrder(records)
    ensures InPathOrder(Top(lib, both) + records)
  {
    var first, second := DirRecord(lib, 0x1ED), DirRecord(both, 0x1ED);
    TwoParts(lib, modules, both);
    forall i | 0 <= i < |records|
      ensures PathLess([lib], Where(records[i])) && PathLess([lib, modules], Where(records[i]))
    {
      UnderTop(lib, modules, release, Where(records[i]));
    }
    FrontInOrder(second, records);
    assert [lib, modules][..1] == [lib];
    HeadFirst([lib], [lib, modules]);
    FrontOfBoth(first, second, records);
  }

  lemma FrontOfBoth(first: Record, second: Record, records: seq<Record>)
    requires InPathOrder([second] + records) && PathLess(Where(first), Where(second))
    requires forall i :: 0 <= i < |records| ==> PathLess(Where(first), Where(records[i]))
    ensures InPathOrder([first, second] + records)
  {
    var others := [second] + records;
    assert forall i :: 0 < i < |others| ==> others[i] == records[i - 1];
    FrontInOrder(first, others);
    assert [first, second] + records == [first] + others;
  }

  lemma UnderTop(lib: string, modules: string, release: string, p: Path)
    requires Below([lib, modules, release], p)
    ensures PathLess([lib], p) && PathLess([lib, modules], p)
  {
    assert p[..1] == p[..3][..1] == [lib] && p[..2] == p[..3][..2] == [lib, modules];
    HeadFirst([lib], p);
    HeadFirst([lib, modules], p);
  }

  /** One more record in front. */
  lemma FrontInOrder(r: Record, records: seq<Record>)
    requires InPathOrder(records) && forall i :: 0 <= i < |records| ==> PathLess(Where(r), Where(records[i]))
    ensures InPathOrder([r] + records)
  {
    var all := [r] + records;
    forall i, j | 0 <= i < j < |all|
      ensures PathLess(Where(all[i]), Where(all[j]))
    {
      assert all[j] == records[j - 1];
      assert i > 0 ==> all[i] == records[i - 1];
    }
  }
}

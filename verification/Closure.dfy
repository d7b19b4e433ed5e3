/** Referential closure: nothing that is stored refers to something that is not. */
module Closure {
  import opened Registry

  /** The blob of a descriptor is stored in the repository, with the declared size. */
  predicate BlobStored(w: World, home: RepoId, d: Descriptor) {
    BlobKey(home, d.digest) in w && w[BlobKey(home, d.digest)].Blob? && |w[BlobKey(home, d.digest)].data| == d.size
  }

  /** A descriptor declares the digest, the size and the kind of a document, and nothing else. */
  predicate Declares(e: Env, d: Descriptor, doc: Doc) {
    && d.digest == e.digest(e.encode(doc)) && d.size == |e.encode(doc)|
    && d.media == (match doc case Manifest(_, _) => ManifestMedia case Index(_) => IndexMedia)
    && d.annotations == map[]
  }

  /** The manifest of a descriptor is stored in the repository, with the declared digest, size and kind. */
  predicate DocStored(e: Env, w: World, home: RepoId, d: Descriptor) {
    && DocKey(home, d.digest) in w && w[DocKey(home, d.digest)].Document?
    && Declares(e, d, w[DocKey(home, d.digest)].doc)
  }

  ghost predicate DocStoredSomewhere(e: Env, w: World, d: Descriptor) {
    exists home :: DocStored(e, w, home, d)
  }

  /** All that a manifest or an index refers to is stored: blobs beside it, manifests in some repository. */
  ghost predicate RefersToStored(e: Env, w: World, home: RepoId, doc: Doc) {
    match doc
    case Manifest(config, layers) =>
      BlobStored(w, home, config) && forall i :: 0 <= i < |layers| ==> BlobStored(w, home, layers[i])
    case Index(entries) =>
      forall i :: 0 <= i < |entries| ==> DocStoredSomewhere(e, w, entries[i].target)
  }

  /** A stored manifest is closed, and is also stored under its digest. */
  ghost predicate DocClosed(e: Env, w: World, home: RepoId, v: Val) {
    && v.Document?
    && RefersToStored(e, w, home, v.doc)
    && DocKey(home, DocDigest(e, v.doc)) in w && w[DocKey(home, DocDigest(e, v.doc))] == v
  }

  ghost predicate KeyClosed(e: Env, w: World, k: Key)
    requires k in w
  {
    match k
    case BlobKey(home, digest) => w[k].Blob? && e.digest(w[k].data) == digest
    case DocKey(home, reference) =>
      DocClosed(e, w, home, w[k]) && (IsDigest(reference) ==> reference == DocDigest(e, w[k].doc))
    case LastKey(home) => DocClosed(e, w, home, w[k])
  }

  ghost predicate Closed(e: Env, w: World) {
    forall k :: k in w ==> KeyClosed(e, w, k)
  }

  // ---- what a request keeps ----

  /** What is under a digest stays there. */
  ghost predicate Keeps(w: World, v: World) {
    && (forall home, d :: BlobKey(home, d) in w ==> BlobKey(home, d) in v && v[BlobKey(home, d)] == w[BlobKey(home, d)])
    && (forall home, d :: DocKey(home, d) in w && IsDigest(d) ==>
          DocKey(home, d) in v && v[DocKey(home, d)] == w[DocKey(home, d)])
  }

  lemma EffectKeeps(e: Env, w: World, op: Op)
    requires GoodDigests(e) && Closed(e, w) && Accepted(e, op)
    ensures Keeps(w, w + Effect(e, op))
  {
    var v := w + Effect(e, op);
    forall home, d | BlobKey(home, d) in w
      ensures BlobKey(home, d) in v && v[BlobKey(home, d)] == w[BlobKey(home, d)]
    {
      assert KeyClosed(e, w, BlobKey(home, d));
    }
    forall home, d | DocKey(home, d) in w && IsDigest(d)
      ensures DocKey(home, d) in v && v[DocKey(home, d)] == w[DocKey(home, d)]
    {
      assert KeyClosed(e, w, DocKey(home, d));
    }
  }

  lemma StoredSomewhereKept(e: Env, w: World, v: World, d: Descriptor)
    requires GoodDigests(e) && Keeps(w, v) && DocStoredSomewhere(e, w, d)
    ensures DocStoredSomewhere(e, v, d)
  {
    var home :| DocStored(e, w, home, d);
    assert d.digest == DocDigest(e, w[DocKey(home, d.digest)].doc);
    assert IsDigest(d.digest);
    assert DocStored(e, v, home, d);
  }

  lemma RefersKept(e: Env, w: World, v: World, home: RepoId, doc: Doc)
    requires GoodDigests(e) && Keeps(w, v) && RefersToStored(e, w, home, doc)
    ensures RefersToStored(e, v, home, doc)
  {
    match doc
    case Manifest(config, layers) =>
    case Index(entries) =>
      forall i | 0 <= i < |entries|
        ensures DocStoredSomewhere(e, v, entries[i].target)
      {
        StoredSomewhereKept(e, w, v, entries[i].target);
      }
  }

  lemma DocClosedKept(e: Env, w: World, v: World, home: RepoId, val: Val)
    requires GoodDigests(e) && Keeps(w, v) && DocClosed(e, w, home, val)
    ensures DocClosed(e, v, home, val)
  {
    RefersKept(e, w, v, home, val.doc);
    assert IsDigest(DocDigest(e, val.doc));
  }

  /** A request may be made in a world: a manifest only when what it refers to is there. */
  ghost predicate MayApply(e: Env, w: World, op: Op) {
    op.PutDoc? ==> RefersToStored(e, w, op.home, op.doc)
  }

  /** Such a request, when it is accepted, keeps the registry closed. */
  lemma EffectKeepsClosed(e: Env, w: World, op: Op)
    requires GoodDigests(e) && Closed(e, w) && Accepted(e, op) && MayApply(e, w, op)
    ensures Closed(e, w + Effect(e, op))
  {
    var v := w + Effect(e, op);
    EffectKeeps(e, w, op);
    if op.PutDoc? {
      RefersKept(e, w, v, op.home, op.doc);
      assert DocClosed(e, v, op.home, Document(op.doc));
    }
    forall k | k in v
      ensures KeyClosed(e, v, k)
    {
      if k !in Effect(e, op) {
        assert KeyClosed(e, w, k);
        match k
        case BlobKey(_, _) =>
        case DocKey(home, _) => DocClosedKept(e, w, v, home, w[k]);
        case LastKey(home) => DocClosedKept(e, w, v, home, w[k]);
      }
    }
  }

  /** Each of the requests may be made after the ones before it. */
  ghost predicate MayApplyAll(e: Env, w: World, ops: seq<Op>)
    decreases |ops|
  {
    ops == [] || (MayApply(e, w, ops[0]) && MayApplyAll(e, w + Effect(e, ops[0]), ops[1..]))
  }

  lemma {:induction false} PartwayClosed(e: Env, w: World, ops: seq<Op>, n: nat)
    requires GoodDigests(e) && Closed(e, w) && MayApplyAll(e, w, ops)
    requires n <= |ops| && AllAccepted(e, ops[..n])
    ensures Closed(e, Upto(e, w, ops, n))
    decreases n
  {
    if n == 0 {
      UptoZero(e, w, ops);
    } else {
      assert ops[..n][0] == ops[0] && ops[1..][..n - 1] == ops[..n][1..];
      EffectKeepsClosed(e, w, ops[0]);
      PartwayClosed(e, w + Effect(e, ops[0]), ops[1..], n - 1);
      UptoNext(e, w, ops, n - 1);
    }
  }

  /** Every world that the log gained is closed. */
  ghost predicate LogClosed(e: Env, s: State, t: State) {
    s.log <= t.log && Closed(e, t.world) && forall i :: |s.log| <= i < |t.log| ==> Closed(e, t.log[i])
  }

  lemma LogClosedJoins(e: Env, s: State, t: State, u: State)
    requires LogClosed(e, s, t) && LogClosed(e, t, u)
    ensures LogClosed(e, s, u)
  {
    forall i | |s.log| <= i < |u.log|
      ensures Closed(e, u.log[i])
    {
      if i < |t.log| {
        assert u.log[i] == t.log[i];
      }
    }
  }

  /** Requests that may be made keep the registry closed at every moment, whichever of them fails. */
  lemma IssueKeepsClosed(e: Env, f: Schedule, s: State, ops: seq<Op>)
    requires GoodDigests(e) && Closed(e, s.world) && MayApplyAll(e, s.world, ops)
    ensures LogClosed(e, s, Issue(e, f, s, ops).0)
  {
    var t := Issue(e, f, s, ops).0;
    IssuePartway(e, f, s, ops);
    forall v | Partway(e, s.world, ops, v)
      ensures Closed(e, v)
    {
      var n: nat :| n <= |ops| && AllAccepted(e, ops[..n]) && v == Upto(e, s.world, ops, n);
      PartwayClosed(e, s.world, ops, n);
    }
  }

  lemma FetchKeepsClosed(e: Env, f: Schedule, s: State, home: RepoId, reference: string)
    requires Closed(e, s.world)
    ensures LogClosed(e, s, Fetch(e, f, s, home, reference).0)
  {
  }

  /** What a registry answers with is stored under its digest. */
  lemma LookupIsStored(e: Env, w: World, home: RepoId, reference: string)
    requires Closed(e, w) && Lookup(e, w, home, reference).Some?
    ensures DocStored(e, w, home, DescOf(e, Lookup(e, w, home, reference).value))
  {
    assert DocKey(home, reference) in w ==> KeyClosed(e, w, DocKey(home, reference));
    assert LastKey(home) in w ==> KeyClosed(e, w, LastKey(home));
  }
}

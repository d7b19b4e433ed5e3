/** Any sequence of push commands against one registry, with any request failing at any point. */
module Pushes {
  import opened Artifact
  import opened ArtifactFacts
  import opened Closure
  import opened ImageIndex
  import opened Multi
  import opened Registry

  datatype Command = PushArtifact(artifact: Opts) | PushIndex(index: IndexOpts) | PushMultiple(multi: MultiOpts)

  /** The state that a command leaves, whether it succeeds or not. */
  function Execute(e: Env, f: Schedule, s: State, c: Command): State {
    match c
    case PushArtifact(o) => Run(e, f, s, o).0
    case PushIndex(o) => RunIndex(e, f, s, o).0
    case PushMultiple(o) => RunMulti(e, f, s, o).0
  }

  function ExecuteAll(e: Env, f: Schedule, s: State, cs: seq<Command>): State
    decreases |cs|
  {
    if cs == [] then s else ExecuteAll(e, f, Execute(e, f, s, cs[0]), cs[1..])
  }

  lemma {:induction false} PushAllKeepsClosed(e: Env, f: Schedule, s: State, o: MultiOpts, ps: seq<string>)
    requires GoodDigests(e) && Closed(e, s.world)
    ensures LogClosed(e, s, PushAll(e, f, s, o, ps).0)
    decreases |ps|
  {
    if ps != [] {
      var (t, r) := PushOne(e, f, s, o, ps[0]);
      var archRef := DerivePerArchRef(e, o.ref, ps[0]);
      if archRef.Ok? {
        RunKeepsClosed(e, f, s, ArtifactFor(o, ps[0], archRef.value));
      }
      if r.Ok? {
        PushAllKeepsClosed(e, f, t, o, ps[1..]);
        LogClosedJoins(e, s, t, PushAll(e, f, t, o, ps[1..]).0);
      }
    }
  }

  lemma ExecuteKeepsClosed(e: Env, f: Schedule, s: State, c: Command)
    requires GoodDigests(e) && Closed(e, s.world)
    ensures LogClosed(e, s, Execute(e, f, s, c))
  {
    match c
    case PushArtifact(o) => RunKeepsClosed(e, f, s, o);
    case PushIndex(o) => RunIndexKeepsClosed(e, f, s, o);
    case PushMultiple(o) =>
      PushAllKeepsClosed(e, f, s, o, PlatformsOfRun(o));
      var (t, entries) := PushAll(e, f, s, o, PlatformsOfRun(o));
      if entries.Ok? {
        RunIndexKeepsClosed(e, f, t, IndexOpts(entries.value, o.ref));
        LogClosedJoins(e, s, t, RunIndex(e, f, t, IndexOpts(entries.value, o.ref)).0);
      }
  }

  /**
    After every request of every sequence of push commands on a closed registry, whichever requests and files fail:
    every config and layer of every stored manifest is a stored blob of the declared size and digest, and every entry
    of every stored index names a stored manifest of the declared size and digest.
   */
  lemma {:induction false} RegistryStaysClosed(e: Env, f: Schedule, s: State, cs: seq<Command>)
    requires GoodDigests(e) && Closed(e, s.world)
    ensures LogClosed(e, s, ExecuteAll(e, f, s, cs))
    decreases |cs|
  {
    if cs != [] {
      var t := Execute(e, f, s, cs[0]);
      ExecuteKeepsClosed(e, f, s, cs[0]);
      RegistryStaysClosed(e, f, t, cs[1..]);
      LogClosedJoins(e, s, t, ExecuteAll(e, f, t, cs[1..]));
    }
  }

  /** The empty registry, where every history starts, is closed. */
  lemma EmptyRegistryClosed(e: Env, f: Schedule, cs: seq<Command>)
    requires GoodDigests(e)
    ensures LogClosed(e, State(map[], 0, []), ExecuteAll(e, f, State(map[], 0, []), cs))
  {
    RegistryStaysClosed(e, f, State(map[], 0, []), cs);
  }

  // ---- what that means for a client ----

  /** Some repository holds a document under the digest of the entry, with the digest, size and kind that the entry declares. */
  ghost predicate EntryResolves(e: Env, w: World, target: Descriptor) {
    exists home, doc ::
      && DocKey(home, target.digest) in w && w[DocKey(home, target.digest)] == Document(doc)
      && target.digest == e.digest(e.encode(doc)) && target.size == |e.encode(doc)|
      && target.media == (match doc case Manifest(_, _) => ManifestMedia case Index(_) => IndexMedia)
  }

  /** The repository holds a blob under the digest of the descriptor, with that digest and the size it declares. */
  ghost predicate BlobResolves(e: Env, w: World, home: RepoId, d: Descriptor) {
    exists data ::
      && BlobKey(home, d.digest) in w && w[BlobKey(home, d.digest)] == Blob(data)
      && d.digest == e.digest(data) && d.size == |data|
  }

  /** Whatever a client gets under a reference, it can follow. */
  ghost predicate Followable(e: Env, w: World) {
    forall home, reference :: DocKey(home, reference) in w ==>
      match w[DocKey(home, reference)]
      case Blob(_) => false
      case Document(Manifest(config, layers)) =>
        BlobResolves(e, w, home, config) && forall i :: 0 <= i < |layers| ==> BlobResolves(e, w, home, layers[i])
      case Document(Index(entries)) => forall i :: 0 <= i < |entries| ==> EntryResolves(e, w, entries[i].target)
  }

  lemma StoredEntryResolves(e: Env, w: World, target: Descriptor)
    requires DocStoredSomewhere(e, w, target)
    ensures EntryResolves(e, w, target)
  {
    var home :| DocStored(e, w, home, target);
    var doc := w[DocKey(home, target.digest)].doc;
    assert w[DocKey(home, target.digest)] == Document(doc);
  }

  lemma StoredBlobResolves(e: Env, w: World, home: RepoId, d: Descriptor)
    requires Closed(e, w) && BlobStored(w, home, d)
    ensures BlobResolves(e, w, home, d)
  {
    assert KeyClosed(e, w, BlobKey(home, d.digest));
    var data := w[BlobKey(home, d.digest)].data;
    assert w[BlobKey(home, d.digest)] == Blob(data);
  }

  lemma ClosedIsFollowable(e: Env, w: World)
    requires Closed(e, w)
    ensures Followable(e, w)
  {
    forall home, reference | DocKey(home, reference) in w
      ensures match w[DocKey(home, reference)]
              case Blob(_) => false
              case Document(Manifest(config, layers)) =>
                BlobResolves(e, w, home, config) && forall i :: 0 <= i < |layers| ==> BlobResolves(e, w, home, layers[i])
              case Document(Index(entries)) => forall i :: 0 <= i < |entries| ==> EntryResolves(e, w, entries[i].target)
    {
      assert KeyClosed(e, w, DocKey(home, reference));
      match w[DocKey(home, reference)]
      case Document(Manifest(config, layers)) =>
        StoredBlobResolves(e, w, home, config);
        forall i | 0 <= i < |layers|
          ensures BlobResolves(e, w, home, layers[i])
        {
          StoredBlobResolves(e, w, home, layers[i]);
        }
      case Document(Index(entries)) =>
        forall i | 0 <= i < |entries|
          ensures EntryResolves(e, w, entries[i].target)
        {
          StoredEntryResolves(e, w, entries[i].target);
        }
    }
  }

  /** In every history of an empty registry, after every request, a client can follow whatever it gets. */
  lemma HistoryIsFollowable(e: Env, f: Schedule, cs: seq<Command>)
    requires GoodDigests(e)
    ensures var t := ExecuteAll(e, f, State(map[], 0, []), cs);
            Followable(e, t.world) && forall i :: 0 <= i < |t.log| ==> Followable(e, t.log[i])
  {
    var t := ExecuteAll(e, f, State(map[], 0, []), cs);
    EmptyRegistryClosed(e, f, cs);
    ClosedIsFollowable(e, t.world);
    forall i | 0 <= i < |t.log|
      ensures Followable(e, t.log[i])
    {
      ClosedIsFollowable(e, t.log[i]);
    }
  }
}

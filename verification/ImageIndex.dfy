/** `push index`: every entry is described first, then one index that names them all is put. */
module ImageIndex {
  import opened Artifact
  import opened Closure
  import opened FlagLists
  import opened Registry
  import opened Wrappers

  datatype IndexOpts = IndexOpts(platforms: seq<Entry>, outRef: string)

  function DescribeOne(e: Env, f: Schedule, s: State, p: Entry): (State, Result<IndexEntry, Error>) {
    match ParsePlatform(p.platform)
    case None => (s, Err(BadPlatform))
    case Some((os, arch)) =>
      match e.parse(p.value)
      case None => (s, Err(BadReference))
      case Some(ref) =>
        match Fetch(e, f, s, Home(ref), ref.reference)
        case (t, None) => (t, Err(RequestFailed))
        case (t, Some(doc)) => (t, Ok(IndexEntry(DescOf(e, doc), os, arch)))
  }

  function DescribeAll(e: Env, f: Schedule, s: State, ps: seq<Entry>): (State, Result<seq<IndexEntry>, Error>)
    decreases |ps|
  {
    if ps == [] then (s, Ok([]))
    else
      match DescribeOne(e, f, s, ps[0])
      case (t, Err(err)) => (t, Err(err))
      case (t, Ok(entry)) =>
        match DescribeAll(e, f, t, ps[1..])
        case (u, Err(err)) => (u, Err(err))
        case (u, Ok(entries)) => (u, Ok([entry] + entries))
  }

  function RunIndex(e: Env, f: Schedule, s: State, o: IndexOpts): (State, Result<Doc, Error>) {
    if o.platforms == [] then (s, Err(NoPlatforms))
    else
      match e.parse(o.outRef)
      case None => (s, Err(BadReference))
      case Some(out) =>
        match DescribeAll(e, f, s, o.platforms)
        case (t, Err(err)) => (t, Err(err))
        case (t, Ok(entries)) =>
          var (u, ok) := Send(e, f, t, PutDoc(Home(out), out.reference, Index(entries)));
          (u, if ok then Ok(Index(entries)) else Err(RequestFailed))
  }

  lemma {:induction false} DescribeConcat(e: Env, f: Schedule, s: State, a: seq<Entry>, b: seq<Entry>)
    ensures DescribeAll(e, f, s, a + b) ==
            match DescribeAll(e, f, s, a)
            case (t, Err(err)) => (t, Err(err))
            case (t, Ok(entries)) =>
              match DescribeAll(e, f, t, b)
              case (u, Err(err)) => (u, Err(err))
              case (u, Ok(more)) => (u, Ok(entries + more))
    decreases |a|
  {
    if a == [] {
      assert a + b == b;
      var r := DescribeAll(e, f, s, b).1;
      if r.Ok? {
        EmptyFirst(r.value);
      }
    } else {
      assert (a + b)[1..] == a[1..] + b;
      var (t, r) := DescribeOne(e, f, s, a[0]);
      if r.Ok? {
        DescribeConcat(e, f, t, a[1..], b);
        var (u, entries) := DescribeAll(e, f, t, a[1..]);
        if entries.Ok? {
          var more := DescribeAll(e, f, u, b).1;
          if more.Ok? {
            ConsAssoc(r.value, entries.value, more.value);
          }
        }
      }
    }
  }

  lemma DescribeSingle(e: Env, f: Schedule, s: State, p: Entry)
    ensures DescribeAll(e, f, s, [p]) ==
            match DescribeOne(e, f, s, p)
            case (t, Err(err)) => (t, Err(err))
            case (t, Ok(entry)) => (t, Ok([entry]))
  {
    assert [p][1..] == [];
    var (t, r) := DescribeOne(e, f, s, p);
    assert DescribeAll(e, f, t, []) == (t, Ok([]));
    assert r.Ok? ==> [r.value] + [] == [r.value];
  }

  lemma DescribeNext(e: Env, f: Schedule, s: State, ps: seq<Entry>, i: nat)
    requires i < |ps|
    ensures DescribeAll(e, f, s, ps[..i + 1]) ==
            match DescribeAll(e, f, s, ps[..i])
            case (t, Err(err)) => (t, Err(err))
            case (t, Ok(entries)) =>
              match DescribeOne(e, f, t, ps[i])
              case (u, Err(err)) => (u, Err(err))
              case (u, Ok(entry)) => (u, Ok(entries + [entry]))
  {
    assert ps[..i + 1] == ps[..i] + [ps[i]];
    DescribeConcat(e, f, s, ps[..i], [ps[i]]);
    DescribeSingle(e, f, DescribeAll(e, f, s, ps[..i]).0, ps[i]);
  }

  lemma DescribeStops(e: Env, f: Schedule, s: State, ps: seq<Entry>, i: nat)
    requires i <= |ps| && DescribeAll(e, f, s, ps[..i]).1.Err?
    ensures DescribeAll(e, f, s, ps) == DescribeAll(e, f, s, ps[..i])
  {
    assert ps == ps[..i] + ps[i..];
    DescribeConcat(e, f, s, ps[..i], ps[i..]);
  }

  /** The run as the source performs it. */
  method Assemble(server: Server, o: IndexOpts) returns (r: Result<Doc, Error>)
    modifies server
    ensures (server.Now(), r) == RunIndex(server.env, server.faults, old(server.Now()), o)
  {
    if |o.platforms| == 0 {
      return Err(NoPlatforms);
    }
    var out := server.env.parse(o.outRef);
    if out.None? {
      return Err(BadReference);
    }
    ghost var start, e, f := server.Now(), server.env, server.faults;
    var entries: seq<IndexEntry> := [];
    assert o.platforms[..0] == [];
    for i := 0 to |o.platforms|
      invariant DescribeAll(e, f, start, o.platforms[..i]) == (server.Now(), Ok(entries))
    {
      DescribeNext(e, f, start, o.platforms, i);
      var p := o.platforms[i];
      var platform := ParsePlatform(p.platform);
      if platform.None? {
        DescribeStops(e, f, start, o.platforms, i + 1);
        return Err(BadPlatform);
      }
      var ref := server.env.parse(p.value);
      if ref.None? {
        DescribeStops(e, f, start, o.platforms, i + 1);
        return Err(BadReference);
      }
      var doc := server.GetManifest(Home(ref.value), ref.value.reference);
      if doc.None? {
        DescribeStops(e, f, start, o.platforms, i + 1);
        return Err(RequestFailed);
      }
      entries := entries + [IndexEntry(DescOf(server.env, doc.value), platform.value.0, platform.value.1)];
    }
    assert o.platforms[..|o.platforms|] == o.platforms;
    var ok := server.PutManifest(Home(out.value), out.value.reference, Index(entries));
    r := if ok then Ok(Index(entries)) else Err(RequestFailed);
  }

  // ---- what a run describes ----

  /** What a reference given to a run names in a world, when it names anything. */
  function Named(e: Env, w: World, p: Entry): Option<Doc> {
    match e.parse(p.value)
    case None => None
    case Some(ref) => Lookup(e, w, Home(ref), ref.reference)
  }

  /** What an entry of a run describes in a world, when it describes anything. */
  function Described(e: Env, w: World, p: Entry): Option<IndexEntry> {
    match ParsePlatform(p.platform)
    case None => None
    case Some((os, arch)) =>
      match Named(e, w, p)
      case None => None
      case Some(doc) => Some(IndexEntry(DescOf(e, doc), os, arch))
  }

  predicate AllDescribed(e: Env, w: World, ps: seq<Entry>) {
    forall i :: 0 <= i < |ps| ==> Described(e, w, ps[i]).Some?
  }

  /** The index that a run is to put, known before it. */
  function NewIndex(e: Env, w: World, o: IndexOpts): Doc
    requires AllDescribed(e, w, o.platforms)
  {
    Index(seq(|o.platforms|, i requires 0 <= i < |o.platforms| => Described(e, w, o.platforms[i]).value))
  }

  lemma {:induction false} DescribedByWorld(e: Env, f: Schedule, s: State, ps: seq<Entry>)
    requires DescribeAll(e, f, s, ps).1.Ok?
    ensures var entries := DescribeAll(e, f, s, ps).1.value;
            && DescribeAll(e, f, s, ps).0.world == s.world && |entries| == |ps|
            && forall i :: 0 <= i < |ps| ==> Described(e, s.world, ps[i]) == Some(entries[i])
    decreases |ps|
  {
    if ps != [] {
      var (t, first) := DescribeOne(e, f, s, ps[0]);
      DescribedByWorld(e, f, t, ps[1..]);
      var rest := DescribeAll(e, f, t, ps[1..]).1.value;
      forall i | 0 <= i < |ps|
        ensures Described(e, s.world, ps[i]) == Some(([first.value] + rest)[i])
      {
        if i > 0 {
          assert ps[i] == ps[1..][i - 1] && ([first.value] + rest)[i] == rest[i - 1];
        }
      }
    }
  }

  // ---- what a run keeps ----

  /** Describing changes nothing, and everything described is stored. */
  lemma {:induction false} DescribedIsStored(e: Env, f: Schedule, s: State, ps: seq<Entry>)
    requires Closed(e, s.world)
    ensures var (t, r) := DescribeAll(e, f, s, ps);
            && LogClosed(e, s, t) && t.world == s.world
            && (r.Ok? ==> forall i :: 0 <= i < |r.value| ==> DocStoredSomewhere(e, s.world, r.value[i].target))
    decreases |ps|
  {
    if ps != [] {
      var (t, r) := DescribeOne(e, f, s, ps[0]);
      if ParsePlatform(ps[0].platform).Some? && e.parse(ps[0].value).Some? {
        var ref := e.parse(ps[0].value).value;
        FetchKeepsClosed(e, f, s, Home(ref), ref.reference);
        if Lookup(e, s.world, Home(ref), ref.reference).Some? {
          LookupIsStored(e, s.world, Home(ref), ref.reference);
        }
      }
      if r.Ok? {
        DescribedIsStored(e, f, t, ps[1..]);
        LogClosedJoins(e, s, t, DescribeAll(e, f, t, ps[1..]).0);
      }
    }
  }

  /** A run keeps the registry closed at every moment, whichever request fails. */
  lemma RunIndexKeepsClosed(e: Env, f: Schedule, s: State, o: IndexOpts)
    requires GoodDigests(e) && Closed(e, s.world)
    ensures LogClosed(e, s, RunIndex(e, f, s, o).0)
  {
    if o.platforms != [] && e.parse(o.outRef).Some? {
      var out := e.parse(o.outRef).value;
      DescribedIsStored(e, f, s, o.platforms);
      var (t, entries) := DescribeAll(e, f, s, o.platforms);
      if entries.Ok? {
        var put := PutDoc(Home(out), out.reference, Index(entries.value));
        if Accepted(e, put) {
          EffectKeepsClosed(e, t.world, put);
        }
        LogClosedJoins(e, s, t, Send(e, f, t, put).0);
      }
    }
  }

  // ---- across repositories ----

  /** Every index beside the manifests it names: what a client that pulls from one repository needs. */
  ghost predicate IndexesAreLocal(e: Env, w: World) {
    forall home, reference, i ::
      DocKey(home, reference) in w && w[DocKey(home, reference)].Document? && w[DocKey(home, reference)].doc.Index? &&
      0 <= i < |w[DocKey(home, reference)].doc.entries| ==>
        DocStored(e, w, home, w[DocKey(home, reference)].doc.entries[i].target)
  }

  /** The entries of a run are read from the repository that it puts the index in. */
  predicate OneRepository(e: Env, o: IndexOpts) {
    e.parse(o.outRef).Some? && forall i :: 0 <= i < |o.platforms| ==>
      e.parse(o.platforms[i].value).Some? && Home(e.parse(o.platforms[i].value).value) == Home(e.parse(o.outRef).value)
  }

  lemma DescribedInOneRepository(e: Env, f: Schedule, s: State, ps: seq<Entry>, home: RepoId)
    requires Closed(e, s.world) && DescribeAll(e, f, s, ps).1.Ok?
    requires forall i :: 0 <= i < |ps| ==> e.parse(ps[i].value).Some? && Home(e.parse(ps[i].value).value) == home
    ensures var entries := DescribeAll(e, f, s, ps).1.value;
            forall i :: 0 <= i < |entries| ==> DocStored(e, s.world, home, entries[i].target)
  {
    DescribedByWorld(e, f, s, ps);
    var entries := DescribeAll(e, f, s, ps).1.value;
    forall i | 0 <= i < |entries|
      ensures DocStored(e, s.world, home, entries[i].target)
    {
      assert Described(e, s.world, ps[i]) == Some(entries[i]);
      LookupIsStored(e, s.world, home, e.parse(ps[i].value).value.reference);
    }
  }

  /** A run within one repository keeps every index beside the manifests that it names. */
  lemma OneRepositoryStaysLocal(e: Env, f: Schedule, s: State, o: IndexOpts)
    requires GoodDigests(e) && Closed(e, s.world) && IndexesAreLocal(e, s.world) && OneRepository(e, o)
    ensures IndexesAreLocal(e, RunIndex(e, f, s, o).0.world)
  {
    if o.platforms != [] {
      var out := e.parse(o.outRef).value;
      DescribedIsStored(e, f, s, o.platforms);
      var (t, entries) := DescribeAll(e, f, s, o.platforms);
      if entries.Ok? {
        DescribedInOneRepository(e, f, s, o.platforms, Home(out));
        var put := PutDoc(Home(out), out.reference, Index(entries.value));
        if Accepted(e, put) {
          PutStaysLocal(e, s.world, put);
        }
      }
    }
  }

  /** An accepted put keeps indexes local when it puts a manifest, or an index beside what it names. */
  lemma PutStaysLocal(e: Env, w: World, put: Op)
    requires GoodDigests(e) && Closed(e, w) && IndexesAreLocal(e, w) && put.PutDoc? && Accepted(e, put)
    requires put.doc.Index? ==> forall i :: 0 <= i < |put.doc.entries| ==> StoredBeside(e, w, put, put.doc.entries[i].target)
    ensures IndexesAreLocal(e, w + Effect(e, put))
  {
    var v := w + Effect(e, put);
    EffectKeeps(e, w, put);
    forall home, reference, i |
      DocKey(home, reference) in v && v[DocKey(home, reference)].Document? && v[DocKey(home, reference)].doc.Index? &&
      0 <= i < |v[DocKey(home, reference)].doc.entries|
      ensures DocStored(e, v, home, v[DocKey(home, reference)].doc.entries[i].target)
    {
      BesideStays(e, w, put, home, v[DocKey(home, reference)].doc, i);
    }
  }

  /** The target is stored in the repository of the put, or is what is put. */
  predicate StoredBeside(e: Env, w: World, put: Op, target: Descriptor)
    requires put.PutDoc?
  {
    DocStored(e, w, put.home, target) || target == DescOf(e, put.doc)
  }

  lemma BesideStays(e: Env, w: World, put: Op, home: RepoId, doc: Doc, i: nat)
    requires GoodDigests(e) && put.PutDoc? && doc.Index? && i < |doc.entries| && Keeps(w, w + Effect(e, put))
    requires DocStored(e, w, home, doc.entries[i].target) || (home == put.home && StoredBeside(e, w, put, doc.entries[i].target))
    ensures DocStored(e, w + Effect(e, put), home, doc.entries[i].target)
  {
    var target := doc.entries[i].target;
    if DocStored(e, w, home, target) {
      assert IsDigest(target.digest);
    } else {
      assert (w + Effect(e, put))[DocKey(home, target.digest)] == Document(put.doc);
    }
  }

  /** A run that succeeds has put the index that was to be expected, and nothing else. */
  lemma SucceededRun(e: Env, f: Schedule, s: State, o: IndexOpts)
    requires RunIndex(e, f, s, o).1.Ok?
    ensures e.parse(o.outRef).Some? && AllDescribed(e, s.world, o.platforms)
    ensures var out, index := e.parse(o.outRef).value, NewIndex(e, s.world, o);
            var put := PutDoc(Home(out), out.reference, index);
            RunIndex(e, f, s, o).1.value == index && Accepted(e, put) && RunIndex(e, f, s, o).0.world == s.world + Effect(e, put)
  {
    DescribedByWorld(e, f, s, o.platforms);
    var entries := DescribeAll(e, f, s, o.platforms).1.value;
    assert entries == NewIndex(e, s.world, o).entries;
  }

  /** Everything that a run is given names a manifest that the target repository has, or is to be the new index itself. */
  predicate NamedThere(e: Env, w: World, o: IndexOpts)
    requires e.parse(o.outRef).Some? && AllDescribed(e, w, o.platforms)
  {
    forall i :: 0 <= i < |o.platforms| ==> ThereOrNew(e, w, o, Named(e, w, o.platforms[i]).value)
  }

  predicate ThereOrNew(e: Env, w: World, o: IndexOpts, doc: Doc)
    requires e.parse(o.outRef).Some? && AllDescribed(e, w, o.platforms)
  {
    DocStored(e, w, Home(e.parse(o.outRef).value), DescOf(e, doc)) || doc == NewIndex(e, w, o)
  }

  /** A put of one document does not store another. */
  lemma StillMissing(e: Env, w: World, put: Op, doc: Doc)
    requires GoodDigests(e) && put.PutDoc? && doc != put.doc && !DocStored(e, w, put.home, DescOf(e, doc))
    ensures !DocStored(e, w + Effect(e, put), put.home, DescOf(e, doc))
  {
    assert e.encode(doc) != e.encode(put.doc);
    assert DocDigest(e, doc) != DocDigest(e, put.doc);
    if DocDigest(e, doc) == put.reference {
      assert IsDigest(put.reference);
    }
  }

  lemma IndexDangles(e: Env, w: World, put: Op, i: nat, doc: Doc)
    requires GoodDigests(e) && put.PutDoc? && put.doc.Index? && Accepted(e, put)
    requires i < |put.doc.entries| && put.doc.entries[i].target == DescOf(e, doc)
    requires doc != put.doc && !DocStored(e, w, put.home, DescOf(e, doc))
    ensures !IndexesAreLocal(e, w + Effect(e, put))
  {
    StillMissing(e, w, put, doc);
    assert (w + Effect(e, put))[DocKey(put.home, DocDigest(e, put.doc))] == Document(put.doc);
  }

  lemma NewIndexIsLocal(e: Env, w: World, o: IndexOpts, put: Op)
    requires GoodDigests(e) && Closed(e, w) && IndexesAreLocal(e, w)
    requires e.parse(o.outRef).Some? && AllDescribed(e, w, o.platforms) && put.PutDoc? && Accepted(e, put)
    requires put.home == Home(e.parse(o.outRef).value) && put.doc == NewIndex(e, w, o)
    ensures IndexesAreLocal(e, w + Effect(e, put)) <==> NamedThere(e, w, o)
  {
    forall i | 0 <= i < |o.platforms|
      ensures put.doc.entries[i].target == DescOf(e, Named(e, w, o.platforms[i]).value)
    {
      assert Described(e, w, o.platforms[i]).Some?;
    }
    if NamedThere(e, w, o) {
      PutStaysLocal(e, w, put);
    } else {
      var i :| 0 <= i < |o.platforms| && !ThereOrNew(e, w, o, Named(e, w, o.platforms[i]).value);
      IndexDangles(e, w, put, i, Named(e, w, o.platforms[i]).value);
    }
  }

  /**
    A run that succeeds keeps every index beside the manifests that it names exactly when the manifests that it was
    given are in the target repository before it: across repositories, too. The condition speaks of the world before
    the run only.
   */
  lemma StaysLocalExactly(e: Env, f: Schedule, s: State, o: IndexOpts)
    requires GoodDigests(e) && Closed(e, s.world) && IndexesAreLocal(e, s.world) && RunIndex(e, f, s, o).1.Ok?
    ensures e.parse(o.outRef).Some? && AllDescribed(e, s.world, o.platforms)
    ensures IndexesAreLocal(e, RunIndex(e, f, s, o).0.world) <==> NamedThere(e, s.world, o)
  {
    SucceededRun(e, f, s, o);
    var out := e.parse(o.outRef).value;
    NewIndexIsLocal(e, s.world, o, PutDoc(Home(out), out.reference, NewIndex(e, s.world, o)));
  }

  /**
    So it fails when the target repository lacks a manifest that was named elsewhere: the new index then names
    something that a client of that repository cannot pull.
   */
  lemma AcrossRepositoriesDangles(e: Env, f: Schedule, s: State, o: IndexOpts, i: nat)
    requires GoodDigests(e) && Closed(e, s.world) && IndexesAreLocal(e, s.world) && RunIndex(e, f, s, o).1.Ok?
    requires i < |o.platforms| && Named(e, s.world, o.platforms[i]).Some? && Named(e, s.world, o.platforms[i]).value.Manifest?
    requires e.parse(o.outRef).Some?
    requires !DocStored(e, s.world, Home(e.parse(o.outRef).value), DescOf(e, Named(e, s.world, o.platforms[i]).value))
    ensures !IndexesAreLocal(e, RunIndex(e, f, s, o).0.world)
  {
    SucceededRun(e, f, s, o);
    StaysLocalExactly(e, f, s, o);
  }
}

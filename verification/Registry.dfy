/**
  A content-addressed registry as its clients see it, with requests that may fail at any point.
  The parser of references, the digest, the encodings and the local files are parameters (`Env`).
 */
module Registry {
  import opened Bytes
  import opened Wrappers

  // ---- what is stored ----

  datatype Ref = Ref(host: string, repo: string, reference: string)

  datatype RepoId = RepoId(host: string, repo: string)

  function Home(r: Ref): RepoId {
    RepoId(r.host, r.repo)
  }

  datatype LayerKind = Kernel | Initrd | Modules | Modloop | Apkovl | Squashfs | Cmdline

  datatype MediaType = ConfigMedia | LayerMedia(kind: LayerKind) | ManifestMedia | IndexMedia

  datatype Descriptor = Descriptor(media: MediaType, digest: string, size: nat, annotations: map<string, string>)

  datatype IndexEntry = IndexEntry(target: Descriptor, os: string, arch: string)

  datatype Doc = Manifest(config: Descriptor, layers: seq<Descriptor>) | Index(entries: seq<IndexEntry>)

  /** Blobs by digest, manifests by tag or digest, and the manifest put last. */
  datatype Key =
    | BlobKey(home: RepoId, digest: string)
    | DocKey(home: RepoId, reference: string)
    | LastKey(home: RepoId)

  datatype Val = Blob(data: bytes) | Document(doc: Doc)

  type World = map<Key, Val>

  /** What the commands take from outside: `lenient` is the test registry's answer to an unknown tag. */
  datatype Env = Env(
    parse: string -> Option<Ref>,
    files: string -> Option<bytes>,
    utf8: string -> bytes,
    config: (string, string) -> bytes,
    encode: Doc -> bytes,
    digest: bytes -> string,
    lenient: bool)

  function DocDigest(e: Env, doc: Doc): string {
    e.digest(e.encode(doc))
  }

  /** The descriptor of a stored manifest. */
  function DescOf(e: Env, doc: Doc): Descriptor {
    Descriptor(if doc.Manifest? then ManifestMedia else IndexMedia, DocDigest(e, doc), |e.encode(doc)|, map[])
  }

  predicate IsDigest(reference: string) {
    ':' in reference
  }

  /** Different contents have different digests, and digests are not tags. */
  ghost predicate GoodDigests(e: Env) {
    && (forall a, b {:trigger e.digest(a), e.digest(b)} :: e.digest(a) == e.digest(b) ==> a == b)
    && (forall a, b {:trigger e.encode(a), e.encode(b)} :: e.encode(a) == e.encode(b) ==> a == b)
    && (forall a {:trigger e.digest(a)} :: IsDigest(e.digest(a)))
  }

  // ---- requests ----

  datatype Op = PutBlob(home: RepoId, data: bytes) | PutDoc(home: RepoId, reference: string, doc: Doc)

  /** A manifest put under a digest must have that digest. */
  predicate Accepted(e: Env, op: Op) {
    op.PutDoc? && IsDigest(op.reference) ==> op.reference == DocDigest(e, op.doc)
  }

  /** What an accepted request stores. */
  function Effect(e: Env, op: Op): World {
    match op
    case PutBlob(home, data) => map[BlobKey(home, e.digest(data)) := Blob(data)]
    case PutDoc(home, reference, doc) =>
      map[DocKey(home, reference) := Document(doc)] + map[DocKey(home, DocDigest(e, doc)) := Document(doc)] +
      map[LastKey(home) := Document(doc)]
  }

  function Effects(e: Env, ops: seq<Op>): World {
    if ops == [] then map[] else Effect(e, ops[0]) + Effects(e, ops[1..])
  }

  predicate AllAccepted(e: Env, ops: seq<Op>) {
    forall i :: 0 <= i < |ops| ==> Accepted(e, ops[i])
  }

  /** A request is served, refused before it has an effect, or served with its reply lost. */
  datatype Fault = Served | Refused | ReplyLost

  /** The fate of every request, by number. */
  type Schedule = nat -> Fault

  /** What is stored, how many requests were made, and what was stored after each of them. */
  datatype State = State(world: World, calls: nat, log: seq<World>)

  function Next(s: State, w: World): State {
    State(w, s.calls + 1, s.log + [w])
  }

  function Send(e: Env, f: Schedule, s: State, op: Op): (State, bool) {
    if f(s.calls).Refused? || !Accepted(e, op) then (Next(s, s.world), false)
    else (Next(s, s.world + Effect(e, op)), f(s.calls).Served?)
  }

  /** The requests in order, up to the first that fails. */
  function Issue(e: Env, f: Schedule, s: State, ops: seq<Op>): (State, bool)
    decreases |ops|
  {
    if ops == [] then (s, true)
    else
      var (t, ok) := Send(e, f, s, ops[0]);
      if ok then Issue(e, f, t, ops[1..]) else (t, false)
  }

  /** The manifest under a reference. */
  function Lookup(e: Env, w: World, home: RepoId, reference: string): Option<Doc> {
    if DocKey(home, reference) in w && w[DocKey(home, reference)].Document? then Some(w[DocKey(home, reference)].doc)
    else if e.lenient && LastKey(home) in w && w[LastKey(home)].Document? then Some(w[LastKey(home)].doc)
    else None
  }

  function Fetch(e: Env, f: Schedule, s: State, home: RepoId, reference: string): (State, Option<Doc>) {
    (Next(s, s.world), if f(s.calls).Served? then Lookup(e, s.world, home, reference) else None)
  }

  // ---- the registry as an object ----

  /** The registry that the clients talk to: its handlers update its fields. */
  class Server {
    const env: Env
    const faults: Schedule
    var world: World
    var calls: nat
    ghost var log: seq<World>

    ghost function Now(): State
      reads this
    {
      State(world, calls, log)
    }

    constructor (env: Env, faults: Schedule)
      ensures this.env == env && this.faults == faults && Now() == State(map[], 0, [])
    {
      this.env := env;
      this.faults := faults;
      world, calls, log := map[], 0, [];
    }

    /** The upload of a blob. */
    method UploadBlob(home: RepoId, data: bytes) returns (ok: bool)
      modifies this
      ensures (Now(), ok) == Send(env, faults, old(Now()), PutBlob(home, data))
    {
      var fault := faults(calls);
      calls := calls + 1;
      if !fault.Refused? {
        world := world[BlobKey(home, env.digest(data)) := Blob(data)];
        assert world == old(world) + Effect(env, PutBlob(home, data));
      }
      log := log + [world];
      ok := fault.Served?;
    }

    /** The put of a manifest or an index. */
    method PutManifest(home: RepoId, reference: string, doc: Doc) returns (ok: bool)
      modifies this
      ensures (Now(), ok) == Send(env, faults, old(Now()), PutDoc(home, reference, doc))
    {
      var fault := faults(calls);
      calls := calls + 1;
      var digest := env.digest(env.encode(doc));
      if fault.Refused? || (IsDigest(reference) && reference != digest) {
        log := log + [world];
        return false;
      }
      world := world[DocKey(home, reference) := Document(doc)][DocKey(home, digest) := Document(doc)][LastKey(home) := Document(doc)];
      assert world == old(world) + Effect(env, PutDoc(home, reference, doc));
      log := log + [world];
      ok := fault.Served?;
    }

    /** The read of a manifest. */
    method GetManifest(home: RepoId, reference: string) returns (doc: Option<Doc>)
      modifies this
      ensures (Now(), doc) == Fetch(env, faults, old(Now()), home, reference)
    {
      var fault := faults(calls);
      calls := calls + 1;
      log := log + [world];
      doc := if fault.Served? then Lookup(env, world, home, reference) else None;
    }
  }

  // ---- sequences of requests ----

  lemma MapAssoc<K, V>(a: map<K, V>, b: map<K, V>, c: map<K, V>)
    ensures (a + b) + c == a + (b + c)
  {
  }

  lemma MapEmpty<K, V>(a: map<K, V>)
    ensures a + map[] == a && map[] + a == a
  {
  }

  lemma MapAbsorb<K, V>(w: map<K, V>, a: map<K, V>, m: map<K, V>)
    requires forall k :: k in a ==> k in m
    ensures (w + a) + m == w + m
  {
  }

  lemma {:induction false} EffectsConcat(e: Env, a: seq<Op>, b: seq<Op>)
    ensures Effects(e, a + b) == Effects(e, a) + Effects(e, b)
  {
    if a == [] {
      assert a + b == b;
      MapEmpty(Effects(e, b));
    } else {
      EffectsConcat(e, a[1..], b);
      assert (a + b)[1..] == a[1..] + b;
      MapAssoc(Effect(e, a[0]), Effects(e, a[1..]), Effects(e, b));
    }
  }

  lemma {:induction false} IssueConcat(e: Env, f: Schedule, s: State, a: seq<Op>, b: seq<Op>)
    ensures Issue(e, f, s, a + b) ==
            if Issue(e, f, s, a).1 then Issue(e, f, Issue(e, f, s, a).0, b) else Issue(e, f, s, a)
    decreases |a|
  {
    if a == [] {
      assert a + b == b;
    } else {
      var (t, ok) := Send(e, f, s, a[0]);
      IssueConcat(e, f, t, a[1..], b);
      assert (a + b)[1..] == a[1..] + b;
    }
  }

  lemma IssueOne(e: Env, f: Schedule, s: State, op: Op)
    ensures Issue(e, f, s, [op]) == Send(e, f, s, op)
  {
    var (t, ok) := Send(e, f, s, op);
    assert Issue(e, f, t, [op][1..]) == (t, true);
  }

  /** The world after the first `n` requests. */
  function Upto(e: Env, w: World, ops: seq<Op>, n: nat): World
    requires n <= |ops|
  {
    w + Effects(e, ops[..n])
  }

  ghost predicate Partway(e: Env, w: World, ops: seq<Op>, v: World) {
    exists n: nat :: n <= |ops| && AllAccepted(e, ops[..n]) && v == Upto(e, w, ops, n)
  }

  /** The log grew by worlds that are each partway through the requests. */
  ghost predicate LoggedPartway(e: Env, s: State, t: State, ops: seq<Op>) {
    s.log <= t.log && forall i :: |s.log| <= i < |t.log| ==> Partway(e, s.world, ops, t.log[i])
  }

  lemma UptoNext(e: Env, w: World, ops: seq<Op>, n: nat)
    requires n < |ops|
    ensures Upto(e, w, ops, n + 1) == Upto(e, w + Effect(e, ops[0]), ops[1..], n)
  {
    var p := ops[..n + 1];
    assert p[1..] == ops[1..][..n] && p[0] == ops[0];
    MapAssoc(w, Effect(e, ops[0]), Effects(e, p[1..]));
  }

  lemma UptoZero(e: Env, w: World, ops: seq<Op>)
    ensures Upto(e, w, ops, 0) == w
  {
    assert ops[..0] == [];
    MapEmpty(w);
  }

  lemma PartwayNext(e: Env, w: World, ops: seq<Op>, v: World)
    requires ops != [] && Accepted(e, ops[0]) && Partway(e, w + Effect(e, ops[0]), ops[1..], v)
    ensures Partway(e, w, ops, v)
  {
    var n: nat :| n <= |ops[1..]| && AllAccepted(e, ops[1..][..n]) && v == Upto(e, w + Effect(e, ops[0]), ops[1..], n);
    UptoNext(e, w, ops, n);
    assert ops[..n + 1] == [ops[0]] + ops[1..][..n];
    assert AllAccepted(e, ops[..n + 1]);
  }

  lemma PartwayStart(e: Env, w: World, ops: seq<Op>)
    ensures Partway(e, w, ops, w)
    ensures ops != [] && Accepted(e, ops[0]) ==> Partway(e, w, ops, w + Effect(e, ops[0]))
  {
    UptoZero(e, w, ops);
    if ops != [] {
      UptoZero(e, w + Effect(e, ops[0]), ops[1..]);
      UptoNext(e, w, ops, 0);
    }
  }

  lemma PartwayEnd(e: Env, w: World, ops: seq<Op>)
    requires AllAccepted(e, ops)
    ensures Partway(e, w, ops, w + Effects(e, ops))
  {
    assert ops[..|ops|] == ops;
    assert Upto(e, w, ops, |ops|) == w + Effects(e, ops);
  }

  lemma LoggedNext(e: Env, s: State, t: State, u: State, ops: seq<Op>)
    requires ops != [] && Accepted(e, ops[0]) && t.log == s.log + [t.world] && t.world == s.world + Effect(e, ops[0])
    requires LoggedPartway(e, t, u, ops[1..])
    ensures LoggedPartway(e, s, u, ops)
  {
    forall i | |s.log| <= i < |u.log|
      ensures Partway(e, s.world, ops, u.log[i])
    {
      if i == |s.log| {
        assert u.log[i] == t.log[i];
        PartwayStart(e, s.world, ops);
      } else {
        PartwayNext(e, s.world, ops, u.log[i]);
      }
    }
  }

  lemma SendPartway(e: Env, f: Schedule, s: State, ops: seq<Op>)
    requires ops != []
    ensures var (t, ok) := Send(e, f, s, ops[0]); Partway(e, s.world, ops, t.world) && LoggedPartway(e, s, t, ops)
  {
    PartwayStart(e, s.world, ops);
  }

  /** Whatever fails, the world is partway through the requests at every moment. */
  lemma {:induction false} IssuePartway(e: Env, f: Schedule, s: State, ops: seq<Op>)
    ensures var t := Issue(e, f, s, ops).0; Partway(e, s.world, ops, t.world) && LoggedPartway(e, s, t, ops)
    decreases |ops|
  {
    if ops == [] {
      PartwayStart(e, s.world, ops);
    } else {
      var (t, ok) := Send(e, f, s, ops[0]);
      SendPartway(e, f, s, ops);
      if ok {
        var u := Issue(e, f, t, ops[1..]).0;
        IssuePartway(e, f, t, ops[1..]);
        PartwayNext(e, s.world, ops, u.world);
        LoggedNext(e, s, t, u, ops);
      }
    }
  }

  /** On success all the requests have their effect. */
  lemma {:induction false} IssueAll(e: Env, f: Schedule, s: State, ops: seq<Op>)
    requires Issue(e, f, s, ops).1
    ensures Issue(e, f, s, ops).0.world == s.world + Effects(e, ops) && AllAccepted(e, ops)
    decreases |ops|
  {
    if ops == [] {
      MapEmpty(s.world);
    } else {
      var t := Send(e, f, s, ops[0]).0;
      IssueAll(e, f, t, ops[1..]);
      MapAssoc(s.world, Effect(e, ops[0]), Effects(e, ops[1..]));
    }
  }
}

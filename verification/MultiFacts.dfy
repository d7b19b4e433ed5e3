/**
  What `push multi` promises: one index, published last and all at once, whose entries are the artifacts of the
  platforms exactly when no two platforms share an architecture; and that a failed run can be repeated.
 */
module MultiFacts {
  import opened Artifact
  import opened ArtifactFacts
  import opened Closure
  import opened FlagLists
  import opened ImageIndex
  import opened Multi
  import opened Registry
  import opened Text
  import opened Wrappers

  // ---- what a run is given ----

  predicate PlainTag(t: string) {
    t != "" && '/' !in t && ':' !in t && '@' !in t
  }

  predicate PlainRef(r: Ref) {
    r.host != "" && '/' !in r.host && r.repo != "" && ':' !in r.repo && '@' !in r.repo && PlainTag(r.reference)
  }

  /** The parser of references inverts their format on plain parts. */
  ghost predicate ParsesBack(e: Env) {
    forall h, r, t {:trigger Format(h, r, t)} :: PlainRef(Ref(h, r, t)) ==> e.parse(Format(h, r, t)) == Some(Ref(h, r, t))
  }

  /** Different platforms have different configs. */
  ghost predicate GoodConfigs(e: Env) {
    forall a, o, a', o' {:trigger e.config(a, o), e.config(a', o')} :: e.config(a, o) == e.config(a', o') ==> a == a' && o == o'
  }

  function ArchOf(p: string): string {
    match ParsePlatform(p)
    case None => ""
    case Some((_, arch)) => arch
  }

  function OsOf(p: string): string {
    match ParsePlatform(p)
    case None => ""
    case Some((os, _)) => os
  }

  predicate PlainPlatform(p: string) {
    ParsePlatform(p).Some? && PlainTag(ArchOf(p)) && '=' !in p
  }

  /** The bare reference is a tag of plain parts. */
  ghost predicate ReadyFor(e: Env, o: MultiOpts) {
    GoodDigests(e) && ParsesBack(e) && e.parse(o.ref).Some? && PlainRef(e.parse(o.ref).value)
  }

  ghost predicate AllPlain(ps: seq<string>) {
    forall i :: 0 <= i < |ps| ==> PlainPlatform(ps[i])
  }

  /** A run on a plain tag, with lists that the flags built and architectures that can end a tag. */
  ghost predicate Ready(e: Env, o: MultiOpts) {
    && ReadyFor(e, o)
    && AllWellFormed(Paths, o.kernels) && AllWellFormed(Paths, o.initrds) && AllWellFormed(Paths, o.modules)
    && forall i :: 0 <= i < |PlatformsOfRun(o)| ==> ParsePlatform(PlatformsOfRun(o)[i]).Some? && PlainTag(ArchOf(PlatformsOfRun(o)[i]))
  }

  lemma WellFormedPlatform(es: seq<Entry>, p: string)
    requires AllWellFormed(Paths, es) && Mentions(es, p)
    ensures '=' !in p
  {
    var i :| 0 <= i < |es| && es[i].platform == p;
    assert WellFormed(Paths, es[i]);
  }

  lemma ReadyIsPlain(e: Env, o: MultiOpts)
    requires Ready(e, o)
    ensures AllPlain(PlatformsOfRun(o))
  {
    PlatformsExactly(o.kernels, o.initrds, o.modules);
    forall i | 0 <= i < |PlatformsOfRun(o)|
      ensures PlainPlatform(PlatformsOfRun(o)[i])
    {
      var p := PlatformsOfRun(o)[i];
      assert p in PlatformsOfRun(o);
      if Mentions(o.kernels, p) {
        WellFormedPlatform(o.kernels, p);
      } else if Mentions(o.initrds, p) {
        WellFormedPlatform(o.initrds, p);
      } else {
        WellFormedPlatform(o.modules, p);
      }
    }
  }

  // ---- the requests of a run ----

  function Bare(e: Env, o: MultiOpts): Ref
    requires e.parse(o.ref).Some?
  {
    e.parse(o.ref).value
  }

  function ArchTag(e: Env, o: MultiOpts, arch: string): string
    requires e.parse(o.ref).Some?
  {
    PerArchTag(Bare(e, o).reference, arch)
  }

  function OptsOf(e: Env, o: MultiOpts, p: string): Opts
    requires e.parse(o.ref).Some?
  {
    ArtifactFor(o, p, Format(Bare(e, o).host, Bare(e, o).repo, ArchTag(e, o, ArchOf(p))))
  }

  lemma DerivedParses(e: Env, o: MultiOpts, p: string)
    requires ReadyFor(e, o) && PlainPlatform(p)
    ensures DerivePerArchRef(e, o.ref, p) == Ok(OptsOf(e, o, p).ref)
    ensures e.parse(OptsOf(e, o, p).ref) == Some(Ref(Bare(e, o).host, Bare(e, o).repo, ArchTag(e, o, ArchOf(p))))
    ensures PlainTag(ArchTag(e, o, ArchOf(p)))
    ensures Parse(Refs, p + "=" + OptsOf(e, o, p).ref) == Some(Entry(p, OptsOf(e, o, p).ref))
  {
    var b := Bare(e, o);
    assert PlainRef(Ref(b.host, b.repo, ArchTag(e, o, ArchOf(p))));
    CutJoined(p, OptsOf(e, o, p).ref, '=');
  }

  /** The artifact uploads and puts, platform by platform, up to the first that cannot be read. */
  function AllOps(e: Env, o: MultiOpts, ps: seq<string>): seq<Op>
    requires e.parse(o.ref).Some?
  {
    if ps == [] then []
    else
      var (ops, outcome) := Plan(e, OptsOf(e, o, ps[0]));
      ops + if outcome.Ok? then AllOps(e, o, ps[1..]) else []
  }

  predicate AllPlanned(e: Env, o: MultiOpts, ps: seq<string>)
    requires e.parse(o.ref).Some?
  {
    forall i :: 0 <= i < |ps| ==> Plan(e, OptsOf(e, o, ps[i])).1.Ok?
  }

  lemma AllOpsNext(e: Env, o: MultiOpts, ps: seq<string>)
    requires e.parse(o.ref).Some? && AllPlanned(e, o, ps) && ps != []
    ensures AllPlanned(e, o, ps[1..]) && AllOps(e, o, ps) == Plan(e, OptsOf(e, o, ps[0])).0 + AllOps(e, o, ps[1..])
  {
    assert forall i :: 0 < i < |ps| ==> ps[i] == ps[1..][i - 1];
  }

  function EntriesOf(e: Env, o: MultiOpts, ps: seq<string>): seq<Entry>
    requires e.parse(o.ref).Some?
  {
    if ps == [] then [] else [Entry(ps[0], OptsOf(e, o, ps[0]).ref)] + EntriesOf(e, o, ps[1..])
  }

  lemma PushOneIsIssue(e: Env, f: Schedule, s: State, o: MultiOpts, p: string)
    requires ReadyFor(e, o) && PlainPlatform(p)
    ensures var (t, r) := PushOne(e, f, s, o, p); var (ops, outcome) := Plan(e, OptsOf(e, o, p));
            && t == Issue(e, f, s, ops).0
            && (r.Ok? <==> Issue(e, f, s, ops).1 && outcome.Ok?)
            && (r.Ok? ==> r.value == Entry(p, OptsOf(e, o, p).ref))
  {
    DerivedParses(e, o, p);
  }

  /** Pushing the platforms is issuing these requests. */
  lemma {:induction false} PushAllIsIssue(e: Env, f: Schedule, s: State, o: MultiOpts, ps: seq<string>)
    requires ReadyFor(e, o) && AllPlain(ps)
    ensures var (t, r) := PushAll(e, f, s, o, ps); var (u, ok) := Issue(e, f, s, AllOps(e, o, ps));
            && t == u
            && (r.Ok? <==> ok && AllPlanned(e, o, ps))
            && (r.Ok? ==> r.value == EntriesOf(e, o, ps))
    decreases |ps|
  {
    if ps != [] {
      var (ops, outcome) := Plan(e, OptsOf(e, o, ps[0]));
      PushOneIsIssue(e, f, s, o, ps[0]);
      var (t, r) := PushOne(e, f, s, o, ps[0]);
      var more := if outcome.Ok? then AllOps(e, o, ps[1..]) else [];
      IssueConcat(e, f, s, ops, more);
      if r.Ok? {
        PushAllIsIssue(e, f, t, o, ps[1..]);
        assert AllPlanned(e, o, ps) <==> AllPlanned(e, o, ps[1..]) by {
          assert forall i :: 0 < i < |ps| ==> ps[i] == ps[1..][i - 1];
        }
      } else if Issue(e, f, s, ops).1 {
        assert !AllPlanned(e, o, ps);
      }
    }
  }

  // ---- which manifest ends up under a tag ----

  function DocFor(e: Env, o: MultiOpts, p: string): Doc
    requires e.parse(o.ref).Some? && Plan(e, OptsOf(e, o, p)).1.Ok?
  {
    Plan(e, OptsOf(e, o, p)).1.value
  }

  /** The last platform of an architecture. */
  function LastWithArch(ps: seq<string>, arch: string): (r: Option<string>)
    ensures r.Some? ==> r.value in ps && ArchOf(r.value) == arch
    ensures r.None? <==> forall i :: 0 <= i < |ps| ==> ArchOf(ps[i]) != arch
  {
    if ps == [] then None
    else
      var rest := LastWithArch(ps[1..], arch);
      assert forall i :: 0 < i < |ps| ==> ps[i] == ps[1..][i - 1];
      if rest.Some? then rest else if ArchOf(ps[0]) == arch then Some(ps[0]) else None
  }

  lemma {:induction false} UploadsWriteNoDocs(e: Env, ops: seq<Op>)
    requires forall op :: op in ops ==> op.PutBlob?
    ensures forall home, k :: DocKey(home, k) !in Effects(e, ops)
  {
    if ops != [] {
      assert ops[0] in ops;
      UploadsWriteNoDocs(e, ops[1..]);
    }
  }

  /** The requests of one plan write manifests under its own tag and under digests, and nowhere else. */
  lemma PlanDocs(e: Env, o: MultiOpts, p: string, home: RepoId, k: string)
    requires ReadyFor(e, o) && PlainPlatform(p)
    ensures var (ops, outcome) := Plan(e, OptsOf(e, o, p));
            && (DocKey(home, k) in Effects(e, ops) && !IsDigest(k) ==>
                  outcome.Ok? && home == Home(Bare(e, o)) && k == ArchTag(e, o, ArchOf(p)))
            && (outcome.Ok? ==> var key := DocKey(Home(Bare(e, o)), ArchTag(e, o, ArchOf(p)));
                  key in Effects(e, ops) && Effects(e, ops)[key] == Document(outcome.value))
  {
    DerivedParses(e, o, p);
    var q := OptsOf(e, o, p);
    var (ops, outcome) := Plan(e, q);
    var at := Home(Bare(e, o));
    UploadsOnly(e, at, Inputs(q));
    if ops != [] {
      var uploads := [PutBlob(at, e.config(ArchOf(p), OsOf(p)))] + LayerOps(e, at, Inputs(q)).0;
      UploadsWriteNoDocs(e, uploads);
      if outcome.Ok? {
        assert ops == uploads + [PutDoc(at, ArchTag(e, o, ArchOf(p)), outcome.value)];
        DocsOfPut(e, uploads, at, ArchTag(e, o, ArchOf(p)), outcome.value, home, k);
      }
    }
  }

  lemma DocsOfPut(e: Env, uploads: seq<Op>, at: RepoId, tag: string, doc: Doc, home: RepoId, k: string)
    requires GoodDigests(e) && (forall h, d :: DocKey(h, d) !in Effects(e, uploads))
    ensures var m := Effects(e, uploads + [PutDoc(at, tag, doc)]);
            && (DocKey(home, k) in m && !IsDigest(k) ==> home == at && k == tag)
            && DocKey(at, tag) in m && (!IsDigest(tag) ==> m[DocKey(at, tag)] == Document(doc))
  {
    var last := PutDoc(at, tag, doc);
    LastEffectCounts(e, uploads, last, DocKey(at, tag));
    if DocKey(home, k) !in Effect(e, last) {
      EarlierEffectStays(e, uploads, last, DocKey(home, k));
    }
  }

  lemma {:induction false} AllDocs(e: Env, o: MultiOpts, ps: seq<string>, home: RepoId, k: string)
    requires ReadyFor(e, o) && AllPlain(ps)
    requires DocKey(home, k) in Effects(e, AllOps(e, o, ps)) && !IsDigest(k)
    ensures home == Home(Bare(e, o)) && exists p :: p in ps && k == ArchTag(e, o, ArchOf(p))
  {
    if ps != [] {
      var (ops, outcome) := Plan(e, OptsOf(e, o, ps[0]));
      var more := if outcome.Ok? then AllOps(e, o, ps[1..]) else [];
      EffectsConcat(e, ops, more);
      PlanDocs(e, o, ps[0], home, k);
      if DocKey(home, k) in Effects(e, ops) {
        assert ps[0] in ps;
      } else {
        AllDocs(e, o, ps[1..], home, k);
        var p :| p in ps[1..] && k == ArchTag(e, o, ArchOf(p));
        assert p in ps;
      }
    }
  }

  /** The bare tag is none of the derived ones: the artifacts do not touch it. */
  lemma BareTagUntouched(e: Env, o: MultiOpts, ps: seq<string>, home: RepoId)
    requires ReadyFor(e, o) && AllPlain(ps)
    ensures DocKey(home, Bare(e, o).reference) !in Effects(e, AllOps(e, o, ps))
  {
    var tag := Bare(e, o).reference;
    if DocKey(home, tag) in Effects(e, AllOps(e, o, ps)) {
      AllDocs(e, o, ps, home, tag);
    }
  }

  lemma TagDeterminesArch(e: Env, o: MultiOpts, a: string, b: string)
    requires e.parse(o.ref).Some? && ArchTag(e, o, a) == ArchTag(e, o, b)
    ensures a == b
  {
    var tag := Bare(e, o).reference;
    assert ArchTag(e, o, a)[|tag| + 1..] == a && ArchTag(e, o, b)[|tag| + 1..] == b;
  }

  /** Under the tag of an architecture is the manifest of the last platform that has it. */
  lemma {:induction false} TagHoldsLast(e: Env, o: MultiOpts, ps: seq<string>, arch: string)
    requires ReadyFor(e, o) && AllPlain(ps) && AllPlanned(e, o, ps) && LastWithArch(ps, arch).Some?
    ensures Plan(e, OptsOf(e, o, LastWithArch(ps, arch).value)).1.Ok?
    ensures var key := DocKey(Home(Bare(e, o)), ArchTag(e, o, arch)); var m := Effects(e, AllOps(e, o, ps));
            key in m && m[key] == Document(DocFor(e, o, LastWithArch(ps, arch).value))
  {
    FirstAndRest(e, o, ps);
    if LastWithArch(ps[1..], arch).Some? {
      TagHoldsLast(e, o, ps[1..], arch);
    } else {
      LastIsFirst(e, o, ps, arch, Plan(e, OptsOf(e, o, ps[0])).0, AllOps(e, o, ps[1..]));
    }
  }

  lemma FirstAndRest(e: Env, o: MultiOpts, ps: seq<string>)
    requires e.parse(o.ref).Some? && AllPlain(ps) && AllPlanned(e, o, ps) && ps != []
    ensures AllPlain(ps[1..]) && AllPlanned(e, o, ps[1..])
    ensures Effects(e, AllOps(e, o, ps)) == Effects(e, Plan(e, OptsOf(e, o, ps[0])).0) + Effects(e, AllOps(e, o, ps[1..]))
  {
    AllOpsNext(e, o, ps);
    EffectsConcat(e, Plan(e, OptsOf(e, o, ps[0])).0, AllOps(e, o, ps[1..]));
    assert forall i :: 0 < i < |ps| ==> ps[i] == ps[1..][i - 1];
  }

  /** The first platform is the last one with its architecture: the rest leaves its tag alone. */
  lemma LastIsFirst(e: Env, o: MultiOpts, ps: seq<string>, arch: string, ops: seq<Op>, rest: seq<Op>)
    requires ReadyFor(e, o) && AllPlain(ps) && AllPlanned(e, o, ps) && ps != [] && ArchOf(ps[0]) == arch
    requires AllPlain(ps[1..]) && LastWithArch(ps[1..], arch).None?
    requires ops == Plan(e, OptsOf(e, o, ps[0])).0 && rest == AllOps(e, o, ps[1..])
    ensures var key := DocKey(Home(Bare(e, o)), ArchTag(e, o, arch)); var m := Effects(e, ops) + Effects(e, rest);
            key in m && m[key] == Document(DocFor(e, o, ps[0]))
  {
    PlanDocs(e, o, ps[0], Home(Bare(e, o)), ArchTag(e, o, arch));
    TagNotWritten(e, o, ps[1..], ps[0]);
  }

  /** Platforms of other architectures do not write the tag of a platform. */
  lemma TagNotWritten(e: Env, o: MultiOpts, ps: seq<string>, p: string)
    requires ReadyFor(e, o) && AllPlain(ps) && PlainPlatform(p) && LastWithArch(ps, ArchOf(p)).None?
    ensures DocKey(Home(Bare(e, o)), ArchTag(e, o, ArchOf(p))) !in Effects(e, AllOps(e, o, ps))
  {
    var key := DocKey(Home(Bare(e, o)), ArchTag(e, o, ArchOf(p)));
    if key in Effects(e, AllOps(e, o, ps)) {
      PlainArchTag(e, o, p);
      AllDocs(e, o, ps, key.home, key.reference);
      var q :| q in ps && key.reference == ArchTag(e, o, ArchOf(q));
      TagDeterminesArch(e, o, ArchOf(p), ArchOf(q));
    }
  }

  lemma PlainArchTag(e: Env, o: MultiOpts, p: string)
    requires ReadyFor(e, o) && PlainPlatform(p)
    ensures !IsDigest(ArchTag(e, o, ArchOf(p)))
  {
    DerivedParses(e, o, p);
  }

  // ---- the index of a run ----

  function IndexEntryOf(e: Env, o: MultiOpts, all: seq<string>, p: string): IndexEntry
    requires e.parse(o.ref).Some? && AllPlanned(e, o, all) && p in all
  {
    var last := LastWithArch(all, ArchOf(p)).value;
    assert exists i :: 0 <= i < |all| && all[i] == last;
    IndexEntry(DescOf(e, DocFor(e, o, last)), OsOf(p), ArchOf(p))
  }

  function IndexEntries(e: Env, o: MultiOpts, all: seq<string>, ps: seq<string>): (r: seq<IndexEntry>)
    requires e.parse(o.ref).Some? && AllPlanned(e, o, all) && forall p :: p in ps ==> p in all
    ensures |r| == |ps|
  {
    seq(|ps|, i requires 0 <= i < |ps| => IndexEntryOf(e, o, all, ps[i]))
  }

  lemma IndexEntriesNext(e: Env, o: MultiOpts, all: seq<string>, ps: seq<string>)
    requires e.parse(o.ref).Some? && AllPlanned(e, o, all) && ps != [] && forall p :: p in ps ==> p in all
    ensures IndexEntries(e, o, all, ps) == [IndexEntryOf(e, o, all, ps[0])] + IndexEntries(e, o, all, ps[1..])
  {
  }

  lemma DescribedIs(e: Env, f: Schedule, s: State, o: MultiOpts, all: seq<string>, p: string, w: World)
    requires ReadyFor(e, o) && AllPlain(all) && AllPlanned(e, o, all) && p in all
    requires s.world == w + Effects(e, AllOps(e, o, all))
    ensures var (t, r) := DescribeOne(e, f, s, Entry(p, OptsOf(e, o, p).ref));
            t == Next(s, s.world) && (r.Ok? ==> r.value == IndexEntryOf(e, o, all, p))
  {
    DerivedParses(e, o, p);
    TagHoldsLast(e, o, all, ArchOf(p));
  }

  /** Describing left the world alone. */
  predicate OnlyRead(s: State, t: State) {
    t.world == s.world && s.log <= t.log && forall i :: |s.log| <= i < |t.log| ==> t.log[i] == s.world
  }

  /** In a world that the artifacts ended in, the tags describe the last platform of each architecture. */
  lemma {:induction false} DescribedAre(e: Env, f: Schedule, s: State, o: MultiOpts, all: seq<string>, ps: seq<string>, w: World)
    requires ReadyFor(e, o) && AllPlain(all) && AllPlanned(e, o, all) && forall p :: p in ps ==> p in all
    requires s.world == w + Effects(e, AllOps(e, o, all))
    ensures var (t, r) := DescribeAll(e, f, s, EntriesOf(e, o, ps));
            OnlyRead(s, t) && (r.Ok? ==> r.value == IndexEntries(e, o, all, ps))
    decreases |ps|
  {
    if ps != [] {
      assert ps[0] in all;
      DescribedIs(e, f, s, o, all, ps[0], w);
      assert EntriesOf(e, o, ps)[1..] == EntriesOf(e, o, ps[1..]);
      var (t, r) := DescribeOne(e, f, s, EntriesOf(e, o, ps)[0]);
      if r.Ok? {
        DescribedAre(e, f, t, o, all, ps[1..], w);
        IndexEntriesNext(e, o, all, ps);
      }
    }
  }

  /** All the requests of a run that change the registry: the artifacts, then the index. */
  function CompleteOps(e: Env, o: MultiOpts): seq<Op>
    requires e.parse(o.ref).Some?
  {
    var ps := PlatformsOfRun(o);
    AllOps(e, o, ps) + if AllPlanned(e, o, ps) then [IndexPut(e, o)] else []
  }

  function IndexPut(e: Env, o: MultiOpts): Op
    requires e.parse(o.ref).Some? && AllPlanned(e, o, PlatformsOfRun(o))
  {
    var ps := PlatformsOfRun(o);
    PutDoc(Home(Bare(e, o)), Bare(e, o).reference, Index(IndexEntries(e, o, ps, ps)))
  }

  lemma PartwayMore(e: Env, w: World, a: seq<Op>, b: seq<Op>, v: World)
    requires Partway(e, w, a, v)
    ensures Partway(e, w, a + b, v)
  {
    var n: nat :| n <= |a| && AllAccepted(e, a[..n]) && v == Upto(e, w, a, n);
    assert (a + b)[..n] == a[..n];
    assert Upto(e, w, a + b, n) == v;
  }

  lemma LoggedMore(e: Env, s: State, t: State, a: seq<Op>, b: seq<Op>)
    requires LoggedPartway(e, s, t, a)
    ensures LoggedPartway(e, s, t, a + b)
  {
    forall i | |s.log| <= i < |t.log|
      ensures Partway(e, s.world, a + b, t.log[i])
    {
      PartwayMore(e, s.world, a, b, t.log[i]);
    }
  }

  lemma AllTheWay(e: Env, w: World, ops: seq<Op>, last: Op)
    requires AllAccepted(e, ops)
    ensures Partway(e, w, ops + [last], w + Effects(e, ops))
    ensures Accepted(e, last) ==> Partway(e, w, ops + [last], (w + Effects(e, ops)) + Effect(e, last))
    ensures (w + Effects(e, ops)) + Effect(e, last) == w + Effects(e, ops + [last])
  {
    PartwayEnd(e, w, ops);
    PartwayMore(e, w, ops, [last], w + Effects(e, ops));
    EffectsConcat(e, ops, [last]);
    assert [last][1..] == [];
    MapEmpty(Effect(e, last));
    MapAssoc(w, Effects(e, ops), Effect(e, last));
    if Accepted(e, last) {
      PartwayEnd(e, w, ops + [last]);
    }
  }

  /** The worlds of an index run whose descriptions are known: nothing changes until the one put. */
  lemma DescribeThenPut(e: Env, f: Schedule, s: State, x: IndexOpts, out: Ref, doc: Doc)
    requires x.platforms != [] && e.parse(x.outRef) == Some(out)
    requires var (t, r) := DescribeAll(e, f, s, x.platforms);
             OnlyRead(s, t) && (r.Ok? ==> Index(r.value) == doc)
    ensures var (t, r) := RunIndex(e, f, s, x); var put := PutDoc(Home(out), out.reference, doc);
            && s.log <= t.log
            && (t.world == s.world || (Accepted(e, put) && t.world == s.world + Effect(e, put)))
            && (forall i :: |s.log| <= i < |t.log| ==>
                  t.log[i] == s.world || (Accepted(e, put) && t.log[i] == s.world + Effect(e, put)))
            && (r.Ok? ==> t.world == s.world + Effect(e, put) && r.value == doc)
  {
    var (t, entries) := DescribeAll(e, f, s, x.platforms);
    if entries.Ok? {
      var u := Send(e, f, t, PutDoc(Home(out), out.reference, doc)).0;
      assert u.log == t.log + [u.world];
    }
  }

  /** The index run after the artifacts. */
  lemma IndexAfterPushes(e: Env, f: Schedule, s: State, o: MultiOpts, w: World)
    requires Ready(e, o) && PlatformsOfRun(o) != [] && AllPlanned(e, o, PlatformsOfRun(o))
    requires AllAccepted(e, AllOps(e, o, PlatformsOfRun(o))) && s.world == w + Effects(e, AllOps(e, o, PlatformsOfRun(o)))
    ensures var (t, r) := RunIndex(e, f, s, IndexOpts(EntriesOf(e, o, PlatformsOfRun(o)), o.ref));
            && Partway(e, w, CompleteOps(e, o), t.world)
            && s.log <= t.log && (forall i :: |s.log| <= i < |t.log| ==> Partway(e, w, CompleteOps(e, o), t.log[i]))
            && (r.Ok? ==> t.world == w + Effects(e, CompleteOps(e, o)) && r.value == IndexPut(e, o).doc)
  {
    var ps := PlatformsOfRun(o);
    var put, ops := IndexPut(e, o), AllOps(e, o, ps);
    ReadyIsPlain(e, o);
    DescribedAre(e, f, s, o, ps, ps, w);
    assert CompleteOps(e, o) == ops + [put];
    AllTheWay(e, w, ops, put);
    DescribeThenPut(e, f, s, IndexOpts(EntriesOf(e, o, ps), o.ref), Bare(e, o), put.doc);
  }

  lemma LogJoins(e: Env, s: State, t: State, u: State, ops: seq<Op>)
    requires LoggedPartway(e, s, t, ops)
    requires t.log <= u.log && forall i :: |t.log| <= i < |u.log| ==> Partway(e, s.world, ops, u.log[i])
    ensures LoggedPartway(e, s, u, ops)
  {
    forall i | |s.log| <= i < |u.log|
      ensures Partway(e, s.world, ops, u.log[i])
    {
      if i < |t.log| {
        assert u.log[i] == t.log[i];
      }
    }
  }

  /**
    Whatever fails, the registry is at every moment of a run partway through one list of requests that does not
    depend on it; a run that succeeds goes through all of them.
   */
  lemma RunIsPartway(e: Env, f: Schedule, s: State, o: MultiOpts)
    requires Ready(e, o)
    ensures var (t, r) := RunMulti(e, f, s, o);
            && Partway(e, s.world, CompleteOps(e, o), t.world)
            && LoggedPartway(e, s, t, CompleteOps(e, o))
            && (r.Ok? ==> && t.world == s.world + Effects(e, CompleteOps(e, o))
                          && PlatformsOfRun(o) != [] && AllPlanned(e, o, PlatformsOfRun(o)) && r.value == IndexPut(e, o).doc)
  {
    var ps := PlatformsOfRun(o);
    PartwayStart(e, s.world, CompleteOps(e, o));
    if ps != [] {
      var ops := AllOps(e, o, ps);
      var more := CompleteOps(e, o)[|ops|..];
      assert CompleteOps(e, o) == ops + more;
      ReadyIsPlain(e, o);
      PushAllIsIssue(e, f, s, o, ps);
      IssuePartway(e, f, s, ops);
      var (t, r) := PushAll(e, f, s, o, ps);
      PartwayMore(e, s.world, ops, more, t.world);
      LoggedMore(e, s, t, ops, more);
      if r.Ok? {
        IssueAll(e, f, s, ops);
        IndexAfterPushes(e, f, t, o, s.world);
        LogJoins(e, s, t, RunMulti(e, f, s, o).0, CompleteOps(e, o));
      }
    }
  }

  // ---- the index is right exactly when no two platforms share an architecture ----

  /** The index under the bare tag of a world. */
  function PublishedEntries(e: Env, w: World, o: MultiOpts): Option<seq<IndexEntry>>
    requires e.parse(o.ref).Some?
  {
    match Lookup(e, w, Home(Bare(e, o)), Bare(e, o).reference)
    case None => None
    case Some(doc) => if doc.Index? then Some(doc.entries) else None
  }

  lemma LastOpsStored(e: Env, w: World, o: MultiOpts)
    requires ReadyFor(e, o) && AllPlanned(e, o, PlatformsOfRun(o))
    ensures PublishedEntries(e, w + Effects(e, CompleteOps(e, o)), o) == Some(IndexPut(e, o).doc.entries)
  {
    var put, ops := IndexPut(e, o), AllOps(e, o, PlatformsOfRun(o));
    LastEffectCounts(e, ops, put, DocKey(put.home, put.reference));
  }

  predicate DistinctArches(ps: seq<string>) {
    forall i, j :: 0 <= i < j < |ps| ==> ArchOf(ps[i]) != ArchOf(ps[j])
  }

  /** The entry is for the platform, and its target is the artifact of that platform. */
  predicate EntryIsRight(e: Env, o: MultiOpts, p: string, entry: IndexEntry)
    requires e.parse(o.ref).Some? && Plan(e, OptsOf(e, o, p)).1.Ok?
  {
    entry == IndexEntry(DescOf(e, DocFor(e, o, p)), OsOf(p), ArchOf(p))
  }

  lemma {:induction false} LastOfDistinct(ps: seq<string>, i: nat)
    requires i < |ps| && DistinctArches(ps)
    ensures LastWithArch(ps, ArchOf(ps[i])) == Some(ps[i])
  {
    var r := LastWithArch(ps, ArchOf(ps[i])).value;
    var j :| 0 <= j < |ps| && ps[j] == r;
    assert j == i;
  }

  /** Of two platforms with one architecture, the earlier is not the last. */
  lemma {:induction false} EarlierIsNotLast(ps: seq<string>, i: nat, j: nat)
    requires i < j < |ps| && ArchOf(ps[i]) == ArchOf(ps[j]) && Sorted(ps)
    ensures LastWithArch(ps, ArchOf(ps[i])) != Some(ps[i])
  {
    var rest := ps[1..];
    assert forall k :: 0 < k < |ps| ==> ps[k] == rest[k - 1];
    if i == 0 {
      assert LastWithArch(rest, ArchOf(ps[0])).Some?;
      var q := LastWithArch(rest, ArchOf(ps[0])).value;
      var k :| 0 <= k < |rest| && rest[k] == q;
      LessIrreflexive(ps[0]);
      assert Less(ps[0], ps[k + 1]);
    } else {
      EarlierIsNotLast(rest, i - 1, j - 1);
    }
  }

  /** Platforms that share an architecture have different artifacts. */
  lemma DifferentArtifacts(e: Env, o: MultiOpts, p: string, q: string)
    requires ReadyFor(e, o) && GoodConfigs(e) && PlainPlatform(p) && PlainPlatform(q)
    requires p != q && ArchOf(p) == ArchOf(q)
    requires Plan(e, OptsOf(e, o, p)).1.Ok? && Plan(e, OptsOf(e, o, q)).1.Ok?
    ensures DescOf(e, DocFor(e, o, p)) != DescOf(e, DocFor(e, o, q))
  {
    ParsePlatformExactly(p, OsOf(p), ArchOf(p));
    ParsePlatformExactly(q, OsOf(q), ArchOf(q));
    PlanShape(e, OptsOf(e, o, p));
    PlanShape(e, OptsOf(e, o, q));
    assert OsOf(p) != OsOf(q);
    assert e.config(ArchOf(p), OsOf(p)) != e.config(ArchOf(q), OsOf(q));
    assert DocFor(e, o, p).config.digest == e.digest(e.config(ArchOf(p), OsOf(p)));
    assert DocFor(e, o, q).config.digest == e.digest(e.config(ArchOf(q), OsOf(q)));
    assert DocFor(e, o, p) != DocFor(e, o, q);
    assert e.encode(DocFor(e, o, p)) != e.encode(DocFor(e, o, q));
  }

  /** The entries of an index all are of their own platforms exactly when the architectures are distinct. */
  lemma EntriesRightExactly(e: Env, o: MultiOpts, ps: seq<string>)
    requires ReadyFor(e, o) && GoodConfigs(e) && AllPlain(ps) && AllPlanned(e, o, ps) && Sorted(ps)
    ensures (forall i :: 0 <= i < |ps| ==> EntryIsRight(e, o, ps[i], IndexEntries(e, o, ps, ps)[i])) <==> DistinctArches(ps)
  {
    if DistinctArches(ps) {
      forall i | 0 <= i < |ps|
        ensures EntryIsRight(e, o, ps[i], IndexEntries(e, o, ps, ps)[i])
      {
        LastOfDistinct(ps, i);
      }
    } else {
      var i, j :| 0 <= i < j < |ps| && ArchOf(ps[i]) == ArchOf(ps[j]);
      CollidingEntryIsWrong(e, o, ps, i, j);
    }
  }

  lemma EntriesHavePlatforms(e: Env, o: MultiOpts, ps: seq<string>)
    requires e.parse(o.ref).Some? && AllPlanned(e, o, ps)
    ensures forall i :: 0 <= i < |ps| ==>
              IndexEntries(e, o, ps, ps)[i].os == OsOf(ps[i]) && IndexEntries(e, o, ps, ps)[i].arch == ArchOf(ps[i])
  {
  }

  lemma PublishedAre(e: Env, f: Schedule, s: State, o: MultiOpts)
    requires Ready(e, o) && RunMulti(e, f, s, o).1.Ok?
    ensures AllPlanned(e, o, PlatformsOfRun(o)) && Sorted(PlatformsOfRun(o)) && AllPlain(PlatformsOfRun(o))
    ensures PublishedEntries(e, RunMulti(e, f, s, o).0.world, o)
         == Some(IndexEntries(e, o, PlatformsOfRun(o), PlatformsOfRun(o)))
  {
    RunIsPartway(e, f, s, o);
    LastOpsStored(e, s.world, o);
    PlatformsExactly(o.kernels, o.initrds, o.modules);
    ReadyIsPlain(e, o);
  }

  /**
    After a run that succeeds, the index under the bare tag has one entry per platform, in strictly sorted order;
    and every entry names the artifact of its own platform exactly when no two platforms share an architecture.
   */
  lemma IndexIsRightExactly(e: Env, f: Schedule, s: State, o: MultiOpts)
    requires Ready(e, o) && GoodConfigs(e) && RunMulti(e, f, s, o).1.Ok?
    ensures AllPlanned(e, o, PlatformsOfRun(o)) && Sorted(PlatformsOfRun(o))
    ensures var ps := PlatformsOfRun(o); var published := PublishedEntries(e, RunMulti(e, f, s, o).0.world, o);
            && published.Some? && |published.value| == |ps|
            && (forall i :: 0 <= i < |ps| ==> published.value[i].os == OsOf(ps[i]) && published.value[i].arch == ArchOf(ps[i]))
            && ((forall i :: 0 <= i < |ps| ==> EntryIsRight(e, o, ps[i], published.value[i])) <==> DistinctArches(ps))
  {
    PublishedAre(e, f, s, o);
    EntriesHavePlatforms(e, o, PlatformsOfRun(o));
    EntriesRightExactly(e, o, PlatformsOfRun(o));
  }

  /** The entry of the earlier of two platforms with one architecture names the artifact of another platform. */
  lemma CollidingEntryIsWrong(e: Env, o: MultiOpts, ps: seq<string>, i: nat, j: nat)
    requires ReadyFor(e, o) && GoodConfigs(e) && AllPlain(ps) && AllPlanned(e, o, ps) && Sorted(ps)
    requires i < j < |ps| && ArchOf(ps[i]) == ArchOf(ps[j])
    ensures !EntryIsRight(e, o, ps[i], IndexEntries(e, o, ps, ps)[i])
  {
    EarlierIsNotLast(ps, i, j);
    var last := LastWithArch(ps, ArchOf(ps[i])).value;
    var k :| 0 <= k < |ps| && ps[k] == last;
    DifferentArtifacts(e, o, ps[i], last);
  }

  lemma SharedArchitecture(ps: seq<string>, p: string, q: string)
    requires p in ps && q in ps && p != q && ArchOf(p) == ArchOf(q)
    ensures !DistinctArches(ps)
  {
    var i, j :| 0 <= i < |ps| && 0 <= j < |ps| && ps[i] == p && ps[j] == q;
    assert i < j || j < i;
  }

  lemma JoinedPlatform(s: string, os: string, arch: string)
    requires s == os + "/" + arch && '/' !in os && os != "" && arch != ""
    ensures ArchOf(s) == arch && OsOf(s) == os
  {
    ParsePlatformExactly(s, os, arch);
  }

  lemma MentionedFirst(o: MultiOpts, p: string, q: string)
    requires |o.kernels| >= 2 && o.kernels[0].platform == p && o.kernels[1].platform == q
    ensures p in PlatformsOfRun(o) && q in PlatformsOfRun(o)
  {
    PlatformsExactly(o.kernels, o.initrds, o.modules);
  }

  lemma LinuxAndWindows(p: string, q: string)
    requires p == "linux/amd64" && q == "windows/amd64"
    ensures p != q && ArchOf(p) == ArchOf(q)
  {
    JoinedPlatform(p, "linux", "amd64");
    JoinedPlatform(q, "windows", "amd64");
    assert |p| != |q|;
  }

  /** Two kernels are enough, whatever else the run is given: Linux and Windows on one architecture. */
  lemma LinuxAndWindowsCollide(o: MultiOpts)
    requires o.kernels == [Entry("linux/amd64", "vmlinuz"), Entry("windows/amd64", "bootmgr")]
    ensures !DistinctArches(PlatformsOfRun(o))
  {
    var p, q := o.kernels[0].platform, o.kernels[1].platform;
    MentionedFirst(o, p, q);
    LinuxAndWindows(p, q);
    SharedArchitecture(PlatformsOfRun(o), p, q);
  }

  /** So after every successful run on them some entry of the published index is wrong. */
  lemma LinuxAndWindowsMisnamed(e: Env, f: Schedule, s: State, o: MultiOpts)
    requires Ready(e, o) && GoodConfigs(e) && RunMulti(e, f, s, o).1.Ok?
    requires o.kernels == [Entry("linux/amd64", "vmlinuz"), Entry("windows/amd64", "bootmgr")]
    ensures var ps := PlatformsOfRun(o); var published := PublishedEntries(e, RunMulti(e, f, s, o).0.world, o);
            && AllPlanned(e, o, ps) && published.Some? && |published.value| == |ps|
            && exists i :: 0 <= i < |ps| && !EntryIsRight(e, o, ps[i], published.value[i])
  {
    LinuxAndWindowsCollide(o);
    IndexIsRightExactly(e, f, s, o);
  }

  // ---- every entry resolves ----

  lemma {:induction false} OpOfPlatform(e: Env, o: MultiOpts, ps: seq<string>, i: nat, op: Op)
    requires e.parse(o.ref).Some? && AllPlanned(e, o, ps) && i < |ps| && op in Plan(e, OptsOf(e, o, ps[i])).0
    ensures op in AllOps(e, o, ps)
  {
    OpsOfFirstOrRest(e, o, ps, op);
    if i > 0 {
      var rest := ps[1..];
      assert ps[i] == rest[i - 1];
      assert op in AllOps(e, o, rest) by { OpOfPlatform(e, o, rest, i - 1, op); }
    }
  }

  lemma OpsOfFirstOrRest(e: Env, o: MultiOpts, ps: seq<string>, op: Op)
    requires e.parse(o.ref).Some? && AllPlanned(e, o, ps) && ps != []
    ensures AllPlanned(e, o, ps[1..])
    ensures op in Plan(e, OptsOf(e, o, ps[0])).0 || op in AllOps(e, o, ps[1..]) ==> op in AllOps(e, o, ps)
  {
    AllOpsNext(e, o, ps);
  }

  lemma OpsOfPlatform(e: Env, o: MultiOpts, i: nat)
    requires e.parse(o.ref).Some? && AllPlanned(e, o, PlatformsOfRun(o)) && i < |PlatformsOfRun(o)|
    ensures forall op :: op in Plan(e, OptsOf(e, o, PlatformsOfRun(o)[i])).0 ==> op in CompleteOps(e, o)
  {
    forall op | op in Plan(e, OptsOf(e, o, PlatformsOfRun(o)[i])).0
      ensures op in CompleteOps(e, o)
    {
      OpOfPlatform(e, o, PlatformsOfRun(o), i, op);
    }
  }

  lemma {:induction false} DigestStored(e: Env, ops: seq<Op>, home: RepoId, reference: string, doc: Doc)
    requires GoodDigests(e) && PutDoc(home, reference, doc) in ops && AllAccepted(e, ops)
    ensures var key := DocKey(home, DocDigest(e, doc)); key in Effects(e, ops) && Effects(e, ops)[key] == Document(doc)
  {
    var key := DocKey(home, DocDigest(e, doc));
    if key in Effects(e, ops[1..]) {
      DigestKeyIs(e, ops[1..], home, doc);
    } else if PutDoc(home, reference, doc) in ops[1..] {
      DigestStored(e, ops[1..], home, reference, doc);
    } else {
      assert ops[0] == PutDoc(home, reference, doc) && Accepted(e, ops[0]);
    }
  }

  /** Under a digest only the manifest of that digest is put. */
  lemma {:induction false} DigestKeyIs(e: Env, ops: seq<Op>, home: RepoId, doc: Doc)
    requires GoodDigests(e) && AllAccepted(e, ops) && DocKey(home, DocDigest(e, doc)) in Effects(e, ops)
    ensures Effects(e, ops)[DocKey(home, DocDigest(e, doc))] == Document(doc)
  {
    var key := DocKey(home, DocDigest(e, doc));
    if key in Effects(e, ops[1..]) {
      DigestKeyIs(e, ops[1..], home, doc);
    } else {
      assert IsDigest(DocDigest(e, doc)) && Accepted(e, ops[0]);
    }
  }

  lemma PlanAmongOps(e: Env, w: World, q: Opts, ops: seq<Op>)
    requires GoodDigests(e) && Plan(e, q).1.Ok? && e.parse(q.ref).Some? && AllAccepted(e, ops)
    requires forall op :: op in Plan(e, q).0 ==> op in ops
    ensures GivesBack(e, w + Effects(e, ops), Home(e.parse(q.ref).value), q, Plan(e, q).1.value)
    ensures Lookup(e, w + Effects(e, ops), Home(e.parse(q.ref).value), DocDigest(e, Plan(e, q).1.value)) == Some(Plan(e, q).1.value)
  {
    PlanShape(e, q);
    var ref, inputs, doc := e.parse(q.ref).value, Inputs(q), Plan(e, q).1.value;
    UploadsOfPlan(e, w, q, ops);
    LayersOfInputs(e, Home(ref), inputs);
    InputsInOrder(q);
    AllGivenBack(e, w + Effects(e, ops), Home(ref), q, inputs, LayerOps(e, Home(ref), inputs).0, doc);
    assert Plan(e, q).0[|Plan(e, q).0| - 1] == PutDoc(Home(ref), ref.reference, doc);
    DigestStored(e, ops, Home(ref), ref.reference, doc);
  }

  /** One platform after a run that succeeds: its artifact is stored by digest and gives back every input. */
  lemma PlatformResolves(e: Env, w: World, o: MultiOpts, i: nat)
    requires Ready(e, o) && i < |PlatformsOfRun(o)| && AllPlanned(e, o, PlatformsOfRun(o)) && AllAccepted(e, CompleteOps(e, o))
    ensures var p := PlatformsOfRun(o)[i]; var v := w + Effects(e, CompleteOps(e, o)); var home := Home(Bare(e, o));
            && Lookup(e, v, home, DocDigest(e, DocFor(e, o, p))) == Some(DocFor(e, o, p))
            && GivesBack(e, v, home, OptsOf(e, o, p), DocFor(e, o, p))
  {
    ReadyIsPlain(e, o);
    DerivedParses(e, o, PlatformsOfRun(o)[i]);
    OpsOfPlatform(e, o, i);
    PlanAmongOps(e, w, OptsOf(e, o, PlatformsOfRun(o)[i]), CompleteOps(e, o));
  }

  /**
    After a run that succeeds on platforms with distinct architectures, every entry of the published index resolves,
    in the same repository, to a manifest that gives back exactly the files of its platform and the shared command
    line; and the derived tag of every platform still is that manifest.
   */
  lemma EntriesResolve(e: Env, f: Schedule, s: State, o: MultiOpts, i: nat)
    requires Ready(e, o) && GoodConfigs(e) && RunMulti(e, f, s, o).1.Ok?
    requires i < |PlatformsOfRun(o)| && DistinctArches(PlatformsOfRun(o))
    ensures var t := RunMulti(e, f, s, o).0; var p := PlatformsOfRun(o)[i]; var home := Home(Bare(e, o));
            var entries := PublishedEntries(e, t.world, o);
            && entries.Some? && i < |entries.value|
            && var doc := Lookup(e, t.world, home, entries.value[i].target.digest);
            && doc.Some? && GivesBack(e, t.world, home, OptsOf(e, o, p), doc.value)
            && Lookup(e, t.world, home, ArchTag(e, o, ArchOf(p))) == doc
  {
    var ps := PlatformsOfRun(o);
    IndexIsRightExactly(e, f, s, o);
    RunIsPartway(e, f, s, o);
    LastOpsStored(e, s.world, o);
    CompleteIsAccepted(e, f, s, o);
    var entries := PublishedEntries(e, RunMulti(e, f, s, o).0.world, o).value;
    assert EntryIsRight(e, o, ps[i], entries[i]);
    PlatformResolves(e, s.world, o, i);
    TagAfterIndex(e, s.world, o, i);
  }

  lemma CompleteIsAccepted(e: Env, f: Schedule, s: State, o: MultiOpts)
    requires Ready(e, o) && RunMulti(e, f, s, o).1.Ok?
    ensures AllPlanned(e, o, PlatformsOfRun(o)) && AllAccepted(e, CompleteOps(e, o))
  {
    var ps := PlatformsOfRun(o);
    RunIsPartway(e, f, s, o);
    ReadyIsPlain(e, o);
    PushAllIsIssue(e, f, s, o, ps);
    IssueAll(e, f, s, AllOps(e, o, ps));
    assert Accepted(e, IndexPut(e, o));
  }

  /** The put of the index does not write a derived tag. */
  lemma IndexLeavesTag(e: Env, o: MultiOpts, arch: string)
    requires ReadyFor(e, o) && AllPlanned(e, o, PlatformsOfRun(o)) && !IsDigest(ArchTag(e, o, arch))
    ensures DocKey(Home(Bare(e, o)), ArchTag(e, o, arch)) !in Effect(e, IndexPut(e, o))
  {
    assert |ArchTag(e, o, arch)| > |Bare(e, o).reference|;
  }

  lemma DistinctTag(e: Env, o: MultiOpts, ps: seq<string>, i: nat)
    requires ReadyFor(e, o) && AllPlain(ps) && AllPlanned(e, o, ps) && i < |ps| && DistinctArches(ps)
    ensures var key := DocKey(Home(Bare(e, o)), ArchTag(e, o, ArchOf(ps[i])));
            key in Effects(e, AllOps(e, o, ps)) && Effects(e, AllOps(e, o, ps))[key] == Document(DocFor(e, o, ps[i]))
  {
    LastOfDistinct(ps, i);
    TagHoldsLast(e, o, ps, ArchOf(ps[i]));
  }

  lemma TagAfterIndex(e: Env, w: World, o: MultiOpts, i: nat)
    requires Ready(e, o) && AllPlanned(e, o, PlatformsOfRun(o)) && i < |PlatformsOfRun(o)| && DistinctArches(PlatformsOfRun(o))
    ensures Lookup(e, w + Effects(e, CompleteOps(e, o)), Home(Bare(e, o)), ArchTag(e, o, ArchOf(PlatformsOfRun(o)[i])))
         == Some(DocFor(e, o, PlatformsOfRun(o)[i]))
  {
    var ps := PlatformsOfRun(o);
    var arch := ArchOf(ps[i]);
    ReadyIsPlain(e, o);
    PlainArchTag(e, o, ps[i]);
    IndexLeavesTag(e, o, arch);
    DistinctTag(e, o, ps, i);
    EarlierEffectStays(e, AllOps(e, o, ps), IndexPut(e, o), DocKey(Home(Bare(e, o)), ArchTag(e, o, arch)));
  }

  // ---- all or nothing ----

  /** What is stored under the bare tag of a world. */
  function BareTag(e: Env, w: World, o: MultiOpts): Option<Val>
    requires e.parse(o.ref).Some?
  {
    var key := DocKey(Home(Bare(e, o)), Bare(e, o).reference);
    if key in w then Some(w[key]) else None
  }

  /** The bare tag has the whole new index, and every manifest that it names is stored beside it. */
  ghost predicate Published(e: Env, w: World, o: MultiOpts)
    requires e.parse(o.ref).Some?
  {
    && AllPlanned(e, o, PlatformsOfRun(o))
    && BareTag(e, w, o) == Some(Document(IndexPut(e, o).doc))
    && forall i :: 0 <= i < |IndexPut(e, o).doc.entries| ==> DocStored(e, w, Home(Bare(e, o)), IndexPut(e, o).doc.entries[i].target)
  }

  lemma PlatformStored(e: Env, w: World, o: MultiOpts, i: nat)
    requires Ready(e, o) && i < |PlatformsOfRun(o)| && AllPlanned(e, o, PlatformsOfRun(o)) && AllAccepted(e, CompleteOps(e, o))
    ensures DocStored(e, w + Effects(e, CompleteOps(e, o)), Home(Bare(e, o)), DescOf(e, DocFor(e, o, PlatformsOfRun(o)[i])))
  {
    var q := OptsOf(e, o, PlatformsOfRun(o)[i]);
    ReadyIsPlain(e, o);
    DerivedParses(e, o, PlatformsOfRun(o)[i]);
    OpsOfPlatform(e, o, i);
    PlanShape(e, q);
    var ref, doc := e.parse(q.ref).value, Plan(e, q).1.value;
    assert Plan(e, q).0[|Plan(e, q).0| - 1] == PutDoc(Home(ref), ref.reference, doc);
    DigestStored(e, CompleteOps(e, o), Home(ref), ref.reference, doc);
  }

  lemma IndexedAreStored(e: Env, w: World, o: MultiOpts)
    requires Ready(e, o) && AllPlanned(e, o, PlatformsOfRun(o)) && AllAccepted(e, CompleteOps(e, o))
    ensures Published(e, w + Effects(e, CompleteOps(e, o)), o)
  {
    var ps, ops := PlatformsOfRun(o), CompleteOps(e, o);
    var v := w + Effects(e, ops);
    LastEffectCounts(e, AllOps(e, o, ps), IndexPut(e, o), DocKey(Home(Bare(e, o)), Bare(e, o).reference));
    forall i | 0 <= i < |ps|
      ensures DocStored(e, v, Home(Bare(e, o)), IndexEntryOf(e, o, ps, ps[i]).target)
    {
      var last := LastWithArch(ps, ArchOf(ps[i])).value;
      var k :| 0 <= k < |ps| && ps[k] == last;
      PlatformStored(e, w, o, k);
    }
  }

  lemma PrefixKeys(e: Env, ops: seq<Op>, n: nat)
    requires n <= |ops|
    ensures forall k :: k in Effects(e, ops[..n]) ==> k in Effects(e, ops)
  {
    EffectsConcat(e, ops[..n], ops[n..]);
    assert ops == ops[..n] + ops[n..];
  }

  /** A world partway through a run has the old bare tag, or the run is complete and the index published. */
  lemma PartwayIsOldOrPublished(e: Env, w: World, o: MultiOpts, v: World)
    requires Ready(e, o) && Partway(e, w, CompleteOps(e, o), v)
    ensures BareTag(e, v, o) == BareTag(e, w, o) || Published(e, v, o)
  {
    var ps, ops := PlatformsOfRun(o), AllOps(e, o, PlatformsOfRun(o));
    var n: nat :| n <= |CompleteOps(e, o)| && AllAccepted(e, CompleteOps(e, o)[..n]) && v == Upto(e, w, CompleteOps(e, o), n);
    ReadyIsPlain(e, o);
    if n <= |ops| {
      assert CompleteOps(e, o)[..n] == ops[..n];
      PrefixKeys(e, ops, n);
      BareTagUntouched(e, o, ps, Home(Bare(e, o)));
      assert DocKey(Home(Bare(e, o)), Bare(e, o).reference) !in Effects(e, ops[..n]);
    } else {
      assert CompleteOps(e, o)[..n] == CompleteOps(e, o);
      IndexedAreStored(e, w, o);
    }
  }

  /**
    At every moment of every run, whichever request or file fails, the bare tag is what it was before, or it is the
    complete index and every manifest that it names is stored.
   */
  lemma AllOrNothing(e: Env, f: Schedule, s: State, o: MultiOpts, i: nat)
    requires Ready(e, o) && |s.log| <= i < |RunMulti(e, f, s, o).0.log|
    ensures var v := RunMulti(e, f, s, o).0.log[i]; BareTag(e, v, o) == BareTag(e, s.world, o) || Published(e, v, o)
  {
    RunIsPartway(e, f, s, o);
    PartwayIsOldOrPublished(e, s.world, o, RunMulti(e, f, s, o).0.log[i]);
  }

  // ---- the order of the flags ----

  predicate SameMembers(a: seq<Entry>, b: seq<Entry>) {
    (forall x :: x in a ==> x in b) && (forall x :: x in b ==> x in a)
  }

  /** The flags of two runs are the same, in any order, and no list names a platform twice. */
  predicate Reordered(o: MultiOpts, q: MultiOpts) {
    && q.ref == o.ref && q.cmdline == o.cmdline
    && SameMembers(o.kernels, q.kernels) && SameMembers(o.initrds, q.initrds) && SameMembers(o.modules, q.modules)
    && NoRepeats(o.kernels) && NoRepeats(o.initrds) && NoRepeats(o.modules)
    && NoRepeats(q.kernels) && NoRepeats(q.initrds) && NoRepeats(q.modules)
  }

  lemma {:induction false} PushAllReordered(e: Env, f: Schedule, s: State, o: MultiOpts, q: MultiOpts, ps: seq<string>)
    requires Reordered(o, q)
    ensures PushAll(e, f, s, o, ps) == PushAll(e, f, s, q, ps)
    decreases |ps|
  {
    if ps != [] {
      PathInAnyOrder(o.kernels, q.kernels, ps[0]);
      PathInAnyOrder(o.initrds, q.initrds, ps[0]);
      PathInAnyOrder(o.modules, q.modules, ps[0]);
      assert PushOne(e, f, s, o, ps[0]) == PushOne(e, f, s, q, ps[0]);
      PushAllReordered(e, f, PushOne(e, f, s, o, ps[0]).0, o, q, ps[1..]);
    }
  }

  /** Reordering the flags changes no request, no fault and no result of a run. */
  lemma FlagOrderIrrelevant(e: Env, f: Schedule, s: State, o: MultiOpts, q: MultiOpts)
    requires Reordered(o, q)
    ensures RunMulti(e, f, s, o) == RunMulti(e, f, s, q)
  {
    PlatformsInAnyOrder(o.kernels, o.initrds, o.modules, q.kernels, q.initrds, q.modules);
    PushAllReordered(e, f, s, o, q, PlatformsOfRun(o));
  }
}

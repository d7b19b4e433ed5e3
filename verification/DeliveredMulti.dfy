/** What `push multi` leaves for a client, platform by platform, and when it succeeds. */
module DeliveredMulti {
  import opened Artifact
  import opened Closure
  import opened Delivered
  import opened DeliveredIndexes
  import opened FlagLists
  import opened ImageIndex
  import opened Multi
  import opened MultiFacts
  import opened Registry
  import opened Text
  import opened Wrappers

  // ---- one platform ----

  /** The flags of the artifact of a platform: the first path of every list for it, and the shared command line. */
  function FlagsFor(e: Env, o: MultiOpts, p: string, arch: string): Opts
    requires e.parse(o.ref).Some?
  {
    var bare := e.parse(o.ref).value;
    Opts(p, PathFor(o.kernels, p), PathFor(o.initrds, p), PathFor(o.modules, p), "", "", "", o.cmdline,
         bare.host + "/" + bare.repo + ":" + bare.reference + "-" + arch)
  }

  lemma OptsAreFlags(e: Env, o: MultiOpts, p: string)
    requires e.parse(o.ref).Some?
    ensures OptsOf(e, o, p) == FlagsFor(e, o, p, ArchOf(p))
  {
    var bare := e.parse(o.ref).value;
    var front := bare.host + "/" + bare.repo + ":";
    assert front + (bare.reference + "-" + ArchOf(p)) == front + bare.reference + "-" + ArchOf(p);
  }

  lemma ArtifactIs(e: Env, o: MultiOpts, p: string)
    requires e.parse(o.ref).Some? && Plan(e, OptsOf(e, o, p)).1.Ok?
    ensures DocFor(e, o, p) == ManifestOf(e, FlagsFor(e, o, p, ArchOf(p)), OsOf(p), ArchOf(p))
  {
    OptsAreFlags(e, o, p);
    PlanExactly(e, OptsOf(e, o, p));
  }

  /**
    After a run that succeeds on platforms of different architectures a client finds, under the bare tag, an index whose
    entry for a platform declares the manifest of its flags; that manifest, under its digest and under the tag with
    a dash and the architecture behind it; and in its layers the files that the flags named.
   */
  lemma PlatformDelivered(e: Env, f: Schedule, s: State, o: MultiOpts, i: nat, os: string, arch: string)
    requires Ready(e, o) && GoodConfigs(e) && RunMulti(e, f, s, o).1.Ok? && DistinctArches(PlatformsOfRun(o))
    requires i < |PlatformsOfRun(o)| && PlatformsOfRun(o)[i] == os + "/" + arch && '/' !in os && os != "" && arch != ""
    ensures var w := RunMulti(e, f, s, o).0.world; var bare := e.parse(o.ref).value; var home := RepoId(bare.host, bare.repo);
            var flags := FlagsFor(e, o, PlatformsOfRun(o)[i], arch); var doc := ManifestOf(e, flags, os, arch);
            var index := Lookup(e, w, home, bare.reference);
            && Lookup(e, w, home, bare.reference + "-" + arch) == Some(doc)
            && Lookup(e, w, home, e.digest(e.encode(doc))) == Some(doc)
            && HoldsFlags(e, w, home, doc.layers, flags)
            && index.Some? && index.value.Index? && |index.value.entries| == |PlatformsOfRun(o)|
            && index.value.entries[i].os == os && index.value.entries[i].arch == arch
            && Declares(e, index.value.entries[i].target, doc)
  {
    var p, t := PlatformsOfRun(o)[i], RunMulti(e, f, s, o).0;
    ParsePlatformExactly(p, os, arch);
    IndexIsRightExactly(e, f, s, o);
    var published := PublishedEntries(e, t.world, o).value;
    assert EntryIsRight(e, o, p, published[i]);
    ArtifactIs(e, o, p);
    OptsAreFlags(e, o, p);
    EntriesResolve(e, f, s, o, i);
    TagIsThere(e, f, s, o, i);
    GivesBackFlags(e, t.world, Home(Bare(e, o)), OptsOf(e, o, p), DocFor(e, o, p));
  }

  lemma TagIsThere(e: Env, f: Schedule, s: State, o: MultiOpts, i: nat)
    requires Ready(e, o) && RunMulti(e, f, s, o).1.Ok? && i < |PlatformsOfRun(o)| && DistinctArches(PlatformsOfRun(o))
    ensures AllPlanned(e, o, PlatformsOfRun(o))
    ensures Lookup(e, RunMulti(e, f, s, o).0.world, Home(Bare(e, o)), ArchTag(e, o, ArchOf(PlatformsOfRun(o)[i])))
         == Some(DocFor(e, o, PlatformsOfRun(o)[i]))
  {
    RunIsPartway(e, f, s, o);
    TagAfterIndex(e, s.world, o, i);
  }

  /** The reference of the artifact of a platform, spelled out. */
  lemma DerivedIs(e: Env, refStr: string, r: Ref, p: string, os: string, arch: string)
    requires e.parse(refStr) == Some(r) && p == os + "/" + arch && '/' !in os && os != "" && arch != ""
    ensures DerivePerArchRef(e, refStr, p) == Ok(r.host + "/" + r.repo + ":" + r.reference + "-" + arch)
  {
    ParsePlatformExactly(p, os, arch);
    var front := r.host + "/" + r.repo + ":";
    assert front + (r.reference + "-" + arch) == front + r.reference + "-" + arch;
  }

  /** For one: 6.6 and linux/amd64 give 6.6-amd64. */
  lemma TagForAmd64(e: Env, refStr: string, p: string)
    requires e.parse(refStr) == Some(Ref("localhost:5000", "boot/linux", "6.6")) && p == "linux/amd64"
    ensures DerivePerArchRef(e, refStr, p) == Ok("localhost:5000/boot/linux:6.6-amd64")
  {
    DerivedIs(e, refStr, Ref("localhost:5000", "boot/linux", "6.6"), p, "linux", "amd64");
    assert "localhost:5000" + "/" + "boot/linux" + ":" + "6.6" + "-" + "amd64" == "localhost:5000/boot/linux:6.6-amd64";
  }

  // ---- when a run succeeds ----

  /** Every file that a list names for a platform of the run can be read. */
  predicate AllReadable(e: Env, o: MultiOpts, ps: seq<string>) {
    forall i :: 0 <= i < |ps| ==>
      Reads(e, PathFor(o.kernels, ps[i])) && Reads(e, PathFor(o.initrds, ps[i])) && Reads(e, PathFor(o.modules, ps[i]))
  }

  lemma PlatformPlanned(e: Env, o: MultiOpts, p: string)
    requires Ready(e, o) && PlainPlatform(p) && p in PlatformsOfRun(o)
    ensures Plan(e, OptsOf(e, o, p)).1.Ok? <==>
            Reads(e, PathFor(o.kernels, p)) && Reads(e, PathFor(o.initrds, p)) && Reads(e, PathFor(o.modules, p))
  {
    DerivedParses(e, o, p);
    PlatformsExactly(o.kernels, o.initrds, o.modules);
    PathFound(o.kernels, p);
    PathFound(o.initrds, p);
    PathFound(o.modules, p);
    PlanExactly(e, OptsOf(e, o, p));
  }

  lemma PlannedWhenReadable(e: Env, o: MultiOpts)
    requires Ready(e, o)
    ensures AllPlanned(e, o, PlatformsOfRun(o)) <==> AllReadable(e, o, PlatformsOfRun(o))
  {
    var ps := PlatformsOfRun(o);
    ReadyIsPlain(e, o);
    forall i | 0 <= i < |ps|
      ensures Plan(e, OptsOf(e, o, ps[i])).1.Ok? <==>
              Reads(e, PathFor(o.kernels, ps[i])) && Reads(e, PathFor(o.initrds, ps[i])) && Reads(e, PathFor(o.modules, ps[i]))
    {
      PlatformPlanned(e, o, ps[i]);
    }
  }

  lemma PlanIsAccepted(e: Env, o: MultiOpts, p: string)
    requires ReadyFor(e, o) && PlainPlatform(p)
    ensures AllAccepted(e, Plan(e, OptsOf(e, o, p)).0)
  {
    var q := OptsOf(e, o, p);
    if Plan(e, q).1.Err? {
      UploadsAccepted(e, q);
    } else {
      DerivedParses(e, o, p);
      PlanExactly(e, q);
      PlanAccepted(e, q);
    }
  }

  lemma AcceptedJoin(e: Env, a: seq<Op>, b: seq<Op>)
    requires AllAccepted(e, a) && AllAccepted(e, b)
    ensures AllAccepted(e, a + b)
  {
  }

  lemma {:induction false} AllOpsAccepted(e: Env, o: MultiOpts, ps: seq<string>)
    requires ReadyFor(e, o) && AllPlain(ps)
    ensures AllAccepted(e, AllOps(e, o, ps))
  {
    if ps != [] {
      PlanIsAccepted(e, o, ps[0]);
      AllOpsAccepted(e, o, ps[1..]);
      AcceptedJoin(e, Plan(e, OptsOf(e, o, ps[0])).0, if Plan(e, OptsOf(e, o, ps[0])).1.Ok? then AllOps(e, o, ps[1..]) else []);
    }
  }

  lemma PushAllSucceedsExactly(e: Env, f: Schedule, s: State, o: MultiOpts)
    requires Ready(e, o)
    ensures var ps := PlatformsOfRun(o); var (t, r) := PushAll(e, f, s, o, ps);
            && s.calls <= t.calls
            && (r.Ok? <==> AllReadable(e, o, ps) && AllServed(f, s.calls, t.calls))
            && (r.Ok? ==> AllPlanned(e, o, ps) && t.world == s.world + Effects(e, AllOps(e, o, ps)) && r.value == EntriesOf(e, o, ps))
  {
    var ps := PlatformsOfRun(o);
    ReadyIsPlain(e, o);
    PushAllIsIssue(e, f, s, o, ps);
    IssueSucceedsExactly(e, f, s, AllOps(e, o, ps));
    AllOpsAccepted(e, o, ps);
    PlannedWhenReadable(e, o);
    if PushAll(e, f, s, o, ps).1.Ok? {
      IssueAll(e, f, s, AllOps(e, o, ps));
    }
  }

  lemma {:induction false} EntriesAre(e: Env, o: MultiOpts, ps: seq<string>)
    requires e.parse(o.ref).Some?
    ensures |EntriesOf(e, o, ps)| == |ps|
    ensures forall i :: 0 <= i < |ps| ==> EntriesOf(e, o, ps)[i] == Entry(ps[i], OptsOf(e, o, ps[i]).ref)
  {
    if ps != [] {
      EntriesAre(e, o, ps[1..]);
      forall i | 0 < i < |ps|
        ensures EntriesOf(e, o, ps)[i] == Entry(ps[i], OptsOf(e, o, ps[i]).ref)
      {
        assert EntriesOf(e, o, ps)[i] == EntriesOf(e, o, ps[1..])[i - 1] && ps[i] == ps[1..][i - 1];
      }
    }
  }

  lemma EntryDescribable(e: Env, o: MultiOpts, ps: seq<string>, p: string, w: World)
    requires ReadyFor(e, o) && AllPlain(ps) && AllPlanned(e, o, ps) && p in ps
    ensures Describable(e, w + Effects(e, AllOps(e, o, ps)), Entry(p, OptsOf(e, o, p).ref))
  {
    DerivedParses(e, o, p);
    TagHoldsLast(e, o, ps, ArchOf(p));
  }

  lemma EntriesDescribable(e: Env, o: MultiOpts, ps: seq<string>, w: World)
    requires ReadyFor(e, o) && AllPlain(ps) && AllPlanned(e, o, ps)
    ensures AllDescribable(e, w + Effects(e, AllOps(e, o, ps)), EntriesOf(e, o, ps))
  {
    EntriesAre(e, o, ps);
    forall i | 0 <= i < |ps|
      ensures Describable(e, w + Effects(e, AllOps(e, o, ps)), EntriesOf(e, o, ps)[i])
    {
      EntryDescribable(e, o, ps, ps[i], w);
    }
  }

  /** The platforms of a run: all that its three lists mention, each once, in order. */
  lemma PlatformsOfRunExactly(o: MultiOpts)
    ensures forall i, j :: 0 <= i < j < |PlatformsOfRun(o)| ==> Less(PlatformsOfRun(o)[i], PlatformsOfRun(o)[j])
    ensures forall p :: p in PlatformsOfRun(o) <==> Mentions(o.kernels, p) || Mentions(o.initrds, p) || Mentions(o.modules, p)
  {
    PlatformsExactly(o.kernels, o.initrds, o.modules);
  }

  /** A run is refused without a request when it is given no entry, or no reference. */
  lemma MultiRefuses(e: Env, f: Schedule, s: State, o: MultiOpts)
    ensures (forall p :: !Mentions(o.kernels, p) && !Mentions(o.initrds, p) && !Mentions(o.modules, p)) ==>
              RunMulti(e, f, s, o) == (s, Err(NoPlatforms))
    ensures PlatformsOfRun(o) != [] && e.parse(o.ref).None? ==> RunMulti(e, f, s, o) == (s, Err(BadReference))
  {
    PlatformsExactly(o.kernels, o.initrds, o.modules);
    if PlatformsOfRun(o) != [] {
      assert PlatformsOfRun(o)[0] in PlatformsOfRun(o);
    }
  }

  /** No run succeeds on a platform that is not one. */
  lemma {:induction false} PushAllNeedsPlatforms(e: Env, f: Schedule, s: State, o: MultiOpts, ps: seq<string>)
    requires PushAll(e, f, s, o, ps).1.Ok?
    ensures forall i :: 0 <= i < |ps| ==> ParsePlatform(ps[i]).Some?
    decreases |ps|
  {
    if ps != [] {
      PushAllNeedsPlatforms(e, f, PushOne(e, f, s, o, ps[0]).0, o, ps[1..]);
      assert forall i :: 0 < i < |ps| ==> ps[i] == ps[1..][i - 1];
    }
  }

  /** Otherwise it succeeds exactly when every file it names can be read and every request that it made was served. */
  lemma MultiSucceedsExactly(e: Env, f: Schedule, s: State, o: MultiOpts)
    requires Ready(e, o)
    ensures var (t, r) := RunMulti(e, f, s, o);
            && s.calls <= t.calls
            && (r.Ok? <==> PlatformsOfRun(o) != [] && AllReadable(e, o, PlatformsOfRun(o)) && AllServed(f, s.calls, t.calls))
  {
    var ps := PlatformsOfRun(o);
    PushAllSucceedsExactly(e, f, s, o);
    var (t, r) := PushAll(e, f, s, o, ps);
    if ps != [] && r.Ok? {
      var last := IndexOpts(r.value, o.ref);
      ReadyIsPlain(e, o);
      EntriesAre(e, o, ps);
      EntriesDescribable(e, o, ps, s.world);
      IndexSucceedsExactly(e, f, t, last);
      ServedJoin(f, s.calls, t.calls, RunIndex(e, f, t, last).0.calls);
    }
  }

  lemma ServedJoin(f: Schedule, lo: nat, mid: nat, hi: nat)
    requires lo <= mid <= hi
    ensures AllServed(f, lo, hi) <==> AllServed(f, lo, mid) && AllServed(f, mid, hi)
  {
  }
}

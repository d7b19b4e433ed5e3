/** A run of `push multi` that failed can be repeated, also when it failed on a file that was not there yet. */
module Resume {
  import opened Artifact
  import opened Multi
  import opened MultiFacts
  import opened Registry

  // ---- fewer files ----

  /** The same environment, where some of the files of `x` are missing or cannot be read. */
  ghost predicate FewerFiles(e: Env, x: Env) {
    x == e.(files := x.files) && forall p {:trigger e.files(p)} :: e.files(p).Some? ==> x.files(p) == e.files(p)
  }

  /** With fewer files, the uploads stop earlier, or they are the same. */
  lemma {:induction false} LayerOpsMore(e: Env, x: Env, home: RepoId, inputs: seq<Input>)
    requires FewerFiles(e, x)
    ensures LayerOps(e, home, inputs).0 <= LayerOps(x, home, inputs).0
    ensures LayerOps(e, home, inputs).1.Ok? ==> LayerOps(x, home, inputs) == LayerOps(e, home, inputs)
  {
    if inputs != [] {
      LayerOpsMore(e, x, home, inputs[1..]);
      if Content(e, inputs[0]).Some? {
        assert Upload(x, home, inputs[0]) == Upload(e, home, inputs[0]);
      }
    }
  }

  lemma PlanMore(e: Env, x: Env, o: Opts)
    requires FewerFiles(e, x)
    ensures Plan(e, o).0 <= Plan(x, o).0
    ensures Plan(e, o).1.Ok? ==> Plan(x, o) == Plan(e, o)
  {
    match e.parse(o.ref)
    case None =>
    case Some(ref) =>
      LayerOpsMore(e, x, Home(ref), Inputs(o));
  }

  lemma {:induction false} AllOpsMore(e: Env, x: Env, o: MultiOpts, ps: seq<string>)
    requires FewerFiles(e, x) && e.parse(o.ref).Some?
    ensures AllOps(e, o, ps) <= AllOps(x, o, ps)
    ensures AllPlanned(e, o, ps) ==> AllPlanned(x, o, ps) && AllOps(x, o, ps) == AllOps(e, o, ps)
  {
    if ps != [] {
      PlanMore(e, x, OptsOf(e, o, ps[0]));
      AllOpsMore(e, x, o, ps[1..]);
      if AllPlanned(e, o, ps) {
        AllOpsNext(e, o, ps);
        PlannedMore(e, x, o, ps);
        AllOpsNext(x, o, ps);
      }
    }
  }

  lemma PlannedMore(e: Env, x: Env, o: MultiOpts, ps: seq<string>)
    requires FewerFiles(e, x) && e.parse(o.ref).Some? && AllPlanned(e, o, ps)
    ensures AllPlanned(x, o, ps)
    ensures forall i :: 0 <= i < |ps| ==> DocFor(x, o, ps[i]) == DocFor(e, o, ps[i])
  {
    forall i | 0 <= i < |ps|
      ensures Plan(x, OptsOf(x, o, ps[i])) == Plan(e, OptsOf(e, o, ps[i]))
    {
      PlanMore(e, x, OptsOf(e, o, ps[i]));
    }
  }

  lemma SameIndex(e: Env, x: Env, o: MultiOpts)
    requires FewerFiles(e, x) && e.parse(o.ref).Some?
    requires AllPlanned(e, o, PlatformsOfRun(o)) && AllPlanned(x, o, PlatformsOfRun(o))
    ensures IndexPut(x, o) == IndexPut(e, o)
  {
    var ps := PlatformsOfRun(o);
    PlannedMore(e, x, o, ps);
    forall i | 0 <= i < |ps|
      ensures IndexEntryOf(x, o, ps, ps[i]) == IndexEntryOf(e, o, ps, ps[i])
    {
      var last := LastWithArch(ps, ArchOf(ps[i])).value;
      var k :| 0 <= k < |ps| && ps[k] == last;
    }
    assert IndexEntries(x, o, ps, ps) == IndexEntries(e, o, ps, ps);
  }

  /** The requests of a run with fewer files are the first requests of the run with all of them. */
  lemma CompleteOpsMore(e: Env, x: Env, o: MultiOpts)
    requires FewerFiles(e, x) && e.parse(o.ref).Some?
    ensures CompleteOps(e, o) <= CompleteOps(x, o)
  {
    var ps := PlatformsOfRun(o);
    AllOpsMore(e, x, o, ps);
    if AllPlanned(e, o, ps) {
      SameIndex(e, x, o);
    }
  }

  // ---- the same registry ----

  lemma {:induction false} SameEffects(e: Env, x: Env, ops: seq<Op>)
    requires FewerFiles(e, x)
    ensures Effects(e, ops) == Effects(x, ops)
  {
    if ops != [] {
      SameEffects(e, x, ops[1..]);
    }
  }

  lemma PartwayWithMore(e: Env, x: Env, w: World, a: seq<Op>, b: seq<Op>, v: World)
    requires FewerFiles(e, x) && a <= b && Partway(e, w, a, v)
    ensures Partway(x, w, b, v)
  {
    var n: nat :| n <= |a| && AllAccepted(e, a[..n]) && v == Upto(e, w, a, n);
    assert b[..n] == a[..n];
    SameEffects(e, x, a[..n]);
    assert AllAccepted(x, b[..n]) && v == Upto(x, w, b, n);
  }

  /** Going partway and then all the way is going all the way. */
  lemma PartwayThenAll(e: Env, w: World, ops: seq<Op>, v: World)
    requires Partway(e, w, ops, v)
    ensures v + Effects(e, ops) == w + Effects(e, ops)
  {
    var n: nat :| n <= |ops| && AllAccepted(e, ops[..n]) && v == Upto(e, w, ops, n);
    PrefixKeys(e, ops, n);
    MapAbsorb(w, Effects(e, ops[..n]), Effects(e, ops));
  }

  /**
    A run that fails anywhere, on requests or on files that cannot be read, followed by one with the same options that
    succeeds with all the files, leaves exactly what the successful run alone leaves, whatever the faults of each.
   */
  lemma ResumeConverges(e: Env, x: Env, f: Schedule, g: Schedule, h: Schedule, s: State, o: MultiOpts)
    requires FewerFiles(e, x) && Ready(x, o)
    requires RunMulti(x, g, RunMulti(e, f, s, o).0, o).1.Ok? && RunMulti(x, h, s, o).1.Ok?
    ensures RunMulti(x, g, RunMulti(e, f, s, o).0, o).0.world == RunMulti(x, h, s, o).0.world
  {
    ReadyWithFewer(e, x, o);
    RunIsPartway(e, f, s, o);
    RunIsPartway(x, g, RunMulti(e, f, s, o).0, o);
    RunIsPartway(x, h, s, o);
    CompleteOpsMore(e, x, o);
    PartwayWithMore(e, x, s.world, CompleteOps(e, o), CompleteOps(x, o), RunMulti(e, f, s, o).0.world);
    PartwayThenAll(x, s.world, CompleteOps(x, o), RunMulti(e, f, s, o).0.world);
  }

  lemma ReadyWithFewer(e: Env, x: Env, o: MultiOpts)
    requires FewerFiles(e, x) && Ready(x, o)
    ensures Ready(e, o)
  {
  }

  /** Repeating a run that succeeded changes nothing. */
  lemma RepetitionChangesNothing(e: Env, f: Schedule, g: Schedule, s: State, o: MultiOpts)
    requires Ready(e, o) && RunMulti(e, f, s, o).1.Ok?
    requires RunMulti(e, g, RunMulti(e, f, s, o).0, o).1.Ok?
    ensures RunMulti(e, g, RunMulti(e, f, s, o).0, o).0.world == RunMulti(e, f, s, o).0.world
  {
    ResumeConverges(e, e, f, g, f, s, o);
  }

  /** A run that meets an unreadable file fails, with every fault schedule. */
  lemma MissingFileFails(e: Env, f: Schedule, s: State, o: MultiOpts)
    requires Ready(e, o) && !AllPlanned(e, o, PlatformsOfRun(o))
    ensures RunMulti(e, f, s, o).1.Err?
  {
    RunIsPartway(e, f, s, o);
  }
}

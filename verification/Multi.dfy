/** `push multi`: one artifact per platform under a derived tag, then one index under the bare tag. */
module Multi {
  import opened Artifact
  import opened FlagLists
  import opened ImageIndex
  import opened Registry
  import opened Wrappers

  datatype MultiOpts = MultiOpts(ref: string, kernels: seq<Entry>, initrds: seq<Entry>, modules: seq<Entry>, cmdline: string)

  function PlatformsOfRun(o: MultiOpts): seq<string> {
    Platforms(o.kernels, o.initrds, o.modules)
  }

  /** `<host>/<repo>:<tag>` */
  function Format(host: string, repo: string, tag: string): string {
    host + "/" + repo + ":" + tag
  }

  function PerArchTag(tag: string, arch: string): string {
    tag + "-" + arch
  }

  /** `derivePerArchRef` */
  function DerivePerArchRef(e: Env, refStr: string, platform: string): Result<string, Error> {
    match ParsePlatform(platform)
    case None => Err(BadPlatform)
    case Some((_, arch)) =>
      match e.parse(refStr)
      case None => Err(BadReference)
      case Some(r) => Ok(Format(r.host, r.repo, PerArchTag(r.reference, arch)))
  }

  /** The artifact of one platform. */
  function ArtifactFor(o: MultiOpts, platform: string, archRef: string): Opts {
    Opts(platform, PathFor(o.kernels, platform), PathFor(o.initrds, platform), PathFor(o.modules, platform),
         "", "", "", o.cmdline, archRef)
  }

  function PushOne(e: Env, f: Schedule, s: State, o: MultiOpts, platform: string): (State, Result<Entry, Error>) {
    match DerivePerArchRef(e, o.ref, platform)
    case Err(err) => (s, Err(err))
    case Ok(archRef) =>
      match Run(e, f, s, ArtifactFor(o, platform, archRef))
      case (t, Err(err)) => (t, Err(err))
      case (t, Ok(_)) =>
        match Parse(Refs, platform + "=" + archRef)
        case None => (t, Err(BadFlag))
        case Some(entry) => (t, Ok(entry))
  }

  function PushAll(e: Env, f: Schedule, s: State, o: MultiOpts, ps: seq<string>): (State, Result<seq<Entry>, Error>)
    decreases |ps|
  {
    if ps == [] then (s, Ok([]))
    else
      match PushOne(e, f, s, o, ps[0])
      case (t, Err(err)) => (t, Err(err))
      case (t, Ok(entry)) =>
        match PushAll(e, f, t, o, ps[1..])
        case (u, Err(err)) => (u, Err(err))
        case (u, Ok(entries)) => (u, Ok([entry] + entries))
  }

  function RunMulti(e: Env, f: Schedule, s: State, o: MultiOpts): (State, Result<Doc, Error>) {
    if PlatformsOfRun(o) == [] then (s, Err(NoPlatforms))
    else if e.parse(o.ref).None? then (s, Err(BadReference))
    else
      match PushAll(e, f, s, o, PlatformsOfRun(o))
      case (t, Err(err)) => (t, Err(err))
      case (t, Ok(entries)) => RunIndex(e, f, t, IndexOpts(entries, o.ref))
  }

  // ---- the loop of the source ----

  lemma {:induction false} PushAllConcat(e: Env, f: Schedule, s: State, o: MultiOpts, a: seq<string>, b: seq<string>)
    ensures PushAll(e, f, s, o, a + b) ==
            match PushAll(e, f, s, o, a)
            case (t, Err(err)) => (t, Err(err))
            case (t, Ok(entries)) =>
              match PushAll(e, f, t, o, b)
              case (u, Err(err)) => (u, Err(err))
              case (u, Ok(more)) => (u, Ok(entries + more))
    decreases |a|
  {
    if a == [] {
      assert a + b == b;
      var r := PushAll(e, f, s, o, b).1;
      if r.Ok? {
        EmptyFirst(r.value);
      }
    } else {
      assert (a + b)[1..] == a[1..] + b;
      var (t, r) := PushOne(e, f, s, o, a[0]);
      if r.Ok? {
        PushAllConcat(e, f, t, o, a[1..], b);
        var (u, entries) := PushAll(e, f, t, o, a[1..]);
        if entries.Ok? {
          var more := PushAll(e, f, u, o, b).1;
          if more.Ok? {
            ConsAssoc(r.value, entries.value, more.value);
          }
        }
      }
    }
  }

  lemma PushSingle(e: Env, f: Schedule, s: State, o: MultiOpts, p: string)
    ensures PushAll(e, f, s, o, [p]) ==
            match PushOne(e, f, s, o, p)
            case (t, Err(err)) => (t, Err(err))
            case (t, Ok(entry)) => (t, Ok([entry]))
  {
    assert [p][1..] == [];
    var (t, r) := PushOne(e, f, s, o, p);
    assert PushAll(e, f, t, o, []) == (t, Ok([]));
    assert r.Ok? ==> [r.value] + [] == [r.value];
  }

  lemma PushNext(e: Env, f: Schedule, s: State, o: MultiOpts, ps: seq<string>, i: nat)
    requires i < |ps|
    ensures PushAll(e, f, s, o, ps[..i + 1]) ==
            match PushAll(e, f, s, o, ps[..i])
            case (t, Err(err)) => (t, Err(err))
            case (t, Ok(entries)) =>
              match PushOne(e, f, t, o, ps[i])
              case (u, Err(err)) => (u, Err(err))
              case (u, Ok(entry)) => (u, Ok(entries + [entry]))
  {
    assert ps[..i + 1] == ps[..i] + [ps[i]];
    PushAllConcat(e, f, s, o, ps[..i], [ps[i]]);
    PushSingle(e, f, PushAll(e, f, s, o, ps[..i]).0, o, ps[i]);
  }

  lemma PushStops(e: Env, f: Schedule, s: State, o: MultiOpts, ps: seq<string>, i: nat)
    requires i <= |ps| && PushAll(e, f, s, o, ps[..i]).1.Err?
    ensures PushAll(e, f, s, o, ps) == PushAll(e, f, s, o, ps[..i])
  {
    assert ps == ps[..i] + ps[i..];
    PushAllConcat(e, f, s, o, ps[..i], ps[i..]);
  }

  /** One more platform: its error is the error of the run, or its entry is the next one. */
  lemma PushStep(e: Env, f: Schedule, s: State, o: MultiOpts, ps: seq<string>, i: nat, now: State, entries: seq<Entry>)
    requires i < |ps| && PushAll(e, f, s, o, ps[..i]) == (now, Ok(entries))
    ensures match PushOne(e, f, now, o, ps[i])
            case (t, Err(err)) => PushAll(e, f, s, o, ps) == (t, Err(err))
            case (t, Ok(entry)) => PushAll(e, f, s, o, ps[..i + 1]) == (t, Ok(entries + [entry]))
  {
    PushNext(e, f, s, o, ps, i);
    if PushOne(e, f, now, o, ps[i]).1.Err? {
      PushStops(e, f, s, o, ps, i + 1);
    }
  }

  /** The run as the source performs it. */
  method PushMulti(server: Server, o: MultiOpts) returns (r: Result<Doc, Error>)
    modifies server
    ensures (server.Now(), r) == RunMulti(server.env, server.faults, old(server.Now()), o)
  {
    var platforms := UniquePlatforms([o.kernels, o.initrds, o.modules]);
    UniqueIsPlatforms([o.kernels, o.initrds, o.modules], platforms);
    if |platforms| == 0 {
      return Err(NoPlatforms);
    }
    if server.env.parse(o.ref).None? {
      return Err(BadReference);
    }
    ghost var start, e, f := server.Now(), server.env, server.faults;
    var flags := new FlagList(Refs);
    assert platforms[..0] == [];
    for i := 0 to |platforms|
      invariant fresh(flags) && flags.kind == Refs
      invariant PushAll(e, f, start, o, platforms[..i]) == (server.Now(), Ok(flags.entries))
    {
      PushStep(e, f, start, o, platforms, i, server.Now(), flags.entries);
      var platform := platforms[i];
      var archRef := DerivePerArchRef(server.env, o.ref, platform);
      if archRef.Err? {
        return Err(archRef.error);
      }
      var kernel := FindPath(o.kernels, platform);
      var initrd := FindPath(o.initrds, platform);
      var modules := FindPath(o.modules, platform);
      var pushed := Push(server, Opts(platform, kernel, initrd, modules, "", "", "", o.cmdline, archRef.value));
      if pushed.Err? {
        return Err(pushed.error);
      }
      var isSet := flags.Set(platform + "=" + archRef.value);
      if !isSet {
        return Err(BadFlag);
      }
    }
    assert platforms[..|platforms|] == platforms;
    r := Assemble(server, IndexOpts(flags.entries, o.ref));
  }
}

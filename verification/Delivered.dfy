/** What `push artifact` leaves for a client, flag by flag, and when it succeeds. */
module Delivered {
  import opened Artifact
  import opened ArtifactFacts
  import opened Paths
  import opened Registry
  import opened Text
  import opened Wrappers

  // ---- when requests succeed ----

  predicate AllServed(f: Schedule, lo: nat, hi: nat) {
    forall i :: lo <= i < hi ==> f(i).Served?
  }

  /** Requests succeed exactly when the registry accepts them all and serves every request that was made. */
  lemma {:induction false} IssueSucceedsExactly(e: Env, f: Schedule, s: State, ops: seq<Op>)
    ensures var (t, ok) := Issue(e, f, s, ops);
            && s.calls <= t.calls <= s.calls + |ops|
            && (ok <==> AllAccepted(e, ops) && AllServed(f, s.calls, t.calls))
            && (ok ==> t.calls == s.calls + |ops|)
    decreases |ops|
  {
    if ops != [] {
      var (t, ok) := Send(e, f, s, ops[0]);
      if ok {
        IssueSucceedsExactly(e, f, t, ops[1..]);
        assert AllAccepted(e, ops) <==> AllAccepted(e, ops[1..]) by {
          assert forall i :: 0 < i < |ops| ==> ops[i] == ops[1..][i - 1];
        }
      } else {
        assert t.calls == s.calls + 1;
      }
    }
  }

  /**
    What becomes of one request: a refused one leaves everything as it was, one whose reply is lost has its effect all
    the same, and only a served one succeeds.
   */
  lemma FaultsMean(e: Env, f: Schedule, s: State, op: Op, k: Key)
    ensures var (t, ok) := Send(e, f, s, op);
            && (f(s.calls).Refused? ==> !ok && t.world == s.world)
            && (f(s.calls).ReplyLost? ==> !ok) && (ok ==> f(s.calls).Served?)
            && (k in s.world && k !in Effect(e, op) ==> k in t.world && t.world[k] == s.world[k])
            && (op.PutBlob? && !f(s.calls).Refused? ==>
                  var key := BlobKey(op.home, e.digest(op.data)); key in t.world && t.world[key] == Blob(op.data))
            && (op.PutDoc? && !f(s.calls).Refused? && ':' !in op.reference ==>
                  var key := DocKey(op.home, op.reference); key in t.world && (t.world[key] == Document(op.doc)))
            && t.calls == s.calls + 1 && t.log == s.log + [t.world]
  {
  }

  /** A manifest that was put is what the registry has under its reference and its digest, and what it had put last. */
  lemma LookupAfterPut(e: Env, w: World, home: RepoId, reference: string, doc: Doc, at: RepoId, k: string)
    ensures var v := w + Effect(e, PutDoc(home, reference, doc));
            && (at == home && (k == reference || k == e.digest(e.encode(doc))) ==> Lookup(e, v, at, k) == Some(doc))
            && (at == home && k != reference && k != e.digest(e.encode(doc)) && DocKey(at, k) !in w ==>
                  Lookup(e, v, at, k) == if e.lenient then Some(doc) else None)
            && (at != home ==> Lookup(e, v, at, k) == Lookup(e, w, at, k))
            && (DocKey(at, k) in w && w[DocKey(at, k)].Document? && (at != home || (k != reference && k != e.digest(e.encode(doc)))) ==>
                  Lookup(e, v, at, k) == Some(w[DocKey(at, k)].doc))
  {
  }

  // ---- the manifest, flag by flag ----

  /** The layer of a file, when the flag is set and the file can be read. */
  function FileLayer(e: Env, kind: LayerKind, title: string, path: string): seq<Descriptor> {
    if path == "" || e.files(path).None? then []
    else
      var data := e.files(path).value;
      [Descriptor(LayerMedia(kind), e.digest(data), |data|,
                  map["org.opencontainers.image.title" := title, "cloudboot.source.basename" := Base(path)])]
  }

  function TextLayer(e: Env, text: string): seq<Descriptor> {
    if text == "" then []
    else
      [Descriptor(LayerMedia(Cmdline), e.digest(e.utf8(text)), |e.utf8(text)|, map["org.opencontainers.image.title" := "cmdline"])]
  }

  /** The manifest for a system and an architecture: its config and the layers of the flags that are set. */
  function ManifestOf(e: Env, o: Opts, os: string, arch: string): Doc {
    Manifest(
      Descriptor(ConfigMedia, e.digest(e.config(arch, os)), |e.config(arch, os)|, map[]),
      FileLayer(e, Kernel, "vmlinuz", o.kernel) + FileLayer(e, Initrd, "initrd", o.initrd) +
      FileLayer(e, Modules, "modules", o.modules) + FileLayer(e, Modloop, "modloop", o.modloop) +
      FileLayer(e, Apkovl, "apkovl", o.apkovl) + FileLayer(e, Squashfs, "squashfs", o.squashfs) +
      TextLayer(e, o.cmdline))
  }

  predicate Reads(e: Env, path: string) {
    path == "" || e.files(path).Some?
  }

  /** Every file that is named can be read. */
  predicate FilesReadable(e: Env, o: Opts) {
    && Reads(e, o.kernel) && Reads(e, o.initrd) && Reads(e, o.modules)
    && Reads(e, o.modloop) && Reads(e, o.apkovl) && Reads(e, o.squashfs)
  }

  /** The first file, in the order of the flags, that cannot be read. */
  function FirstUnreadable(e: Env, o: Opts): string {
    if !Reads(e, o.kernel) then o.kernel else if !Reads(e, o.initrd) then o.initrd else if !Reads(e, o.modules) then o.modules
    else if !Reads(e, o.modloop) then o.modloop else if !Reads(e, o.apkovl) then o.apkovl else o.squashfs
  }

  predicate NoFlags(o: Opts) {
    o.kernel == "" && o.initrd == "" && o.modules == "" && o.modloop == "" && o.apkovl == "" && o.squashfs == "" && o.cmdline == ""
  }

  lemma LayersOfFile(e: Env, home: RepoId, kind: LayerKind, title: string, path: string)
    requires title == Title(kind) && !kind.Cmdline?
    ensures var layers := LayerOps(e, home, FileInputs(kind, path)).1;
            && (Reads(e, path) ==> layers == Ok(FileLayer(e, kind, title, path)))
            && (!Reads(e, path) ==> layers == Err(ReadFailed(path)))
  {
    if path != "" {
      var i := FileInput(kind, path);
      assert [i][1..] == [];
      JoinNothing(Upload(e, home, i));
      assert LayerOps(e, home, [i]) == Upload(e, home, i);
    }
  }

  lemma LayersOfText(e: Env, home: RepoId, text: string)
    ensures LayerOps(e, home, TextInputs(text)).1 == Ok(TextLayer(e, text))
  {
    if text != "" {
      var i := TextInput(text);
      assert [i][1..] == [];
      JoinNothing(Upload(e, home, i));
      assert LayerOps(e, home, [i]) == Upload(e, home, i);
    }
  }

  /** Layers of one list of inputs after those of another. */
  lemma LayersJoin(e: Env, home: RepoId, a: seq<Input>, b: seq<Input>)
    ensures var (la, lb, l) := (LayerOps(e, home, a).1, LayerOps(e, home, b).1, LayerOps(e, home, a + b).1);
            l == if la.Err? then la else if lb.Err? then lb else Ok(la.value + lb.value)
  {
    LayerOpsConcat(e, home, a, b);
  }

  /** The layers of a run, when all its files can be read. */
  lemma LayersOfRun(e: Env, home: RepoId, o: Opts, os: string, arch: string)
    ensures var layers := LayerOps(e, home, Inputs(o)).1;
            && (FilesReadable(e, o) ==> layers == Ok(ManifestOf(e, o, os, arch).layers))
            && (!FilesReadable(e, o) ==> layers == Err(ReadFailed(FirstUnreadable(e, o))))
  {
    var k, i, m := FileInputs(Kernel, o.kernel), FileInputs(Initrd, o.initrd), FileInputs(Modules, o.modules);
    var l, a, q := FileInputs(Modloop, o.modloop), FileInputs(Apkovl, o.apkovl), FileInputs(Squashfs, o.squashfs);
    LayersOfFile(e, home, Kernel, "vmlinuz", o.kernel);
    LayersOfFile(e, home, Initrd, "initrd", o.initrd);
    LayersOfFile(e, home, Modules, "modules", o.modules);
    LayersOfFile(e, home, Modloop, "modloop", o.modloop);
    LayersOfFile(e, home, Apkovl, "apkovl", o.apkovl);
    LayersOfFile(e, home, Squashfs, "squashfs", o.squashfs);
    LayersOfText(e, home, o.cmdline);
    LayersJoin(e, home, k, i);
    LayersJoin(e, home, k + i, m);
    LayersJoin(e, home, k + i + m, l);
    LayersJoin(e, home, k + i + m + l, a);
    LayersJoin(e, home, k + i + m + l + a, q);
    LayersJoin(e, home, k + i + m + l + a + q, TextInputs(o.cmdline));
  }

  /** The flags are in order, whatever the files are. */
  predicate FlagsInOrder(e: Env, o: Opts) {
    ParsePlatform(o.platform).Some? && !NoFlags(o) && e.parse(o.ref).Some?
  }

  /** A push can be made of these flags. */
  predicate CanPush(e: Env, o: Opts) {
    FlagsInOrder(e, o) && FilesReadable(e, o)
  }

  lemma PlanExactly(e: Env, o: Opts)
    ensures Plan(e, o).1.Ok? <==> CanPush(e, o)
    ensures CanPush(e, o) ==>
              Plan(e, o).1 == Ok(ManifestOf(e, o, ParsePlatform(o.platform).value.0, ParsePlatform(o.platform).value.1))
    ensures FlagsInOrder(e, o) && !FilesReadable(e, o) ==> Plan(e, o).1 == Err(ReadFailed(FirstUnreadable(e, o)))
  {
    SomeInput(o);
    if ParsePlatform(o.platform).Some? && e.parse(o.ref).Some? {
      var (os, arch) := ParsePlatform(o.platform).value;
      LayersOfRun(e, Home(e.parse(o.ref).value), o, os, arch);
    }
  }

  lemma UploadsAccepted(e: Env, o: Opts)
    requires Plan(e, o).1.Err?
    ensures AllAccepted(e, Plan(e, o).0)
  {
    if FlagsInOrder(e, o) {
      SomeInput(o);
      var home, ops := Home(e.parse(o.ref).value), Plan(e, o).0;
      UploadsOnly(e, home, Inputs(o));
      forall i | 0 <= i < |ops|
        ensures Accepted(e, ops[i])
      {
        var uploads := LayerOps(e, home, Inputs(o)).0;
        if i > 0 {
          assert ops[i] == uploads[i - 1] && uploads[i - 1] in uploads;
        }
      }
    }
  }

  /** Which error a push ends in: flags out of order are refused before any request is made. */
  lemma RefusedExactly(e: Env, f: Schedule, s: State, o: Opts)
    ensures var run := Run(e, f, s, o);
            && (o.platform == "" ==> run == (s, Err(MissingPlatform)))
            && (o.platform != "" && ParsePlatform(o.platform).None? ==> run == (s, Err(BadPlatform)))
            && (ParsePlatform(o.platform).Some? && NoFlags(o) ==> run == (s, Err(NothingToPush)))
            && (ParsePlatform(o.platform).Some? && !NoFlags(o) && e.parse(o.ref).None? ==> run == (s, Err(BadReference)))
            && (FlagsInOrder(e, o) && !FilesReadable(e, o) && AllServed(f, s.calls, run.0.calls) ==>
                  run.1 == Err(ReadFailed(FirstUnreadable(e, o))))
            && (FlagsInOrder(e, o) && !AllServed(f, s.calls, run.0.calls) ==> run.1 == Err(RequestFailed))
  {
    SomeInput(o);
    PlanExactly(e, o);
    IssueSucceedsExactly(e, f, s, Plan(e, o).0);
    if FlagsInOrder(e, o) && !FilesReadable(e, o) {
      UploadsAccepted(e, o);
    }
    assert Cut("", '/').None?;
  }

  /** The reference is a tag, or the digest of what is put under it. */
  predicate Fits(e: Env, reference: string, doc: Doc) {
    ':' in reference ==> reference == e.digest(e.encode(doc))
  }

  lemma PlanAccepted(e: Env, o: Opts)
    requires CanPush(e, o)
    ensures Plan(e, o).1.Ok?
    ensures AllAccepted(e, Plan(e, o).0) <==> Fits(e, e.parse(o.ref).value.reference, Plan(e, o).1.value)
  {
    PlanExactly(e, o);
    PlanShape(e, o);
    var ref, ops := e.parse(o.ref).value, Plan(e, o).0;
    var uploads := LayerOps(e, Home(ref), Inputs(o)).0;
    UploadsOnly(e, Home(ref), Inputs(o));
    var last := PutDoc(Home(ref), ref.reference, Plan(e, o).1.value);
    assert ops[|ops| - 1] == last;
    forall i | 0 <= i < |ops| - 1
      ensures Accepted(e, ops[i])
    {
      if i > 0 {
        assert ops[i] == uploads[i - 1] && uploads[i - 1] in uploads;
      }
    }
  }

  /**
    A push succeeds exactly when its flags are in order, its files can be read, its reference fits and every request it
    made was served; and then it has made the manifest of its flags.
   */
  lemma PushSucceedsExactly(e: Env, f: Schedule, s: State, o: Opts)
    ensures var (t, r) := Run(e, f, s, o);
            && s.calls <= t.calls
            && (r.Ok? ==>
                  && CanPush(e, o)
                  && r.value == ManifestOf(e, o, ParsePlatform(o.platform).value.0, ParsePlatform(o.platform).value.1))
            && (r.Ok? <==>
                  && CanPush(e, o)
                  && var (os, arch) := ParsePlatform(o.platform).value;
                  Fits(e, e.parse(o.ref).value.reference, ManifestOf(e, o, os, arch)) && AllServed(f, s.calls, t.calls))
  {
    PlanExactly(e, o);
    IssueSucceedsExactly(e, f, s, Plan(e, o).0);
    if CanPush(e, o) {
      PlanAccepted(e, o);
    }
  }

  // ---- what a client reads ----

  /** The layers of the seven kinds hold the files, and the command line, that the flags named, and no others. */
  ghost predicate HoldsFlags(e: Env, w: World, home: RepoId, layers: seq<Descriptor>, o: Opts) {
    && ReadLayer(w, home, layers, Kernel) == (if o.kernel == "" then None else e.files(o.kernel))
    && ReadLayer(w, home, layers, Initrd) == (if o.initrd == "" then None else e.files(o.initrd))
    && ReadLayer(w, home, layers, Modules) == (if o.modules == "" then None else e.files(o.modules))
    && ReadLayer(w, home, layers, Modloop) == (if o.modloop == "" then None else e.files(o.modloop))
    && ReadLayer(w, home, layers, Apkovl) == (if o.apkovl == "" then None else e.files(o.apkovl))
    && ReadLayer(w, home, layers, Squashfs) == (if o.squashfs == "" then None else e.files(o.squashfs))
    && ReadLayer(w, home, layers, Cmdline) == (if o.cmdline == "" then None else Some(e.utf8(o.cmdline)))
  }

  lemma GivesBackFlags(e: Env, w: World, home: RepoId, o: Opts, doc: Doc)
    requires GivesBack(e, w, home, o, doc)
    ensures HoldsFlags(e, w, home, doc.layers, o)
  {
    forall kind: LayerKind
      ensures ReadLayer(w, home, doc.layers, kind) == Given(e, o, kind)
    {
    }
  }

  /**
    After a push that succeeds a client finds the manifest of its flags, under its reference and under its digest, in
    the repository of its reference; with the config of its platform; and each layer holds the file that its flag named.
   */
  lemma ArtifactDelivered(e: Env, f: Schedule, s: State, o: Opts, os: string, arch: string)
    requires GoodDigests(e) && Run(e, f, s, o).1.Ok? && o.platform == os + "/" + arch && '/' !in os
    ensures e.parse(o.ref).Some?
    ensures var w := Run(e, f, s, o).0.world; var ref := e.parse(o.ref).value; var home := RepoId(ref.host, ref.repo);
            var doc := ManifestOf(e, o, os, arch);
            && Lookup(e, w, home, ref.reference) == Some(doc) && Lookup(e, w, home, e.digest(e.encode(doc))) == Some(doc)
            && BlobKey(home, doc.config.digest) in w && w[BlobKey(home, doc.config.digest)] == Blob(e.config(arch, os))
            && HoldsFlags(e, w, home, doc.layers, o)
  {
    PushSucceedsExactly(e, f, s, o);
    ArtifactReadsBack(e, f, s, o);
    CutJoined(os, arch, '/');
    var w, ref := Run(e, f, s, o).0.world, e.parse(o.ref).value;
    GivesBackFlags(e, w, Home(ref), o, ManifestOf(e, o, os, arch));
    ConfigDelivered(e, f, s, o, os, arch);
  }

  lemma ConfigDelivered(e: Env, f: Schedule, s: State, o: Opts, os: string, arch: string)
    requires GoodDigests(e) && Run(e, f, s, o).1.Ok? && ParsePlatform(o.platform) == Some((os, arch)) && e.parse(o.ref).Some?
    ensures var w := Run(e, f, s, o).0.world; var key := BlobKey(Home(e.parse(o.ref).value), e.digest(e.config(arch, os)));
            key in w && w[key] == Blob(e.config(arch, os))
  {
    PlanShape(e, o);
    IssueAll(e, f, s, Plan(e, o).0);
    BlobInEffects(e, Plan(e, o).0, Home(e.parse(o.ref).value), e.config(arch, os));
  }
}

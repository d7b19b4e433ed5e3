/** What a pushed artifact promises: its manifest refers only to what is stored, and gives every input back. */
module ArtifactFacts {
  import opened Bytes
  import opened Registry
  import opened Closure
  import opened Artifact
  import opened Wrappers

  // ---- the fixed order ----

  function Rank(kind: LayerKind): nat {
    match kind
    case Kernel => 0
    case Initrd => 1
    case Modules => 2
    case Modloop => 3
    case Apkovl => 4
    case Squashfs => 5
    case Cmdline => 6
  }

  /** The flag of a kind of layer, empty when it is not set. */
  function FlagOf(o: Opts, kind: LayerKind): string {
    match kind
    case Kernel => o.kernel
    case Initrd => o.initrd
    case Modules => o.modules
    case Modloop => o.modloop
    case Apkovl => o.apkovl
    case Squashfs => o.squashfs
    case Cmdline => o.cmdline
  }

  function InputOf(o: Opts, kind: LayerKind): Input {
    if kind.Cmdline? then TextInput(o.cmdline) else FileInput(kind, FlagOf(o, kind))
  }

  /** The inputs are exactly the flags that are set, each once, in the order of their ranks. */
  ghost predicate InOrder(inputs: seq<Input>, o: Opts, upto: nat) {
    && (forall i, j :: 0 <= i < j < |inputs| ==> Rank(KindOf(inputs[i])) < Rank(KindOf(inputs[j])))
    && (forall i :: 0 <= i < |inputs| ==>
          Rank(KindOf(inputs[i])) < upto && inputs[i] == InputOf(o, KindOf(inputs[i])) && FlagOf(o, KindOf(inputs[i])) != "")
    && (forall kind {:trigger InputOf(o, kind)} :: Rank(kind) < upto && FlagOf(o, kind) != "" ==> InputOf(o, kind) in inputs)
  }

  function KindAt(k: nat): LayerKind {
    match k
    case 0 => Kernel
    case 1 => Initrd
    case 2 => Modules
    case 3 => Modloop
    case 4 => Apkovl
    case 5 => Squashfs
    case _ => Cmdline
  }

  function PartOf(o: Opts, kind: LayerKind): seq<Input> {
    if FlagOf(o, kind) == "" then [] else [InputOf(o, kind)]
  }

  lemma PartAt(o: Opts, k: nat)
    requires k < 7
    ensures Part(o, k) == PartOf(o, KindAt(k)) && Rank(KindAt(k)) == k
  {
  }

  lemma RankInjective(a: LayerKind, b: LayerKind)
    requires Rank(a) == Rank(b)
    ensures a == b
  {
  }

  lemma AppendInOrder(front: seq<Input>, o: Opts, kind: LayerKind)
    requires InOrder(front, o, Rank(kind))
    ensures InOrder(front + PartOf(o, kind), o, Rank(kind) + 1)
  {
    var all := front + PartOf(o, kind);
    forall other | Rank(other) < Rank(kind) + 1 && FlagOf(o, other) != ""
      ensures InputOf(o, other) in all
    {
      if Rank(other) < Rank(kind) {
        assert InputOf(o, other) in front;
      } else {
        RankInjective(other, kind);
      }
    }
  }

  lemma {:induction false} InputsUptoInOrder(o: Opts, k: nat)
    requires k <= 7
    ensures InOrder(InputsUpto(o, k), o, k)
  {
    if k > 0 {
      InputsUptoInOrder(o, k - 1);
      PartAt(o, k - 1);
      AppendInOrder(InputsUpto(o, k - 1), o, KindAt(k - 1));
    }
  }

  lemma InputsInOrder(o: Opts)
    ensures InOrder(Inputs(o), o, 7)
  {
    InputsUptoInOrder(o, 7);
    InputsAreAll(o);
  }

  // ---- what the requests store ----

  lemma {:induction false} BlobInEffects(e: Env, ops: seq<Op>, home: RepoId, data: bytes)
    requires GoodDigests(e) && PutBlob(home, data) in ops
    ensures BlobKey(home, e.digest(data)) in Effects(e, ops) && Effects(e, ops)[BlobKey(home, e.digest(data))] == Blob(data)
  {
    var key := BlobKey(home, e.digest(data));
    if PutBlob(home, data) in ops[1..] {
      BlobInEffects(e, ops[1..], home, data);
    } else {
      assert ops[0] == PutBlob(home, data);
      if key in Effects(e, ops[1..]) {
        KeyHasOp(e, ops[1..], home, data);
      }
    }
  }

  /** A blob key that requests write is written by an upload of that blob. */
  lemma {:induction false} KeyHasOp(e: Env, ops: seq<Op>, home: RepoId, data: bytes)
    requires GoodDigests(e) && BlobKey(home, e.digest(data)) in Effects(e, ops)
    ensures PutBlob(home, data) in ops
  {
    if BlobKey(home, e.digest(data)) in Effect(e, ops[0]) {
      assert ops[0] == PutBlob(home, data);
    } else {
      KeyHasOp(e, ops[1..], home, data);
    }
  }

  lemma {:induction false} LayersOfInputs(e: Env, home: RepoId, inputs: seq<Input>)
    requires LayerOps(e, home, inputs).1.Ok?
    ensures MadeFrom(e, home, inputs, LayerOps(e, home, inputs).1.value, LayerOps(e, home, inputs).0)
  {
    if inputs != [] {
      LayersOfInputs(e, home, inputs[1..]);
      var (ops, layers) := LayerOps(e, home, inputs);
      var (ops', layers') := LayerOps(e, home, inputs[1..]);
      forall i | 0 <= i < |inputs|
        ensures MadeLayer(e, home, inputs[i], layers.value[i], ops)
      {
        if i > 0 {
          assert MadeLayer(e, home, inputs[1..][i - 1], layers'.value[i - 1], ops');
          assert inputs[1..][i - 1] == inputs[i] && layers'.value[i - 1] == layers.value[i];
        }
      }
    }
  }

  lemma {:induction false} UploadsOnly(e: Env, home: RepoId, inputs: seq<Input>)
    ensures forall op :: op in LayerOps(e, home, inputs).0 ==> op.PutBlob?
  {
    if inputs != [] {
      UploadsOnly(e, home, inputs[1..]);
    }
  }

  lemma {:induction false} UploadsMayApply(e: Env, w: World, ops: seq<Op>)
    requires forall op :: op in ops ==> op.PutBlob?
    ensures MayApplyAll(e, w, ops)
    decreases |ops|
  {
    if ops != [] {
      assert ops[0] in ops;
      UploadsMayApply(e, w + Effect(e, ops[0]), ops[1..]);
    }
  }

  lemma {:induction false} MayApplyThen(e: Env, w: World, ops: seq<Op>, last: Op)
    requires MayApplyAll(e, w, ops) && MayApply(e, w + Effects(e, ops), last)
    ensures MayApplyAll(e, w, ops + [last])
    decreases |ops|
  {
    if ops == [] {
      MapEmpty(w);
      assert ops + [last] == [last] && [last][1..] == [];
    } else {
      assert (ops + [last])[1..] == ops[1..] + [last];
      MapAssoc(w, Effect(e, ops[0]), Effects(e, ops[1..]));
      MayApplyThen(e, w + Effect(e, ops[0]), ops[1..], last);
    }
  }

  /** The layers that the inputs make. */
  ghost predicate MadeFrom(e: Env, home: RepoId, inputs: seq<Input>, layers: seq<Descriptor>, ops: seq<Op>) {
    |layers| == |inputs| && forall i :: 0 <= i < |inputs| ==> MadeLayer(e, home, inputs[i], layers[i], ops)
  }

  ghost predicate MadeLayer(e: Env, home: RepoId, i: Input, layer: Descriptor, ops: seq<Op>) {
    && Content(e, i).Some?
    && layer == LayerOf(e, i, Content(e, i).value)
    && PutBlob(home, Content(e, i).value) in ops
  }

  /** Requests that upload the config and the layers put everything in place for the manifest. */
  lemma UploadsStore(e: Env, w: World, ops: seq<Op>, home: RepoId, os: string, arch: string, inputs: seq<Input>, layers: seq<Descriptor>)
    requires GoodDigests(e) && PutBlob(home, e.config(arch, os)) in ops && MadeFrom(e, home, inputs, layers, ops)
    ensures RefersToStored(e, w + Effects(e, ops), home, Manifest(ConfigOf(e, os, arch), layers))
    ensures LayersStored(e, w + Effects(e, ops), home, inputs)
  {
    BlobInEffects(e, ops, home, e.config(arch, os));
    forall i | 0 <= i < |layers|
      ensures MadeLayer(e, home, inputs[i], layers[i], ops) && InputStored(e, w + Effects(e, ops), home, inputs[i])
    {
      assert MadeLayer(e, home, inputs[i], layers[i], ops);
      BlobInEffects(e, ops, home, Content(e, inputs[i]).value);
    }
  }

  predicate InputStored(e: Env, w: World, home: RepoId, i: Input) {
    match Content(e, i)
    case None => false
    case Some(data) => BlobKey(home, e.digest(data)) in w && w[BlobKey(home, e.digest(data))] == Blob(data)
  }

  /** The bytes of every input are stored. */
  ghost predicate LayersStored(e: Env, w: World, home: RepoId, inputs: seq<Input>) {
    forall i :: 0 <= i < |inputs| ==> InputStored(e, w, home, inputs[i])
  }

  /** A plan without an error: its config, its layers and its last request. */
  lemma PlanShape(e: Env, o: Opts)
    requires Plan(e, o).1.Ok?
    ensures e.parse(o.ref).Some? && ParsePlatform(o.platform).Some? && LayerOps(e, Home(e.parse(o.ref).value), Inputs(o)).1.Ok?
    ensures var (os, arch) := ParsePlatform(o.platform).value; var ref := e.parse(o.ref).value;
            var (ops, layers) := LayerOps(e, Home(ref), Inputs(o));
            && Plan(e, o).1.value == Manifest(ConfigOf(e, os, arch), layers.value)
            && Plan(e, o).0 == [PutBlob(Home(ref), e.config(arch, os))] + ops + [PutDoc(Home(ref), ref.reference, Plan(e, o).1.value)]
  {
  }

  lemma MoreOps(e: Env, home: RepoId, inputs: seq<Input>, layers: seq<Descriptor>, ops: seq<Op>, more: seq<Op>)
    requires MadeFrom(e, home, inputs, layers, ops) && forall op :: op in ops ==> op in more
    ensures MadeFrom(e, home, inputs, layers, more)
  {
    forall i | 0 <= i < |inputs|
      ensures MadeLayer(e, home, inputs[i], layers[i], more)
    {
      assert MadeLayer(e, home, inputs[i], layers[i], ops);
    }
  }

  lemma UploadsOfPlan(e: Env, w: World, o: Opts, ops: seq<Op>)
    requires GoodDigests(e) && Plan(e, o).1.Ok?
    requires e.parse(o.ref).Some? && ParsePlatform(o.platform).Some?
    requires var (os, arch) := ParsePlatform(o.platform).value; var home := Home(e.parse(o.ref).value);
             forall op :: op in [PutBlob(home, e.config(arch, os))] + LayerOps(e, home, Inputs(o)).0 ==> op in ops
    ensures var home := Home(e.parse(o.ref).value);
            RefersToStored(e, w + Effects(e, ops), home, Plan(e, o).1.value) && LayersStored(e, w + Effects(e, ops), home, Inputs(o))
  {
    PlanShape(e, o);
    var (os, arch) := ParsePlatform(o.platform).value;
    var home := Home(e.parse(o.ref).value);
    var (ups, layers) := LayerOps(e, home, Inputs(o));
    LayersOfInputs(e, home, Inputs(o));
    MoreOps(e, home, Inputs(o), layers.value, ups, ops);
    UploadsStore(e, w, ops, home, os, arch, Inputs(o), layers.value);
  }

  lemma PlanMayApply(e: Env, w: World, o: Opts)
    requires GoodDigests(e)
    ensures MayApplyAll(e, w, Plan(e, o).0)
  {
    var (ops, outcome) := Plan(e, o);
    if ops != [] {
      var (os, arch) := ParsePlatform(o.platform).value;
      var home := Home(e.parse(o.ref).value);
      var uploads := [PutBlob(home, e.config(arch, os))] + LayerOps(e, home, Inputs(o)).0;
      UploadsOnly(e, home, Inputs(o));
      UploadsMayApply(e, w, uploads);
      if outcome.Ok? {
        UploadsOfPlan(e, w, o, uploads);
        MayApplyThen(e, w, uploads, PutDoc(home, e.parse(o.ref).value.reference, outcome.value));
      }
    }
  }

  /** A run keeps the registry closed at every moment, whichever request fails. */
  lemma RunKeepsClosed(e: Env, f: Schedule, s: State, o: Opts)
    requires GoodDigests(e) && Closed(e, s.world)
    ensures LogClosed(e, s, Run(e, f, s, o).0)
  {
    PlanMayApply(e, s.world, o);
    IssueKeepsClosed(e, f, s, Plan(e, o).0);
  }

  // ---- reading an artifact back ----

  /** The bytes of the layer of a kind, through the manifest under a reference. */
  function ReadLayer(w: World, home: RepoId, layers: seq<Descriptor>, kind: LayerKind): Option<bytes> {
    if layers == [] then None
    else if layers[0].media == LayerMedia(kind) then
      if BlobStored(w, home, layers[0]) then Some(w[BlobKey(home, layers[0].digest)].data) else None
    else ReadLayer(w, home, layers[1..], kind)
  }

  /** What the options give for a kind: nothing, or the bytes of the file or of the command line. */
  function Given(e: Env, o: Opts, kind: LayerKind): Option<bytes> {
    if FlagOf(o, kind) == "" then None else Content(e, InputOf(o, kind))
  }

  lemma {:induction false} ReadLayerAt(w: World, home: RepoId, layers: seq<Descriptor>, kind: LayerKind, i: nat)
    requires i < |layers| && layers[i].media == LayerMedia(kind) && BlobStored(w, home, layers[i])
    requires forall j :: 0 <= j < i ==> layers[j].media != LayerMedia(kind)
    ensures ReadLayer(w, home, layers, kind) == Some(w[BlobKey(home, layers[i].digest)].data)
  {
    if i > 0 {
      ReadLayerAt(w, home, layers[1..], kind, i - 1);
    }
  }

  lemma {:induction false} ReadLayerNone(w: World, home: RepoId, layers: seq<Descriptor>, kind: LayerKind)
    requires forall j :: 0 <= j < |layers| ==> layers[j].media != LayerMedia(kind)
    ensures ReadLayer(w, home, layers, kind) == None
  {
    if layers != [] {
      ReadLayerNone(w, home, layers[1..], kind);
    }
  }

  /** What a run that succeeds leaves under a reference: a manifest that gives every input back. */
  ghost predicate GivesBack(e: Env, w: World, home: RepoId, o: Opts, doc: Doc) {
    && doc.Manifest?
    && RefersToStored(e, w, home, doc)
    && (forall i, j :: 0 <= i < j < |doc.layers| ==>
          doc.layers[i].media.LayerMedia? && doc.layers[j].media.LayerMedia? &&
          Rank(doc.layers[i].media.kind) < Rank(doc.layers[j].media.kind))
    && (forall kind :: ReadLayer(w, home, doc.layers, kind) == Given(e, o, kind))
  }

  lemma LayersGiveBack(e: Env, w: World, home: RepoId, o: Opts, inputs: seq<Input>, layers: seq<Descriptor>, ops: seq<Op>, kind: LayerKind)
    requires InOrder(inputs, o, 7) && MadeFrom(e, home, inputs, layers, ops) && LayersStored(e, w, home, inputs)
    ensures ReadLayer(w, home, layers, kind) == Given(e, o, kind)
  {
    if FlagOf(o, kind) == "" {
      forall j | 0 <= j < |layers|
        ensures layers[j].media != LayerMedia(kind)
      {
        assert MadeLayer(e, home, inputs[j], layers[j], ops);
      }
      ReadLayerNone(w, home, layers, kind);
    } else {
      assert InputOf(o, kind) in inputs;
      var i :| 0 <= i < |inputs| && inputs[i] == InputOf(o, kind);
      assert MadeLayer(e, home, inputs[i], layers[i], ops) && InputStored(e, w, home, inputs[i]);
      forall j | 0 <= j < i
        ensures layers[j].media != LayerMedia(kind)
      {
        assert MadeLayer(e, home, inputs[j], layers[j], ops);
      }
      ReadLayerAt(w, home, layers, kind, i);
    }
  }

  lemma AllGivenBack(e: Env, w: World, home: RepoId, o: Opts, inputs: seq<Input>, ops: seq<Op>, doc: Doc)
    requires InOrder(inputs, o, 7) && doc.Manifest? && MadeFrom(e, home, inputs, doc.layers, ops)
    requires LayersStored(e, w, home, inputs) && RefersToStored(e, w, home, doc)
    ensures GivesBack(e, w, home, o, doc)
  {
    forall i, j | 0 <= i < j < |doc.layers|
      ensures doc.layers[i].media == LayerMedia(KindOf(inputs[i])) && doc.layers[j].media == LayerMedia(KindOf(inputs[j]))
    {
      assert MadeLayer(e, home, inputs[i], doc.layers[i], ops) && MadeLayer(e, home, inputs[j], doc.layers[j], ops);
    }
    forall kind
      ensures ReadLayer(w, home, doc.layers, kind) == Given(e, o, kind)
    {
      LayersGiveBack(e, w, home, o, inputs, doc.layers, ops, kind);
    }
  }

  lemma {:induction false} LastEffectCounts(e: Env, ops: seq<Op>, last: Op, k: Key)
    requires k in Effect(e, last)
    ensures k in Effects(e, ops + [last]) && Effects(e, ops + [last])[k] == Effect(e, last)[k]
  {
    EffectsConcat(e, ops, [last]);
    assert [last][1..] == [];
    MapEmpty(Effect(e, last));
  }

  lemma EarlierEffectStays(e: Env, ops: seq<Op>, last: Op, k: Key)
    requires k !in Effect(e, last)
    ensures k in Effects(e, ops + [last]) <==> k in Effects(e, ops)
    ensures k in Effects(e, ops) ==> Effects(e, ops + [last])[k] == Effects(e, ops)[k]
  {
    EffectsConcat(e, ops, [last]);
    assert [last][1..] == [];
    MapEmpty(Effect(e, last));
  }

  lemma LastPutStored(e: Env, w: World, ops: seq<Op>, home: RepoId, reference: string, doc: Doc)
    requires ops != [] && ops[|ops| - 1] == PutDoc(home, reference, doc) && AllAccepted(e, ops)
    ensures Lookup(e, w + Effects(e, ops), home, reference) == Some(doc)
    ensures Lookup(e, w + Effects(e, ops), home, DocDigest(e, doc)) == Some(doc)
  {
    var last := ops[|ops| - 1];
    assert ops == ops[..|ops| - 1] + [last];
    LastEffectCounts(e, ops[..|ops| - 1], last, DocKey(home, reference));
    LastEffectCounts(e, ops[..|ops| - 1], last, DocKey(home, DocDigest(e, doc)));
  }

  lemma PlanGivesBack(e: Env, w: World, o: Opts)
    requires GoodDigests(e) && Plan(e, o).1.Ok?
    ensures e.parse(o.ref).Some?
    ensures GivesBack(e, w + Effects(e, Plan(e, o).0), Home(e.parse(o.ref).value), o, Plan(e, o).1.value)
  {
    PlanShape(e, o);
    var ops, doc := Plan(e, o).0, Plan(e, o).1.value;
    var home, inputs := Home(e.parse(o.ref).value), Inputs(o);
    UploadsOfPlan(e, w, o, ops);
    LayersOfInputs(e, home, inputs);
    InputsInOrder(o);
    AllGivenBack(e, w + Effects(e, ops), home, o, inputs, LayerOps(e, home, inputs).0, doc);
  }

  /**
    A run that succeeds leaves, under its reference and under the digest, a manifest whose layers are in the fixed
    order, no kind twice, and from which exactly the inputs that were set can be read back, byte for byte.
   */
  lemma ArtifactReadsBack(e: Env, f: Schedule, s: State, o: Opts)
    requires GoodDigests(e) && Run(e, f, s, o).1.Ok?
    ensures e.parse(o.ref).Some?
    ensures var (t, doc) := Run(e, f, s, o); var ref := e.parse(o.ref).value;
            && Lookup(e, t.world, Home(ref), ref.reference) == Some(doc.value)
            && Lookup(e, t.world, Home(ref), DocDigest(e, doc.value)) == Some(doc.value)
            && GivesBack(e, t.world, Home(ref), o, doc.value)
  {
    var ops, doc := Plan(e, o).0, Plan(e, o).1.value;
    PlanShape(e, o);
    var ref := e.parse(o.ref).value;
    IssueAll(e, f, s, ops);
    LastPutStored(e, s.world, ops, Home(ref), ref.reference, doc);
    PlanGivesBack(e, s.world, o);
  }
}

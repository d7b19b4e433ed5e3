/** `push artifact`: the config, then the layers in a fixed order, then the manifest that names them. */
module Artifact {
  import opened Bytes
  import opened Text
  import opened Paths
  import opened Registry
  import opened Wrappers

  datatype Error =
    | MissingPlatform | BadPlatform | NothingToPush | BadReference | ReadFailed(path: string)
    | RequestFailed | NoPlatforms | BadFlag

  datatype Opts = Opts(
    platform: string, kernel: string, initrd: string, modules: string, modloop: string, apkovl: string,
    squashfs: string, cmdline: string, ref: string)

  /** `cliutil.ParsePlatform`: `<os>/<arch>` with neither part empty. */
  function ParsePlatform(s: string): Option<(string, string)> {
    match Cut(s, '/')
    case None => None
    case Some((os, arch)) => if os == "" || arch == "" then None else Some((os, arch))
  }

  /** It accepts exactly the joins of a slash-free system and an architecture, and is their inverse. */
  lemma ParsePlatformExactly(s: string, os: string, arch: string)
    ensures ParsePlatform(s) == Some((os, arch)) <==> s == os + "/" + arch && '/' !in os && os != "" && arch != ""
  {
    CutParts(s, '/');
    if '/' !in os {
      CutJoined(os, arch, '/');
    }
  }

  // ---- the inputs that are set, in their order ----

  datatype Input = FileInput(kind: LayerKind, path: string) | TextInput(text: string)

  function KindOf(i: Input): LayerKind {
    if i.FileInput? then i.kind else Cmdline
  }

  function FileInputs(kind: LayerKind, path: string): seq<Input> {
    if path == "" then [] else [FileInput(kind, path)]
  }

  function TextInputs(text: string): seq<Input> {
    if text == "" then [] else [TextInput(text)]
  }

  function Inputs(o: Opts): seq<Input> {
    FileInputs(Kernel, o.kernel) + FileInputs(Initrd, o.initrd) + FileInputs(Modules, o.modules) +
    FileInputs(Modloop, o.modloop) + FileInputs(Apkovl, o.apkovl) + FileInputs(Squashfs, o.squashfs) +
    TextInputs(o.cmdline)
  }

  function Content(e: Env, i: Input): Option<bytes> {
    match i
    case FileInput(_, path) => e.files(path)
    case TextInput(text) => Some(e.utf8(text))
  }

  function Title(kind: LayerKind): string {
    match kind
    case Kernel => "vmlinuz"
    case Initrd => "initrd"
    case Modules => "modules"
    case Modloop => "modloop"
    case Apkovl => "apkovl"
    case Squashfs => "squashfs"
    case Cmdline => "cmdline"
  }

  const TITLE := "org.opencontainers.image.title"
  const BASENAME := "cloudboot.source.basename"

  function Annotations(i: Input): map<string, string> {
    match i
    case FileInput(kind, path) => map[TITLE := Title(kind), BASENAME := Base(path)]
    case TextInput(_) => map[TITLE := Title(Cmdline)]
  }

  function LayerOf(e: Env, i: Input, data: bytes): Descriptor {
    Descriptor(LayerMedia(KindOf(i)), e.digest(data), |data|, Annotations(i))
  }

  // ---- what a run does ----

  type Uploads = (seq<Op>, Result<seq<Descriptor>, Error>)

  /** One thing after another, unless the first ends in an error. */
  function Join(a: Uploads, b: Uploads): Uploads {
    if a.1.Err? then a else (a.0 + b.0, if b.1.Err? then b.1 else Ok(a.1.value + b.1.value))
  }

  function Upload(e: Env, home: RepoId, i: Input): Uploads {
    match Content(e, i)
    case None => ([], Err(ReadFailed(if i.FileInput? then i.path else "")))
    case Some(data) => ([PutBlob(home, data)], Ok([LayerOf(e, i, data)]))
  }

  /** The uploads for the inputs, up to the first that cannot be read, and the layers when all can. */
  function LayerOps(e: Env, home: RepoId, inputs: seq<Input>): Uploads {
    if inputs == [] then ([], Ok([])) else Join(Upload(e, home, inputs[0]), LayerOps(e, home, inputs[1..]))
  }

  function ConfigOf(e: Env, os: string, arch: string): Descriptor {
    var data := e.config(arch, os);
    Descriptor(ConfigMedia, e.digest(data), |data|, map[])
  }

  /** What a run is to do: an error without any request, or requests followed perhaps by an error. */
  function Plan(e: Env, o: Opts): (seq<Op>, Result<Doc, Error>) {
    if o.platform == "" then ([], Err(MissingPlatform))
    else
      match ParsePlatform(o.platform)
      case None => ([], Err(BadPlatform))
      case Some((os, arch)) =>
        if Inputs(o) == [] then ([], Err(NothingToPush))
        else
          match e.parse(o.ref)
          case None => ([], Err(BadReference))
          case Some(ref) =>
            var config := PutBlob(Home(ref), e.config(arch, os));
            match LayerOps(e, Home(ref), Inputs(o))
            case (ops, Err(err)) => ([config] + ops, Err(err))
            case (ops, Ok(layers)) =>
              var doc := Manifest(ConfigOf(e, os, arch), layers);
              ([config] + ops + [PutDoc(Home(ref), ref.reference, doc)], Ok(doc))
  }

  /** A run: the requests of the plan up to the first that fails. */
  function Run(e: Env, f: Schedule, s: State, o: Opts): (State, Result<Doc, Error>) {
    var (ops, outcome) := Plan(e, o);
    var (t, ok) := Issue(e, f, s, ops);
    (t, if ok then outcome else Err(RequestFailed))
  }

  // ---- the run, request by request ----

  /** The layers of the inputs, pushed one after another. */
  function PushInputs(e: Env, f: Schedule, s: State, home: RepoId, inputs: seq<Input>): (State, Result<seq<Descriptor>, Error>) {
    var (ops, layers) := LayerOps(e, home, inputs);
    var (t, ok) := Issue(e, f, s, ops);
    (t, if ok then layers else Err(RequestFailed))
  }

  lemma JoinAssoc(a: Uploads, b: Uploads, c: Uploads)
    ensures Join(Join(a, b), c) == Join(a, Join(b, c))
  {
    assert (a.0 + b.0) + c.0 == a.0 + (b.0 + c.0);
    if a.1.Ok? && b.1.Ok? && c.1.Ok? {
      assert (a.1.value + b.1.value) + c.1.value == a.1.value + (b.1.value + c.1.value);
    }
  }

  lemma JoinNothing(a: Uploads)
    ensures Join(([], Ok([])), a) == a && Join(a, ([], Ok([]))) == a
  {
    assert [] + a.0 == a.0 && a.0 + [] == a.0;
    if a.1.Ok? {
      assert [] + a.1.value == a.1.value && a.1.value + [] == a.1.value;
    }
  }

  lemma {:induction false} LayerOpsConcat(e: Env, home: RepoId, a: seq<Input>, b: seq<Input>)
    ensures LayerOps(e, home, a + b) == Join(LayerOps(e, home, a), LayerOps(e, home, b))
  {
    if a == [] {
      assert a + b == b;
      JoinNothing(LayerOps(e, home, b));
    } else {
      LayerOpsConcat(e, home, a[1..], b);
      assert (a + b)[1..] == a[1..] + b;
      JoinAssoc(Upload(e, home, a[0]), LayerOps(e, home, a[1..]), LayerOps(e, home, b));
    }
  }

  lemma PushInputsConcat(e: Env, f: Schedule, s: State, home: RepoId, a: seq<Input>, b: seq<Input>)
    ensures var (t, ls) := PushInputs(e, f, s, home, a);
            PushInputs(e, f, s, home, a + b) ==
            if ls.Err? then (t, ls)
            else
              var (u, ls') := PushInputs(e, f, t, home, b);
              (u, if ls'.Err? then ls' else Ok(ls.value + ls'.value))
  {
    LayerOpsConcat(e, home, a, b);
    IssueConcat(e, f, s, LayerOps(e, home, a).0, LayerOps(e, home, b).0);
  }

  /** A file is read and uploaded. */
  method PushFile(server: Server, home: RepoId, path: string, kind: LayerKind) returns (r: Result<Descriptor, Error>)
    requires path != ""
    modifies server
    ensures var (t, ls) := PushInputs(server.env, server.faults, old(server.Now()), home, FileInputs(kind, path));
            server.Now() == t && r.Ok? == ls.Ok? && (r.Ok? ==> ls.value == [r.value]) && (r.Err? ==> ls.error == r.error)
  {
    OneInput(server.env, server.faults, server.Now(), home, FileInput(kind, path));
    match server.env.files(path)
    case None => return Err(ReadFailed(path));
    case Some(data) =>
      var ok := server.UploadBlob(home, data);
      if !ok {
        return Err(RequestFailed);
      }
      r := Ok(Descriptor(LayerMedia(kind), server.env.digest(data), |data|,
                         map[TITLE := Title(kind), BASENAME := Base(path)]));
  }

  lemma OneInput(e: Env, f: Schedule, s: State, home: RepoId, i: Input)
    ensures PushInputs(e, f, s, home, [i]) ==
            match Content(e, i)
            case None => (s, Err(ReadFailed(if i.FileInput? then i.path else "")))
            case Some(data) =>
              var (t, ok) := Send(e, f, s, PutBlob(home, data));
              (t, if ok then Ok([LayerOf(e, i, data)]) else Err(RequestFailed))
  {
    assert [i][1..] == [];
    JoinNothing(Upload(e, home, i));
    assert LayerOps(e, home, [i]) == Upload(e, home, i);
    match Content(e, i)
    case None =>
      assert Issue(e, f, s, []) == (s, true);
    case Some(data) =>
      IssueOne(e, f, s, PutBlob(home, data));
  }

  lemma NoInput(e: Env, f: Schedule, s: State, home: RepoId)
    ensures PushInputs(e, f, s, home, []) == (s, Ok([]))
  {
  }

  /** `add`: nothing for an empty path, else the file as the next layer. */
  method Add(server: Server, home: RepoId, path: string, kind: LayerKind, layers: seq<Descriptor>,
             ghost start: State, ghost done: seq<Input>)
    returns (r: Result<seq<Descriptor>, Error>)
    requires PushInputs(server.env, server.faults, start, home, done) == (server.Now(), Ok(layers))
    modifies server
    ensures PushInputs(server.env, server.faults, start, home, done + FileInputs(kind, path)) == (server.Now(), r)
  {
    PushInputsConcat(server.env, server.faults, start, home, done, FileInputs(kind, path));
    if path == "" {
      NoInput(server.env, server.faults, server.Now(), home);
      assert layers + [] == layers;
      return Ok(layers);
    }
    var d := PushFile(server, home, path, kind);
    match d
    case Err(err) => r := Err(err);
    case Ok(layer) => r := Ok(layers + [layer]);
  }

  lemma PlanInParts(e: Env, f: Schedule, s: State, o: Opts, os: string, arch: string, ref: Ref)
    requires o.platform != "" && ParsePlatform(o.platform) == Some((os, arch)) && Inputs(o) != [] && e.parse(o.ref) == Some(ref)
    ensures var (t, ok) := Send(e, f, s, PutBlob(Home(ref), e.config(arch, os)));
            Run(e, f, s, o) ==
            if !ok then (t, Err(RequestFailed))
            else
              match PushInputs(e, f, t, Home(ref), Inputs(o))
              case (u, Err(err)) => (u, Err(err))
              case (u, Ok(layers)) =>
                var doc := Manifest(ConfigOf(e, os, arch), layers);
                var (v, put) := Send(e, f, u, PutDoc(Home(ref), ref.reference, doc));
                (v, if put then Ok(doc) else Err(RequestFailed))
  {
    var config := PutBlob(Home(ref), e.config(arch, os));
    var (ops, layers) := LayerOps(e, Home(ref), Inputs(o));
    IssueOne(e, f, s, config);
    IssueConcat(e, f, s, [config], ops);
    if layers.Ok? {
      var put := PutDoc(Home(ref), ref.reference, Manifest(ConfigOf(e, os, arch), layers.value));
      IssueConcat(e, f, s, [config] + ops, [put]);
      IssueOne(e, f, Issue(e, f, s, [config] + ops).0, put);
    }
  }

  /** The run as the source performs it. */
  method Push(server: Server, o: Opts) returns (r: Result<Doc, Error>)
    modifies server
    ensures (server.Now(), r) == Run(server.env, server.faults, old(server.Now()), o)
  {
    if o.platform == "" {
      return Err(MissingPlatform);
    }
    var platform := ParsePlatform(o.platform);
    if platform.None? {
      return Err(BadPlatform);
    }
    if o.kernel == "" && o.initrd == "" && o.modules == "" && o.modloop == "" && o.apkovl == "" && o.squashfs == "" && o.cmdline == "" {
      return Err(NothingToPush);
    }
    SomeInput(o);
    var parsed := server.env.parse(o.ref);
    if parsed.None? {
      return Err(BadReference);
    }
    var (os, arch) := platform.value;
    var ref := parsed.value;
    PlanInParts(server.env, server.faults, server.Now(), o, os, arch, ref);
    var data := server.env.config(arch, os);
    var ok := server.UploadBlob(Home(ref), data);
    if !ok {
      return Err(RequestFailed);
    }
    var config := Descriptor(ConfigMedia, server.env.digest(data), |data|, map[]);
    var layers := PushLayers(server, Home(ref), o);
    if layers.Err? {
      return Err(layers.error);
    }
    var doc := Manifest(config, layers.value);
    ok := server.PutManifest(Home(ref), ref.reference, doc);
    r := if ok then Ok(doc) else Err(RequestFailed);
  }

  lemma SomeInput(o: Opts)
    ensures Inputs(o) == [] <==>
            o.kernel == "" && o.initrd == "" && o.modules == "" && o.modloop == "" && o.apkovl == "" && o.squashfs == "" && o.cmdline == ""
  {
  }

  /** The inputs of one flag, by its place in the order. */
  function Part(o: Opts, k: nat): seq<Input> {
    match k
    case 0 => FileInputs(Kernel, o.kernel)
    case 1 => FileInputs(Initrd, o.initrd)
    case 2 => FileInputs(Modules, o.modules)
    case 3 => FileInputs(Modloop, o.modloop)
    case 4 => FileInputs(Apkovl, o.apkovl)
    case 5 => FileInputs(Squashfs, o.squashfs)
    case _ => TextInputs(o.cmdline)
  }

  function InputsUpto(o: Opts, k: nat): seq<Input> {
    if k == 0 then [] else InputsUpto(o, k - 1) + Part(o, k - 1)
  }

  lemma InputsAreAll(o: Opts)
    ensures InputsUpto(o, 7) == Inputs(o)
  {
    assert InputsUpto(o, 1) == [] + Part(o, 0) == Part(o, 0);
    assert InputsUpto(o, 3) == InputsUpto(o, 2) + Part(o, 2);
    assert InputsUpto(o, 5) == InputsUpto(o, 4) + Part(o, 4);
  }

  /** An error in one part is the error of the whole. */
  lemma {:induction false} StopEarly(e: Env, f: Schedule, start: State, now: State, home: RepoId, o: Opts, k: nat, err: Error)
    requires k <= 7 && PushInputs(e, f, start, home, InputsUpto(o, k)) == (now, Err(err))
    ensures PushInputs(e, f, start, home, Inputs(o)) == (now, Err(err))
    decreases 7 - k
  {
    if k == 7 {
      InputsAreAll(o);
    } else {
      PushInputsConcat(e, f, start, home, InputsUpto(o, k), Part(o, k));
      StopEarly(e, f, start, now, home, o, k + 1, err);
    }
  }

  /** The layers, in the fixed order of the source. */
  method PushLayers(server: Server, home: RepoId, o: Opts) returns (r: Result<seq<Descriptor>, Error>)
    modifies server
    ensures (server.Now(), r) == PushInputs(server.env, server.faults, old(server.Now()), home, Inputs(o))
  {
    ghost var start, e, f := server.Now(), server.env, server.faults;
    NoInput(e, f, start, home);
    r := Add(server, home, o.kernel, Kernel, [], start, InputsUpto(o, 0));
    if r.Err? {
      StopEarly(e, f, start, server.Now(), home, o, 1, r.error);
      return;
    }
    r := Add(server, home, o.initrd, Initrd, r.value, start, InputsUpto(o, 1));
    if r.Err? {
      StopEarly(e, f, start, server.Now(), home, o, 2, r.error);
      return;
    }
    r := Add(server, home, o.modules, Modules, r.value, start, InputsUpto(o, 2));
    if r.Err? {
      StopEarly(e, f, start, server.Now(), home, o, 3, r.error);
      return;
    }
    r := Add(server, home, o.modloop, Modloop, r.value, start, InputsUpto(o, 3));
    if r.Err? {
      StopEarly(e, f, start, server.Now(), home, o, 4, r.error);
      return;
    }
    r := Add(server, home, o.apkovl, Apkovl, r.value, start, InputsUpto(o, 4));
    if r.Err? {
      StopEarly(e, f, start, server.Now(), home, o, 5, r.error);
      return;
    }
    r := Add(server, home, o.squashfs, Squashfs, r.value, start, InputsUpto(o, 5));
    if r.Err? {
      StopEarly(e, f, start, server.Now(), home, o, 6, r.error);
      return;
    }
    r := AddText(server, home, o.cmdline, r.value, start, InputsUpto(o, 6));
    InputsAreAll(o);
  }

  /** The command line, when there is one, as the last layer. */
  method AddText(server: Server, home: RepoId, text: string, layers: seq<Descriptor>, ghost start: State, ghost done: seq<Input>)
    returns (r: Result<seq<Descriptor>, Error>)
    requires PushInputs(server.env, server.faults, start, home, done) == (server.Now(), Ok(layers))
    modifies server
    ensures PushInputs(server.env, server.faults, start, home, done + TextInputs(text)) == (server.Now(), r)
  {
    PushInputsConcat(server.env, server.faults, start, home, done, TextInputs(text));
    if text == "" {
      NoInput(server.env, server.faults, server.Now(), home);
      assert layers + [] == layers;
      return Ok(layers);
    }
    OneInput(server.env, server.faults, server.Now(), home, TextInput(text));
    var data := server.env.utf8(text);
    var ok := server.UploadBlob(home, data);
    if !ok {
      return Err(RequestFailed);
    }
    r := Ok(layers + [Descriptor(LayerMedia(Cmdline), server.env.digest(data), |data|, map[TITLE := Title(Cmdline)])]);
  }
}

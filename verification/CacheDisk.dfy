/** One run of the script over a file: in place, as the script does it, against a pure function of the old contents. */
module CacheDisk {
  import opened Bytes
  import opened Codecs
  import opened Layout
  import opened Gpt
  import opened GptBuilder
  import opened Writes
  import opened DiskImage
  import opened Recogniser
  import opened Wrappers
  import Crc32

  datatype Exit = LeftAlone | Created | FormatFailed

  /** What a run is given: the size, the GUIDs it will draw, and the ESP that the FAT tools make (or fail to). */
  datatype Input = Input(sizeMiB: int, disk: Uuid, esp: Uuid, espImage: Option<bytes>)

  predicate ValidInput(r: Input) {
    ValidSize(r.sizeMiB) && (r.espImage.Some? ==> |r.espImage.value| == ShellPlan(r.sizeMiB).espBytes)
  }

  /** The size and the ESP only matter when the file is not recognised: the script exits before it reads them. */
  predicate ValidRun(file: Option<bytes>, r: Input) {
    (file.Some? && Recognised(file.value)) || ValidInput(r)
  }

  /** `truncate -s n`: cut, or extended with zeros. */
  function Resize(s: bytes, n: nat): (r: bytes)
    ensures |r| == n
  {
    if n <= |s| then s[..n] else s + Zeros(n - |s|)
  }

  function Contents(file: Option<bytes>): bytes {
    if file.Some? then file.value else []
  }

  /** What a run that creates the disk leaves in LBA 34..2047: the old bytes there, zeros past the old end. */
  function OldGap(file: Option<bytes>, total: nat): (r: bytes)
    requires ValidTotal(total)
    ensures |r| == 2014 * BLOCK
  {
    Resize(Contents(file), total * BLOCK)[34 * BLOCK..ESP_FIRST * BLOCK]
  }

  lemma InputPlan(r: Input)
    requires ValidInput(r)
    ensures ShellPlan(r.sizeMiB) == IntendedPlan(r.sizeMiB) && ValidTotal(r.sizeMiB * 2048)
  {
    PlanWithoutOverflow(r.sizeMiB);
  }

  function ParamsOf(r: Input): (p: Params)
    requires ValidInput(r) && r.espImage.Some?
    ensures ValidParams(p)
  {
    InputPlan(r);
    Params(ShellPlan(r.sizeMiB).totalBlocks, r.disk, r.esp, r.espImage.value)
  }

  /** A run: recognised files stay, a failing format changes nothing, anything else becomes a cache disk. */
  function RunScript(file: Option<bytes>, r: Input): (Option<bytes>, Exit)
    requires ValidRun(file, r)
  {
    if file.Some? && Recognised(file.value) then (file, LeftAlone)
    else if r.espImage.None? then (file, FormatFailed)
    else (Some(Image(ParamsOf(r), OldGap(file, ParamsOf(r).total))), Created)
  }

  /** A file that is written in place. */
  class DiskFile {
    var content: Option<bytes>
    var pos: nat

    constructor (file: Option<bytes>)
      ensures content == file && pos == 0
    {
      content := file;
      pos := 0;
    }

    method Truncate(n: nat)
      modifies this`content
      ensures content == Some(Resize(Contents(old(content)), n))
    {
      content := Some(Resize(Contents(content), n));
    }

    method Seek(at: nat)
      modifies this`pos
      ensures pos == at
    {
      pos := at;
    }

    /** Writes at the current position, growing the file when the data ends behind it. */
    method Put(data: bytes)
      requires content.Some?
      modifies this
      ensures pos == old(pos) + |data| && content.Some?
      ensures var s := old(content).value;
              content.value == Splice(Resize(s, if |s| < pos then pos else |s|), old(pos), data)
    {
      var s := content.value;
      var end := pos + |data|;
      content := Some(Splice(Resize(s, if |s| < end then end else |s|), pos, data));
      pos := end;
    }

    /** A seek and a write inside the file are one write at that place. */
    method WriteAt(w: Write, ghost s: bytes, ghost done: seq<Write>)
      requires AllFit(done, |s|) && w.End() <= |s| && content == Some(Apply(s, done))
      modifies this
      ensures AllFit(done + [w], |s|) && content == Some(Apply(s, done + [w]))
    {
      ghost var t := Apply(s, done);
      assert Resize(t, |t|) == t;
      Seek(w.at);
      Put(w.data);
      ApplyNext(s, done, w);
    }
  }

  lemma {:induction false} ApplyNext(s: bytes, ws: seq<Write>, w: Write)
    requires AllFit(ws, |s|) && w.End() <= |s|
    ensures AllFit(ws + [w], |s|) && Apply(s, ws + [w]) == Splice(Apply(s, ws), w.at, w.data)
    decreases |ws|
  {
    if ws == [] {
      assert ws + [w] == [w];
      assert Apply(s, [w]) == Apply(Splice(s, w.at, w.data), [w][1..]);
    } else {
      ApplyNext(Splice(s, ws[0].at, ws[0].data), ws[1..], w);
      assert (ws + [w])[1..] == ws[1..] + [w];
    }
  }

  /** The Python part builds the GPT in byte arrays ... */
  method BuildPieces(p: Params) returns (q: Pieces)
    requires ValidParams(p)
    ensures q == PiecesOf(p)
  {
    HeadersAreValid(p);
    var entries := MakeEntries(p.esp, ESP_FIRST, p.total - 34);
    var crc := Crc32.Field(Crc32.Crc(entries[..]));
    var primary := MakeHdr(Header(1, p.total - 1, p.total - 34, p.disk, 2, crc));
    var secondary := MakeHdr(Header(p.total - 1, 1, p.total - 34, p.disk, p.total - 33, crc));
    var mbr := MakeMbr(p.total);
    q := Pieces(mbr[..], primary[..] + Zeros(512 - 92), entries[..], p.espImage, secondary[..] + Zeros(512 - 92));
  }

  /** ... writes each where it belongs, and `dd` stamps the ESP behind them. */
  method WritePieces(file: DiskFile, total: nat, q: Pieces, ghost s: bytes)
    requires RightSizes(total, q) && |s| == total * BLOCK && file.content == Some(s)
    modifies file
    ensures AllFit(PieceWrites(total, q), |s|) && file.content == Some(Apply(s, PieceWrites(total, q)))
  {
    ghost var ws := PieceWrites(total, q);
    file.WriteAt(Write(0, q.mbr), s, []);
    file.WriteAt(Write(512, q.primary), s, [] + [ws[0]]);
    file.WriteAt(Write(2 * BLOCK, q.entries), s, [] + [ws[0]] + [ws[1]]);
    file.WriteAt(Write((total - 33) * BLOCK, q.entries), s, [] + [ws[0]] + [ws[1]] + [ws[2]]);
    file.WriteAt(Write((total - 1) * BLOCK, q.secondary), s, [] + [ws[0]] + [ws[1]] + [ws[2]] + [ws[3]]);
    file.WriteAt(Write(ESP_FIRST * BLOCK, q.esp), s, [] + [ws[0]] + [ws[1]] + [ws[2]] + [ws[3]] + [ws[4]]);
    assert ws == [] + [ws[0]] + [ws[1]] + [ws[2]] + [ws[3]] + [ws[4]] + [ws[5]];
  }

  /** The script. */
  method MakeCacheDisk(file: DiskFile, r: Input) returns (exit: Exit)
    requires ValidRun(file.content, r)
    modifies file
    ensures (file.content, exit) == RunScript(old(file.content), r)
  {
    if file.content.Some? && Recognised(file.content.value) {
      return LeftAlone;
    }
    if r.espImage.None? {
      return FormatFailed;
    }
    InputPlan(r);
    var p := ParamsOf(r);
    file.Truncate(ShellPlan(r.sizeMiB).diskBytes);
    ghost var s := file.content.value;
    var q := BuildPieces(p);
    WritePieces(file, p.total, q, s);
    WritesMakeImage(s, p);
    exit := Created;
  }
}

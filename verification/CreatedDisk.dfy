/** What a run of the script does to a file, in terms of what it is given: its exits, and every byte of a new disk. */
module CreatedDisk {
  import opened Bytes
  import opened CacheDisk
  import opened Codecs
  import opened DiskImage
  import opened Gpt
  import opened Layout
  import opened Recogniser
  import opened RoundTrip
  import opened Runs
  import opened Wrappers

  /** The exits: a recognised file and a failing format leave the file alone, everything else becomes a disk. */
  lemma ExitsExactly(file: Option<bytes>, r: Input)
    requires ValidRun(file, r)
    ensures var (after, exit) := RunScript(file, r);
            && (exit == LeftAlone <==> file.Some? && Recognised(file.value))
            && (exit == FormatFailed <==> !(file.Some? && Recognised(file.value)) && r.espImage.None?)
            && (exit != Created ==> after == file)
            && (exit == Created ==> after.Some? && r.espImage.Some?)
  {
  }

  /** The old byte at `i`, or zero past the end of the old file. */
  function OldByte(file: Option<bytes>, i: nat): byte {
    if file.Some? && i < |file.value| then file.value[i] else 0
  }

  /** The copy of the GPT in block `myLba` is valid, and says what the run was given of a disk of `total` blocks. */
  predicate Says(d: bytes, myLba: nat, altLba: nat, entriesLba: nat, total: int, r: Input) {
    && CopyStrictlyValid(d, myLba) && ReadTable(d, myLba).Some?
    && var t := ReadTable(d, myLba).value;
    && t.revision == 0x1_0000 && t.myLba == myLba && t.altLba == altLba && t.entriesLba == entriesLba
    && t.firstUsable == 34 && t.lastUsable == total - 34 && t.entryCount == 128 && t.entrySize == 128
    && t.disk == r.disk && t.partition.id == r.esp
    && t.partition.kind == [0xC1, 0x2A, 0x73, 0x28, 0xF8, 0x1F, 0x11, 0xD2, 0xBA, 0x4B, 0x00, 0xA0, 0xC9, 0x3E, 0xC9, 0x3B]
    && t.partition.first == 2048 && t.partition.last == total - 34 && t.partition.attributes == 0
    && t.partition.name == Some(CodePoints("cloud-boot-cache"))
    && t.others == Zeros(127 * 128)
  }

  /** A header block: "EFI PART", the revision and the size of the header first, and zeros behind its 92 bytes. */
  predicate HeaderAt(d: bytes, at: nat) {
    && at + 512 <= |d|
    && d[at..at + 16] == [0x45, 0x46, 0x49, 0x20, 0x50, 0x41, 0x52, 0x54, 0, 0, 1, 0, 92, 0, 0, 0]
    && d[at + 92..at + 512] == Zeros(420)
  }

  lemma BlockOfHeader(d: bytes, at: nat, h: Header)
    requires ValidHeader(h) && |HeaderBytes(h)| == HEADER_SIZE && at + BLOCK <= |d| && d[at..at + BLOCK] == HeaderBlock(HeaderBytes(h))
    ensures HeaderAt(d, at)
  {
    var b, block := HeaderBytes(h), HeaderBlock(HeaderBytes(h));
    StartIs();
    HeaderParts(h, b);
    SliceOfPart(d, at, block, 0, 16);
    SliceOfPart(d, at, block, 92, 512);
    assert block[0..16] == b[..16];
    assert block[92..512] == Zeros(420);
  }

  lemma HeaderParts(h: Header, b: bytes)
    requires ValidHeader(h) && b == HeaderBytes(h)
    ensures |b| >= 16 && b[..16] == HeaderStart()
  {
  }

  lemma StartIs()
    ensures HeaderStart() == [0x45, 0x46, 0x49, 0x20, 0x50, 0x41, 0x52, 0x54, 0, 0, 1, 0, 92, 0, 0, 0]
  {
  }

  lemma MbrFront(total: nat)
    requires total > 0
    ensures MbrBytes(total)[..446] == Zeros(446)
  {
    var record := [0x00] + [0x00, 0x02, 0x00] + [0xEE] + [0xFF, 0xFF, 0xFF] + Pack(1, 4) + Pack(MbrBlocks(total), 4);
    assert MbrBytes(total) == Zeros(446) + (record + Zeros(48) + [0x55, 0xAA]);
  }

  lemma GapIsOld(file: Option<bytes>, total: nat, i: nat)
    requires ValidTotal(total) && i < 2014 * BLOCK
    ensures OldGap(file, total)[i] == OldByte(file, 34 * BLOCK + i)
  {
    var s := Contents(file);
    var t := Resize(s, total * BLOCK);
    assert t[34 * BLOCK..ESP_FIRST * BLOCK][i] == t[34 * BLOCK + i];
  }

  lemma SaysParams(d: bytes, p: Params, r: Input, myLba: nat, altLba: nat, entriesLba: nat)
    requires ValidTotal(p.total) && p.disk == r.disk && p.esp == r.esp && CopyStrictlyValid(d, myLba)
    requires ReadTable(d, myLba) == Some(TableOf(p, myLba, altLba, entriesLba))
    ensures Says(d, myLba, altLba, entriesLba, p.total, r)
  {
    assert PARTITION_NAME == "cloud-boot-cache";
  }

  lemma PrimaryHeld(d: bytes, total: nat, q: Pieces, gap: bytes, h: Header)
    requires ValidTotal(total) && |d| == total * BLOCK && Holds(d, total, q, gap)
    requires ValidHeader(h) && |HeaderBytes(h)| == HEADER_SIZE && q.primary == HeaderBlock(HeaderBytes(h))
    ensures HeaderAt(d, 512)
  {
    BlockOfHeader(d, 512, h);
  }

  lemma SecondaryHeld(d: bytes, total: nat, q: Pieces, gap: bytes, h: Header, at: nat)
    requires ValidTotal(total) && |d| == total * BLOCK && Holds(d, total, q, gap) && at == (total - 1) * BLOCK
    requires ValidHeader(h) && |HeaderBytes(h)| == HEADER_SIZE && q.secondary == HeaderBlock(HeaderBytes(h))
    ensures HeaderAt(d, at)
  {
    assert at + BLOCK == total * BLOCK;
    BlockOfHeader(d, at, h);
  }

  lemma BlocksHeld(d: bytes, total: nat, q: Pieces, gap: bytes, p: Header, s: Header)
    requires ValidTotal(total) && |d| == total * BLOCK && Holds(d, total, q, gap)
    requires ValidHeader(p) && |HeaderBytes(p)| == HEADER_SIZE && q.primary == HeaderBlock(HeaderBytes(p))
    requires ValidHeader(s) && |HeaderBytes(s)| == HEADER_SIZE && q.secondary == HeaderBlock(HeaderBytes(s))
    ensures HeaderAt(d, 512) && HeaderAt(d, |d| - 512)
  {
    PrimaryHeld(d, total, q, gap, p);
    SecondaryHeld(d, total, q, gap, s, |d| - 512);
  }

  lemma MbrHeld(d: bytes, total: nat, q: Pieces, gap: bytes)
    requires ValidTotal(total) && |d| == total * BLOCK && Holds(d, total, q, gap) && q.mbr == MbrBytes(total)
    ensures d[..446] == Zeros(446) && MbrProtects(d[..512], total)
  {
    MbrFront(total);
    WrittenMbrProtects(total);
    assert d[..512] == d[0..BLOCK];
    PrefixSlices(d, 512);
  }

  lemma MiddleHeld(d: bytes, total: nat, q: Pieces, gap: bytes)
    requires ValidTotal(total) && |d| == total * BLOCK && Holds(d, total, q, gap)
    ensures d[2048 * 512..|d| - 33 * 512] == q.esp && d[34 * 512..2048 * 512] == gap
  {
    assert |d| - 33 * 512 == (total - 33) * BLOCK;
  }

  /** What every new disk of `total` blocks has: the protective MBR, and two header blocks. */
  predicate Framed(d: bytes, total: nat) {
    && total > 0 && |d| == total * 512
    && d[..446] == Zeros(446) && MbrProtects(d[..512], total)
    && HeaderAt(d, 512) && HeaderAt(d, |d| - 512)
  }

  lemma ImageIsFramed(d: bytes, p: Params, gap: bytes)
    requires IsDiskOf(d, p, gap)
    ensures Framed(d, p.total)
  {
    ImageHolds(p, gap);
    HeadersAreValid(p);
    BlocksHeld(d, p.total, PiecesOf(p), gap, Primary(p), Secondary(p));
    MbrHeld(d, p.total, PiecesOf(p), gap);
  }

  /** What a run puts between its own structures: the formatted image, behind what it leaves of the old file. */
  ghost predicate Filled(d: bytes, file: Option<bytes>, espImage: bytes) {
    && |d| >= 2081 * 512 && d[2048 * 512..|d| - 33 * 512] == espImage
    && forall i :: 34 * 512 <= i < 2048 * 512 ==> d[i] == OldByte(file, i)
  }

  lemma ImageIsFilled(d: bytes, p: Params, gap: bytes, file: Option<bytes>)
    requires IsDiskOf(d, p, gap) && gap == OldGap(file, p.total)
    ensures Filled(d, file, p.espImage)
  {
    ImageHolds(p, gap);
    MiddleHeld(d, p.total, PiecesOf(p), gap);
    GapBytes(file, d, p.total);
  }

  lemma CopiesSay(d: bytes, p: Params, gap: bytes, r: Input)
    requires IsDiskOf(d, p, gap) && p.disk == r.disk && p.esp == r.esp
    ensures Says(d, 1, p.total - 1, 2, p.total, r) && Says(d, p.total - 1, 1, p.total - 33, p.total, r)
  {
    ImageReadsBack(d, p, gap);
    SaysParams(d, p, r, 1, p.total - 1, 2);
    SaysParams(d, p, r, p.total - 1, 1, p.total - 33);
  }

  lemma GapBytes(file: Option<bytes>, d: bytes, total: nat)
    requires ValidTotal(total) && |d| == total * 512 && d[34 * 512..2048 * 512] == OldGap(file, total)
    ensures forall i :: 34 * 512 <= i < 2048 * 512 ==> d[i] == OldByte(file, i)
  {
    forall i | 34 * 512 <= i < 2048 * 512
      ensures d[i] == OldByte(file, i)
    {
      GapIsOld(file, total, i - 34 * 512);
      assert d[i] == d[34 * 512..2048 * 512][i - 34 * 512];
    }
  }

  lemma CreatedIsDisk(file: Option<bytes>, r: Input, d: bytes)
    requires ValidRun(file, r) && RunScript(file, r) == (Some(d), Created)
    ensures ValidInput(r) && r.espImage.Some?
    ensures var p := ParamsOf(r);
            && IsDiskOf(d, p, OldGap(file, p.total)) && p.total == r.sizeMiB * 2048
            && p.disk == r.disk && p.esp == r.esp && p.espImage == r.espImage.value
  {
    InputPlan(r);
  }

  /**
    The disk that a run was asked for, around some ESP: as large as asked, framed as the standard wants it, with what is
    left of the old file in front of the ESP, and both copies of its GPT saying what the run drew.
   */
  ghost predicate AsAsked(d: bytes, file: Option<bytes>, r: Input, esp: bytes) {
    && r.sizeMiB > 1 && |d| == r.sizeMiB * 1024 * 1024 && Framed(d, r.sizeMiB * 2048) && Filled(d, file, esp)
    && Says(d, 1, r.sizeMiB * 2048 - 1, 2, r.sizeMiB * 2048, r)
    && Says(d, r.sizeMiB * 2048 - 1, 1, r.sizeMiB * 2048 - 33, r.sizeMiB * 2048, r)
  }

  lemma ImageIsAsAsked(d: bytes, p: Params, gap: bytes, file: Option<bytes>, r: Input)
    requires IsDiskOf(d, p, gap) && gap == OldGap(file, p.total)
    requires p.total == r.sizeMiB * 2048 && p.disk == r.disk && p.esp == r.esp
    ensures AsAsked(d, file, r, p.espImage)
  {
    ImageIsFramed(d, p, gap);
    ImageIsFilled(d, p, gap, file);
    CopiesSay(d, p, gap, r);
  }

  /** A disk that a run creates is the one that it was asked for, around the formatted image. */
  lemma CreatedExactly(file: Option<bytes>, r: Input, d: bytes)
    requires ValidRun(file, r) && RunScript(file, r) == (Some(d), Created)
    ensures r.espImage.Some? && AsAsked(d, file, r, r.espImage.value)
  {
    CreatedIsDisk(file, r, d);
    var p := ParamsOf(r);
    ImageIsAsAsked(d, p, OldGap(file, p.total), file, r);
  }

  /** Later runs and guest writes leave it the disk that the first run was asked for, around whatever the guest made. */
  lemma StaysAsAsked(file: Option<bytes>, r: Input, d: bytes, evs: seq<Event>) returns (esp: bytes)
    requires ValidRun(file, r) && RunScript(file, r) == (Some(d), Created) && AllEnabled(Some(d), evs)
    ensures After(Some(d), evs).Some? && AsAsked(After(Some(d), evs).value, file, r, esp)
  {
    CreatedIsDisk(file, r, d);
    var p := ParamsOf(r);
    var gap := OldGap(file, p.total);
    esp := EventsKeepDisk(d, p, gap, evs);
    ImageIsAsAsked(After(Some(d), evs).value, p.(espImage := esp), gap, file, r);
  }
}

/**
  What the script promises of a disk that carries a partition of its name, and when it keeps the promise: it looks at
  the first entry of the primary copy only, and at the whole of its name field.
 */
module NamedDisks {
  import opened Bytes
  import opened CacheDisk
  import opened Codecs
  import opened DiskImage
  import opened Gpt
  import opened Layout
  import opened Recogniser
  import opened Redundancy
  import opened RoundTrip
  import opened ShiftRegister
  import opened Wrappers
  import Crc32

  // ---- which valid disks are left alone ----

  /** A disk with a valid primary GPT is left alone exactly when the name field of its first, used partition is accepted. */
  lemma LeftAloneExactly(d: bytes, r: Input)
    requires ReadTable(d, 1).Some? && ValidRun(Some(d), r)
    ensures RunScript(Some(d), r) == (Some(d), LeftAlone) <==> Accepted(ReadTable(d, 1).value.partition)
    ensures RunScript(Some(d), r).1 == LeftAlone <==> Accepted(ReadTable(d, 1).value.partition)
  {
    RecognisedWhenAccepted(d);
  }

  // ---- disks that carry the partition ----

  /** The partition in a slot of the entry array. */
  function PartitionAt(t: Table, slot: nat): Option<Partition> {
    if slot == 0 then Some(t.partition)
    else if ENTRY_SIZE <= t.entrySize && slot * t.entrySize <= |t.others| then
      assert (slot - 1) * t.entrySize + t.entrySize == slot * t.entrySize;
      Some(DecodeEntry(t.others[(slot - 1) * t.entrySize..][..ENTRY_SIZE]))
    else None
  }

  /** A used partition has the name of the script, wherever it is: the disks that the script promises to leave alone. */
  predicate Carries(t: Table, slot: nat) {
    && PartitionAt(t, slot).Some? && PartitionAt(t, slot).value.kind != Zeros(16)
    && PartitionAt(t, slot).value.name == Some(CodePoints(PARTITION_NAME))
  }

  /** The terminator of a name field, if it has one, and what is behind it. */
  function FromNul(field: bytes): bytes {
    field[|BeforeNul(field)|..]
  }

  lemma FieldOfName(field: bytes)
    requires DecodeName(field) == Some(CodePoints(PARTITION_NAME))
    ensures field == NameBytes() + FromNul(field)
  {
    EncodeDecode(BeforeNul(field));
    assert field == BeforeNul(field) + field[|BeforeNul(field)|..];
  }

  /**
    A disk that carries the partition in its first slot is left alone exactly when everything behind the name in its
    field is blank, though the terminator ends the name.
   */
  lemma FirstSlotIsKeptExactly(d: bytes, r: Input)
    requires ReadTable(d, 1).Some? && Carries(ReadTable(d, 1).value, 0) && ValidRun(Some(d), r)
    ensures RunScript(Some(d), r) == (Some(d), LeftAlone) <==> Blank(FromNul(ReadTable(d, 1).value.partition.nameField))
    ensures RunScript(Some(d), r).1 == LeftAlone <==> Blank(FromNul(ReadTable(d, 1).value.partition.nameField))
  {
    var p := ReadTable(d, 1).value.partition;
    FieldOfName(p.nameField);
    AcceptedExactly(p, FromNul(p.nameField));
    LeftAloneExactly(d, r);
  }

  // ---- disks with other entries ----

  function Over(h: Header, entries: bytes): Header {
    h.(entriesCrc := Crc32.Field(Crc32.Crc(entries)))
  }

  lemma HeadersOver(p: Params, entries: bytes)
    requires ValidTotal(p.total)
    ensures ValidHeader(Over(Primary(p), entries)) && |HeaderBytes(Over(Primary(p), entries))| == HEADER_SIZE
    ensures ValidHeader(Over(Secondary(p), entries)) && |HeaderBytes(Over(Secondary(p), entries))| == HEADER_SIZE
  {
    HeadersAreValid(p);
  }

  function PiecesWith(p: Params, entries: bytes): Pieces
    requires ValidTotal(p.total)
  {
    HeadersOver(p, entries);
    Pieces(MbrBytes(p.total), HeaderBlock(HeaderBytes(Over(Primary(p), entries))), entries, p.espImage,
           HeaderBlock(HeaderBytes(Over(Secondary(p), entries))))
  }

  /** A disk of the script, but with those entries in both arrays, under headers that fit them. */
  function DiskWith(p: Params, entries: bytes, gap: bytes): bytes
    requires ValidTotal(p.total)
  {
    Assemble(PiecesWith(p, entries), gap)
  }

  lemma PrimaryInPlace(d: bytes, total: nat, q: Pieces, gap: bytes, h: Header)
    requires ValidTotal(total) && |d| == total * BLOCK && Holds(d, total, q, gap) && |q.entries| == ENTRY_BYTES
    requires ValidHeader(h) && |HeaderBytes(h)| == HEADER_SIZE && q.primary == HeaderBlock(HeaderBytes(h))
    requires h.myLba == 1 && h.entriesLba == 2 && h.entriesCrc == Crc32.Field(Crc32.Crc(q.entries))
    ensures CopyInPlace(d, h, q.entries)
  {
  }

  lemma SecondaryInPlace(d: bytes, total: nat, q: Pieces, gap: bytes, h: Header)
    requires ValidTotal(total) && |d| == total * BLOCK && Holds(d, total, q, gap) && |q.entries| == ENTRY_BYTES
    requires ValidHeader(h) && |HeaderBytes(h)| == HEADER_SIZE && q.secondary == HeaderBlock(HeaderBytes(h))
    requires h.myLba == total - 1 && h.entriesLba == total - 33 && h.entriesCrc == Crc32.Field(Crc32.Crc(q.entries))
    ensures CopyInPlace(d, h, q.entries)
  {
    var first, own := h.entriesLba * BLOCK, h.myLba * BLOCK;
    assert first == (total - 33) * BLOCK && own == (total - 1) * BLOCK == first + ENTRY_BYTES && own + BLOCK == total * BLOCK == |d|;
  }

  /** Both copies of that disk are valid, and say what the entries say. */
  lemma DiskWithReads(p: Params, entries: bytes, gap: bytes)
    requires ValidParams(p) && |entries| == ENTRY_BYTES && |gap| == 2014 * BLOCK
    ensures var d := DiskWith(p, entries, gap);
            && CopyStrictlyValid(d, 1) && CopyStrictlyValid(d, p.total - 1)
            && ReadTable(d, 1) == Some(TableWith(Over(Primary(p), entries), entries))
  {
    var d, q := DiskWith(p, entries, gap), PiecesWith(p, entries);
    HeadersOver(p, entries);
    AssembledHolds(p.total, q, gap);
    PrimaryInPlace(d, p.total, q, gap, Over(Primary(p), entries));
    CopyReads(d, Over(Primary(p), entries), entries);
    SecondaryInPlace(d, p.total, q, gap, Over(Secondary(p), entries));
    CopyReads(d, Over(Secondary(p), entries), entries);
  }

  // ---- the partition in the second slot ----

  /** The entries of a disk of the script, moved up by one slot: the first is unused. */
  function MovedEntries(p: Params): (r: bytes)
    requires ValidTotal(p.total)
    ensures |r| == ENTRY_BYTES
  {
    Zeros(ENTRY_SIZE) + EntryBytes(p.esp, ESP_FIRST, p.total - 34) + Zeros(126 * ENTRY_SIZE)
  }

  lemma MovedSlots(p: Params)
    requires ValidTotal(p.total)
    ensures MovedEntries(p)[..ENTRY_SIZE][..16] == Zeros(16)
    ensures MovedEntries(p)[ENTRY_SIZE..][..ENTRY_SIZE] == EntryBytes(p.esp, ESP_FIRST, p.total - 34)
  {
    Parts(Zeros(ENTRY_SIZE), EntryBytes(p.esp, ESP_FIRST, p.total - 34), Zeros(126 * ENTRY_SIZE));
  }

  lemma UnusedEntry(e: bytes)
    requires |e| == ENTRY_SIZE && e[..16] == Zeros(16)
    ensures DecodeEntry(e).kind == Zeros(16)
  {
    KindIsZero(e[..16]);
  }

  lemma SecondSlot(t: Table, p: Params, e: bytes)
    requires ValidTotal(p.total) && e == EntryBytes(p.esp, ESP_FIRST, p.total - 34)
    requires t.entrySize == ENTRY_SIZE && |t.others| >= ENTRY_SIZE && t.others[..ENTRY_SIZE] == e
    ensures Carries(t, 1)
  {
    assert t.others[0..] == t.others;
    assert PartitionAt(t, 1) == Some(DecodeEntry(e));
    CapacityFacts();
    EntryReadsBack(p.esp, ESP_FIRST, p.total - 34);
    assert ESP_TYPE[0] == 0xC1;
  }

  lemma MovedTable(p: Params, t: Table)
    requires ValidTotal(p.total) && t.partition == DecodeEntry(MovedEntries(p)[..ENTRY_SIZE])
    requires t.others == MovedEntries(p)[ENTRY_SIZE..] && t.entrySize == ENTRY_SIZE
    ensures t.partition.kind == Zeros(16) && Carries(t, 1)
  {
    MovedSlots(p);
    UnusedEntry(MovedEntries(p)[..ENTRY_SIZE]);
    SecondSlot(t, p, t.others[..ENTRY_SIZE]);
  }

  /** Such a disk has two valid copies, and carries the partition in its second slot. */
  lemma MovedDiskIsValid(p: Params, gap: bytes)
    requires ValidParams(p) && |gap| == 2014 * BLOCK
    ensures var d := DiskWith(p, MovedEntries(p), gap);
            && CopyStrictlyValid(d, 1) && CopyStrictlyValid(d, p.total - 1) && ReadTable(d, 1).Some?
            && ReadTable(d, 1).value.partition.kind == Zeros(16) && Carries(ReadTable(d, 1).value, 1)
  {
    DiskWithReads(p, MovedEntries(p), gap);
    MovedTable(p, TableWith(Over(Primary(p), MovedEntries(p)), MovedEntries(p)));
  }

  /** So the promise fails: a valid disk that carries the partition, in its second slot, is overwritten. */
  lemma SecondSlotIsOverwritten(p: Params, gap: bytes, r: Input)
    requires ValidParams(p) && |gap| == 2014 * BLOCK && ValidInput(r) && r.espImage.Some?
    ensures var d := DiskWith(p, MovedEntries(p), gap);
            && CopyStrictlyValid(d, 1) && ReadTable(d, 1).Some? && Carries(ReadTable(d, 1).value, 1)
            && RunScript(Some(d), r) == (Some(Image(ParamsOf(r), OldGap(Some(d), ParamsOf(r).total))), Created)
  {
    MovedDiskIsValid(p, gap);
    LeftAloneExactly(DiskWith(p, MovedEntries(p), gap), r);
  }

  // ---- the partition in the first slot, with something behind its name ----

  /** The entries of a disk of the script, but for the 38 bytes behind the terminator of the name. */
  function TailedEntries(p: Params, tail: bytes): (r: bytes)
    requires ValidTotal(p.total) && |tail| == 38
    ensures |r| == ENTRY_BYTES
  {
    EntryHead(p.esp, ESP_FIRST, p.total - 34) + (NameBytes() + ([0, 0] + tail)) + Zeros(127 * ENTRY_SIZE)
  }

  lemma TailedFields(p: Params, tail: bytes, entry: bytes)
    requires ValidTotal(p.total) && |tail| == 38 && |entry| == ENTRY_SIZE && entry == TailedEntries(p, tail)[..ENTRY_SIZE]
    ensures entry[..16] == BytesLe(ESP_TYPE) && entry[56..] == NameBytes() + ([0, 0] + tail)
  {
    var head, field := EntryHead(p.esp, ESP_FIRST, p.total - 34), NameBytes() + ([0, 0] + tail);
    Parts(head, field, Zeros(127 * ENTRY_SIZE));
    assert entry == head + field;
    PrefixSlices(entry, 56);
    Five(BytesLe(ESP_TYPE), BytesLe(p.esp), Pack(ESP_FIRST, 8), Pack(p.total - 34, 8), Pack(0, 8));
  }

  lemma NamedField(field: bytes, rest: bytes)
    requires field == NameBytes() + rest && |rest| >= 2 && rest[..2] == [0, 0]
    ensures DecodeName(field) == Some(CodePoints(PARTITION_NAME)) && FromNul(field) == rest
  {
    NameReadsBack(rest);
    BeforeNulOfText(CodePoints(PARTITION_NAME), rest);
  }

  lemma TailedTable(p: Params, tail: bytes, t: Table)
    requires ValidTotal(p.total) && |tail| == 38 && t.partition == DecodeEntry(TailedEntries(p, tail)[..ENTRY_SIZE])
    ensures Carries(t, 0) && FromNul(t.partition.nameField) == [0, 0] + tail
  {
    TailedFields(p, tail, TailedEntries(p, tail)[..ENTRY_SIZE]);
    FromBytesLeInverts(ESP_TYPE);
    assert ESP_TYPE[0] == 0xC1;
    assert ([0, 0] + tail)[..2] == [0, 0];
    NamedField(t.partition.nameField, [0, 0] + tail);
  }

  /** Whatever the tail is, such a disk has two valid copies, and carries the partition in its first slot. */
  lemma TailedDiskIsValid(p: Params, tail: bytes, gap: bytes)
    requires ValidParams(p) && |tail| == 38 && |gap| == 2014 * BLOCK
    ensures var d := DiskWith(p, TailedEntries(p, tail), gap);
            && CopyStrictlyValid(d, 1) && CopyStrictlyValid(d, p.total - 1) && ReadTable(d, 1).Some?
            && Carries(ReadTable(d, 1).value, 0) && FromNul(ReadTable(d, 1).value.partition.nameField) == [0, 0] + tail
  {
    DiskWithReads(p, TailedEntries(p, tail), gap);
    TailedTable(p, tail, TableWith(Over(Primary(p), TailedEntries(p, tail)), TailedEntries(p, tail)));
  }

  /** A letter behind the terminator. */
  const LETTER_TAIL: bytes := EncodeChar('x' as nat) + Zeros(36)

  lemma LetterIsNotBlank()
    ensures |LETTER_TAIL| == 38 && !Blank([0, 0] + LETTER_TAIL)
  {
    assert EncodeChar(0) == [0] + Pack(0, 1) == [0, 0];
    DecodeChar(0, LETTER_TAIL);
    DecodeChar('x' as nat, Zeros(36));
    if Decode(LETTER_TAIL).Some? {
      assert Decode([0, 0] + LETTER_TAIL).value[1] == 'x' as nat;
    }
  }

  /** So the promise fails for the first slot too: one letter behind the terminator, and the disk is overwritten. */
  lemma FirstSlotIsOverwritten(p: Params, gap: bytes, r: Input)
    requires ValidParams(p) && |gap| == 2014 * BLOCK && ValidInput(r) && r.espImage.Some?
    ensures var d := DiskWith(p, TailedEntries(p, LETTER_TAIL), gap);
            && CopyStrictlyValid(d, 1) && ReadTable(d, 1).Some? && Carries(ReadTable(d, 1).value, 0)
            && RunScript(Some(d), r) == (Some(Image(ParamsOf(r), OldGap(Some(d), ParamsOf(r).total))), Created)
  {
    TailedDiskIsValid(p, LETTER_TAIL, gap);
    LetterIsNotBlank();
    FirstSlotIsKeptExactly(DiskWith(p, TailedEntries(p, LETTER_TAIL), gap), r);
  }

  // ---- the partition in the secondary copy only ----

  /** Without its signature a file is not recognised. */
  lemma UnsignedIsUnknown(d: bytes)
    requires Read(d, 512, 8) != SIGNATURE
    ensures !Recognised(d)
  {
    ReadOfRead(d, 512, 92, 0, 8);
    NothingPrinted(d);
  }

  lemma SignedImage(d: bytes, p: Params, gap: bytes)
    requires IsDiskOf(d, p, gap)
    ensures |d| >= 1024 && d[512..520] == SIGNATURE
  {
    ImageReadsBack(d, p, gap);
    ImageHolds(p, gap);
    SignedHeader(d);
  }

  lemma SignedHeader(d: bytes)
    requires HeaderValid(ReadHeader(d, 1), 1) && |d| >= 1024
    ensures d[512..520] == SIGNATURE
  {
    ReadOfRead(d, 512, 92, 0, 8);
    ReadSlice(d, 512, 8);
    ReadSlice(ReadHeader(d, 1), 0, 8);
  }

  lemma SignatureDamaged(d: bytes, e: bytes, at: nat, len: nat)
    requires |d| >= 1024 && d[512..520] == SIGNATURE
    requires SameOutside(d, e, at, len) && d != e && 512 <= at && at + len <= 520
    ensures Read(e, 512, 8) != SIGNATURE
  {
    WindowInside(d, e, at, len, 512, 520);
    ReadSlice(e, 512, 8);
  }

  /**
    The secondary copy does not help: of a disk that the script made, with damage to the signature of the primary header,
    the secondary copy still says everything, the partition included, and the disk is overwritten.
   */
  lemma UnsignedDiskIsOverwritten(d: bytes, p: Params, gap: bytes, e: bytes, at: nat, len: nat, r: Input)
    requires IsDiskOf(d, p, gap) && SameOutside(d, e, at, len) && len <= 4 && d != e && 512 <= at && at + len <= 520
    requires ValidInput(r) && r.espImage.Some?
    ensures CopyStrictlyValid(e, p.total - 1) && ReadTable(e, p.total - 1) == Some(TableOf(p, p.total - 1, 1, p.total - 33))
    ensures Carries(ReadTable(e, p.total - 1).value, 0)
    ensures RunScript(Some(e), r) == (Some(Image(ParamsOf(r), OldGap(Some(e), ParamsOf(r).total))), Created)
  {
    SignedImage(d, p, gap);
    SignatureDamaged(d, e, at, len);
    UnsignedIsUnknown(e);
    PrimaryDamage(d, p, gap, e, at, len);
    assert ESP_TYPE[0] == 0xC1;
  }
}

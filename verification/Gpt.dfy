/**
  The structures on the disk as byte strings (what the writer produces), and beside them a validator
  and a decoder written from section 5.3 of the UEFI Specification (what firmware does with them).
 */
module Gpt {
  import opened Bytes
  import opened Codecs
  import opened Layout
  import opened Wrappers
  import Crc32

  const SIGNATURE: bytes := [0x45, 0x46, 0x49, 0x20, 0x50, 0x41, 0x52, 0x54]  // "EFI PART"
  const HEADER_SIZE: nat := 92
  const ENTRY_COUNT: nat := 128
  const ENTRY_SIZE: nat := 128
  const PARTITION_NAME := "cloud-boot-cache"

  /** C12A7328-F81F-11D2-BA4B-00A0C93EC93B */
  const ESP_TYPE: Uuid :=
    [0xC1, 0x2A, 0x73, 0x28, 0xF8, 0x1F, 0x11, 0xD2, 0xBA, 0x4B, 0x00, 0xA0, 0xC9, 0x3E, 0xC9, 0x3B]

  // ---- what is written ----

  /** The fields of a header that differ between runs or between the two copies. */
  datatype Header = Header(myLba: nat, altLba: nat, lastUsable: nat, disk: Uuid, entriesLba: nat, entriesCrc: bytes)

  predicate ValidHeader(h: Header) {
    && |h.entriesCrc| == 4
    && h.myLba < Capacity(8) && h.altLba < Capacity(8) && h.lastUsable < Capacity(8) && h.entriesLba < Capacity(8)
  }

  /** What precedes the header CRC, and what follows it. */
  function HeaderStart(): (r: bytes)
    ensures |r| == 16
  {
    SIGNATURE + Pack(0x1_0000, 4) + Pack(HEADER_SIZE, 4)
  }

  function HeaderPlace(h: Header): (r: bytes)
    ensures |r| == 36
  {
    Zeros(4) + Pack(h.myLba, 8) + Pack(h.altLba, 8) + Pack(34, 8) + Pack(h.lastUsable, 8)
  }

  function HeaderContent(h: Header): (r: bytes)
    ensures |r| == 32 + |h.entriesCrc|
  {
    BytesLe(h.disk) + Pack(h.entriesLba, 8) + Pack(ENTRY_COUNT, 4) + Pack(ENTRY_SIZE, 4) + h.entriesCrc
  }

  function HeaderRest(h: Header): (r: bytes)
    ensures |r| == 68 + |h.entriesCrc|
  {
    HeaderPlace(h) + HeaderContent(h)
  }

  function HeaderWithCrc(h: Header, crc: bytes): bytes {
    HeaderStart() + crc + HeaderRest(h)
  }

  /** The 92 bytes of a header, whose CRC is taken with its own field zeroed. */
  function HeaderBytes(h: Header): bytes {
    HeaderWithCrc(h, Crc32.Field(Crc32.Crc(HeaderWithCrc(h, Zeros(4)))))
  }

  /** The name of the partition, as stored. */
  function NameBytes(): (r: bytes)
    ensures |r| == 32
  {
    EncodeLength(CodePoints(PARTITION_NAME));
    Encode(CodePoints(PARTITION_NAME))
  }

  function EntryHead(esp: Uuid, first: nat, last: nat): (r: bytes)
    ensures |r| == 56
  {
    BytesLe(ESP_TYPE) + BytesLe(esp) + Pack(first, 8) + Pack(last, 8) + Pack(0, 8)
  }

  function EntryBytes(esp: Uuid, first: nat, last: nat): (r: bytes)
    ensures |r| == ENTRY_SIZE
  {
    EntryHead(esp, first, last) + (NameBytes() + Zeros(40))
  }

  /** The entry array: the ESP, and 127 unused entries. */
  function EntryArray(esp: Uuid, first: nat, last: nat): (r: bytes)
    ensures |r| == ENTRY_BYTES
  {
    EntryBytes(esp, first, last) + Zeros(ENTRY_BYTES - ENTRY_SIZE)
  }

  /** The protective MBR of a disk of `total` blocks, section 5.2.3 of the UEFI Specification. */
  function MbrBytes(total: nat): (r: bytes)
    requires total > 0
    ensures |r| == BLOCK
  {
    Zeros(446) + ([0x00] + [0x00, 0x02, 0x00] + [0xEE] + [0xFF, 0xFF, 0xFF] + Pack(1, 4) + Pack(MbrBlocks(total), 4)) +
    Zeros(48) + [0x55, 0xAA]
  }

  /** A header padded to its block. */
  function HeaderBlock(h: bytes): (r: bytes)
    requires |h| == HEADER_SIZE
    ensures |r| == BLOCK
  {
    h + Zeros(BLOCK - HEADER_SIZE)
  }

  // ---- what firmware checks ----

  /** Section 5.2.3: one partition record, of the protective type, over all blocks but the first. */
  predicate MbrProtects(mbr: bytes, total: nat) {
    && |mbr| == BLOCK && mbr[510..] == [0x55, 0xAA]
    && mbr[446] == 0 && mbr[447..450] == [0x00, 0x02, 0x00] && mbr[450] == 0xEE
    && Unpack(mbr[454..458]) == 1
    && Unpack(mbr[458..462]) == (if total - 1 <= 0xFFFF_FFFF then total - 1 else 0xFFFF_FFFF)
    && mbr[462..510] == Zeros(48)
  }

  /** The header with its CRC field zeroed: what the header CRC is taken over. */
  function WithoutCrc(h: bytes): (r: bytes)
    requires |h| == HEADER_SIZE
    ensures |r| == HEADER_SIZE
  {
    h[..16] + Zeros(4) + h[20..]
  }

  /** A header that names `lba` as its own block passes the checks of section 5.3.2. */
  predicate HeaderValid(h: bytes, lba: nat) {
    && |h| == HEADER_SIZE
    && h[..8] == SIGNATURE
    && Unpack(h[12..16]) == HEADER_SIZE
    && h[16..20] == Crc32.Field(Crc32.Crc(WithoutCrc(h)))
    && Unpack(h[24..32]) == lba
  }

  /** Table 5.5 of the specification: the Reserved field must be zero. */
  predicate ReservedIsZero(h: bytes) {
    |h| == HEADER_SIZE && h[20..24] == Zeros(4)
  }

  function EntriesLba(h: bytes): nat
    requires |h| == HEADER_SIZE
  {
    Unpack(h[72..80])
  }

  function EntryCount(h: bytes): nat
    requires |h| == HEADER_SIZE
  {
    Unpack(h[80..84])
  }

  function EntrySize(h: bytes): nat
    requires |h| == HEADER_SIZE
  {
    Unpack(h[84..88])
  }

  /** The entry array that a header points to. */
  function ReadEntries(disk: bytes, h: bytes): bytes
    requires |h| == HEADER_SIZE
  {
    Read(disk, EntriesLba(h) * BLOCK, EntryCount(h) * EntrySize(h))
  }

  predicate EntriesValid(disk: bytes, h: bytes)
    requires |h| == HEADER_SIZE
  {
    && |ReadEntries(disk, h)| == EntryCount(h) * EntrySize(h)
    && h[88..92] == Crc32.Field(Crc32.Crc(ReadEntries(disk, h)))
  }

  function ReadHeader(disk: bytes, lba: nat): bytes {
    Read(disk, lba * BLOCK, HEADER_SIZE)
  }

  /** The GPT whose header is in block `lba` is valid. */
  predicate CopyValid(disk: bytes, lba: nat) {
    var h := ReadHeader(disk, lba);
    HeaderValid(h, lba) && EntriesValid(disk, h)
  }

  /** The GPT whose header is in block `lba` is valid, and its Reserved field is as it must be. */
  predicate CopyStrictlyValid(disk: bytes, lba: nat) {
    CopyValid(disk, lba) && ReservedIsZero(ReadHeader(disk, lba))
  }

  // ---- what firmware reads ----

  datatype Partition = Partition(kind: Uuid, id: Uuid, first: nat, last: nat, attributes: nat, name: Option<text>,
                                 nameField: bytes)

  /** A partition entry, section 5.3.3. */
  function DecodeEntry(e: bytes): Partition
    requires |e| == ENTRY_SIZE
  {
    Partition(FromBytesLe(e[..16]), FromBytesLe(e[16..32]), Unpack(e[32..40]), Unpack(e[40..48]), Unpack(e[48..56]),
              DecodeName(e[56..]), e[56..])
  }

  /** The two-byte units in front of the first one that is zero. */
  function BeforeNul(b: bytes): (r: bytes)
    ensures r <= b
  {
    if |b| < 2 then b else if b[..2] == [0, 0] then [] else b[..2] + BeforeNul(b[2..])
  }

  /** The name in a name field, a NUL-terminated string: whatever is behind the terminator does not matter. */
  function DecodeName(field: bytes): Option<text> {
    Decode(BeforeNul(field))
  }

  /** What one copy of the GPT says of the disk. */
  datatype Table = Table(revision: nat, myLba: nat, altLba: nat, firstUsable: nat, lastUsable: nat, disk: Uuid, entriesLba: nat,
                         entryCount: nat, entrySize: nat, partition: Partition, others: bytes)

  /** The GPT whose header is in block `lba`, if it is valid and has an entry: of 128 bytes, or more for later versions. */
  function ReadTable(disk: bytes, lba: nat): Option<Table> {
    var h := ReadHeader(disk, lba);
    if !CopyValid(disk, lba) || EntrySize(h) < ENTRY_SIZE || |ReadEntries(disk, h)| < EntrySize(h) then None
    else
      Some(Table(Unpack(h[8..12]), Unpack(h[24..32]), Unpack(h[32..40]), Unpack(h[40..48]), Unpack(h[48..56]), FromBytesLe(h[56..72]),
                 EntriesLba(h), EntryCount(h), EntrySize(h),
                 DecodeEntry(ReadEntries(disk, h)[..ENTRY_SIZE]), ReadEntries(disk, h)[EntrySize(h)..]))
  }

  // ---- reading back what was written ----

  /** The parts of a concatenation, by position. */
  lemma Parts(a: bytes, b: bytes, c: bytes)
    ensures (a + b + c)[|a|..|a| + |b|] == b
    ensures (a + b + c)[|a| + |b|..] == c
    ensures (a + b + c)[..|a|] == a
  {
  }

  lemma Five(a: bytes, b: bytes, c: bytes, d: bytes, e: bytes)
    ensures var s := a + b + c + d + e;
            var i, j, k, l := |a|, |a| + |b|, |a| + |b| + |c|, |a| + |b| + |c| + |d|;
            s[..i] == a && s[i..j] == b && s[j..k] == c && s[k..l] == d && s[l..l + |e|] == e && |s| == l + |e|
  {
  }

  lemma SliceOfPart(s: bytes, lo: nat, part: bytes, i: nat, j: nat)
    requires i <= j <= |part| && lo + |part| <= |s| && s[lo..lo + |part|] == part
    ensures s[lo + i..lo + j] == part[i..j]
  {
    forall k | 0 <= k < j - i
      ensures s[lo + i..lo + j][k] == part[i..j][k]
    {
      assert part[i + k] == s[lo..lo + |part|][i + k];
    }
  }

  lemma PrefixSlices(s: bytes, n: nat)
    requires n <= |s|
    ensures forall i, j {:trigger s[i..j]} :: 0 <= i <= j <= n ==> s[i..j] == s[..n][i..j]
    ensures forall j {:trigger s[..j]} :: 0 <= j <= n ==> s[..j] == s[..n][..j]
  {
  }

  lemma HeaderShape(h: Header, crc: bytes)
    requires ValidHeader(h) && |crc| == 4
    ensures var b := HeaderWithCrc(h, crc);
            && |b| == HEADER_SIZE
            && b[..8] == SIGNATURE && b[8..12] == Pack(0x1_0000, 4) && b[12..16] == Pack(HEADER_SIZE, 4)
            && b[16..20] == crc && b[20..24] == Zeros(4)
            && WithoutCrc(b) == HeaderWithCrc(h, Zeros(4))
  {
    var b := HeaderWithCrc(h, crc);
    Parts(HeaderStart(), crc, HeaderRest(h));
    StartFields(b);
    assert b[20..] == HeaderRest(h);
    RestStart(h);
    SliceOfPart(b, 20, HeaderRest(h), 0, 4);
  }

  lemma StartFields(b: bytes)
    requires |b| >= 16 && b[..16] == HeaderStart()
    ensures b[..8] == SIGNATURE && b[8..12] == Pack(0x1_0000, 4) && b[12..16] == Pack(HEADER_SIZE, 4)
  {
    var start := HeaderStart();
    assert start[..8] == SIGNATURE && start[8..12] == Pack(0x1_0000, 4) && start[12..16] == Pack(HEADER_SIZE, 4);
    PrefixSlices(b, 16);
  }

  lemma RestStart(h: Header)
    ensures HeaderRest(h)[..4] == Zeros(4)
  {
    Five(Zeros(4), Pack(h.myLba, 8), Pack(h.altLba, 8), Pack(34, 8), Pack(h.lastUsable, 8));
    assert HeaderPlace(h)[..4] == Zeros(4);
  }

  lemma PlaceFields(h: Header, b: bytes)
    requires |b| == HEADER_SIZE && b[20..56] == HeaderPlace(h)
    ensures b[24..32] == Pack(h.myLba, 8) && b[32..40] == Pack(h.altLba, 8) && b[40..48] == Pack(34, 8)
    ensures b[48..56] == Pack(h.lastUsable, 8)
  {
    var part := HeaderPlace(h);
    Five(Zeros(4), Pack(h.myLba, 8), Pack(h.altLba, 8), Pack(34, 8), Pack(h.lastUsable, 8));
    SliceOfPart(b, 20, part, 4, 12);
    SliceOfPart(b, 20, part, 12, 20);
    SliceOfPart(b, 20, part, 20, 28);
    SliceOfPart(b, 20, part, 28, 36);
  }

  lemma ContentFields(h: Header, b: bytes)
    requires |b| == HEADER_SIZE && |h.entriesCrc| == 4 && b[56..92] == HeaderContent(h)
    ensures b[56..72] == BytesLe(h.disk) && b[72..80] == Pack(h.entriesLba, 8)
    ensures b[80..84] == Pack(ENTRY_COUNT, 4) && b[84..88] == Pack(ENTRY_SIZE, 4) && b[88..92] == h.entriesCrc
  {
    var part := HeaderContent(h);
    Five(BytesLe(h.disk), Pack(h.entriesLba, 8), Pack(ENTRY_COUNT, 4), Pack(ENTRY_SIZE, 4), h.entriesCrc);
    SliceOfPart(b, 56, part, 0, 16);
    SliceOfPart(b, 56, part, 16, 24);
    SliceOfPart(b, 56, part, 24, 28);
    SliceOfPart(b, 56, part, 28, 32);
    SliceOfPart(b, 56, part, 32, 36);
  }

  lemma FourParts(a: bytes, b: bytes, c: bytes, d: bytes)
    ensures var s := a + b + (c + d);
            var i, j := |a| + |b|, |a| + |b| + |c|;
            |s| == j + |d| && s[i..j] == c && s[j..j + |d|] == d
  {
  }

  lemma HeaderFields(h: Header, crc: bytes)
    requires ValidHeader(h) && |crc| == 4
    ensures var b := HeaderWithCrc(h, crc);
            && |b| == HEADER_SIZE
            && b[24..32] == Pack(h.myLba, 8) && b[32..40] == Pack(h.altLba, 8) && b[40..48] == Pack(34, 8)
            && b[48..56] == Pack(h.lastUsable, 8) && b[56..72] == BytesLe(h.disk) && b[72..80] == Pack(h.entriesLba, 8)
            && b[80..84] == Pack(ENTRY_COUNT, 4) && b[84..88] == Pack(ENTRY_SIZE, 4) && b[88..92] == h.entriesCrc
  {
    var b := HeaderWithCrc(h, crc);
    FourParts(HeaderStart(), crc, HeaderPlace(h), HeaderContent(h));
    PlaceFields(h, b);
    ContentFields(h, b);
  }

  lemma RecordFields(first: bytes, blocks: bytes)
    requires |first| == |blocks| == 4
    ensures var r := [0x00] + [0x00, 0x02, 0x00] + [0xEE] + [0xFF, 0xFF, 0xFF] + first + blocks;
            |r| == 16 && r[0] == 0 && r[1..4] == [0x00, 0x02, 0x00] && r[4] == 0xEE && r[8..12] == first && r[12..16] == blocks
  {
  }

  /** The written MBR protects the whole disk. */
  lemma WrittenMbrProtects(total: nat)
    requires total > 0
    ensures MbrProtects(MbrBytes(total), total)
  {
    var first, blocks := Pack(1, 4), Pack(MbrBlocks(total), 4);
    var record := [0x00] + [0x00, 0x02, 0x00] + [0xEE] + [0xFF, 0xFF, 0xFF] + first + blocks;
    RecordFields(first, blocks);
    Five(Zeros(446), record, Zeros(48), [0x55, 0xAA], []);
    var mbr := MbrBytes(total);
    assert mbr == Zeros(446) + record + Zeros(48) + [0x55, 0xAA] + [];
    SliceOfPart(mbr, 446, record, 1, 4);
    SliceOfPart(mbr, 446, record, 8, 12);
    SliceOfPart(mbr, 446, record, 12, 16);
    assert mbr[446] == mbr[446..462][0] && mbr[450] == mbr[446..462][4];
    CapacityFacts();
    UnpackPack(1, 4);
    UnpackPack(MbrBlocks(total), 4);
  }

  /** A written header is valid in the block it names, and its fields read back as they were. */
  lemma WrittenHeaderValid(h: Header)
    requires ValidHeader(h)
    ensures var b := HeaderBytes(h);
            && HeaderValid(b, h.myLba) && ReservedIsZero(b)
            && Unpack(b[8..12]) == 0x1_0000 && Unpack(b[24..32]) == h.myLba && Unpack(b[32..40]) == h.altLba && Unpack(b[40..48]) == 34
            && Unpack(b[48..56]) == h.lastUsable && FromBytesLe(b[56..72]) == h.disk && EntriesLba(b) == h.entriesLba
            && EntryCount(b) == ENTRY_COUNT && EntrySize(b) == ENTRY_SIZE && b[88..92] == h.entriesCrc
  {
    var crc := Crc32.Field(Crc32.Crc(HeaderWithCrc(h, Zeros(4))));
    HeaderShape(h, crc);
    HeaderFields(h, crc);
    CapacityFacts();
    UnpackPack(0x1_0000, 4);
    UnpackPack(HEADER_SIZE, 4);
    UnpackPack(h.myLba, 8);
    UnpackPack(h.altLba, 8);
    UnpackPack(34, 8);
    UnpackPack(h.lastUsable, 8);
    UnpackPack(h.entriesLba, 8);
    UnpackPack(ENTRY_COUNT, 4);
    UnpackPack(ENTRY_SIZE, 4);
    FromBytesLeInverts(h.disk);
  }

  lemma EntryFields(esp: Uuid, first: nat, last: nat)
    ensures var e := EntryBytes(esp, first, last);
            && e[..16] == BytesLe(ESP_TYPE) && e[16..32] == BytesLe(esp) && e[32..40] == Pack(first, 8)
            && e[40..48] == Pack(last, 8) && e[48..56] == Pack(0, 8) && e[56..] == NameBytes() + Zeros(40)
  {
    var e := EntryBytes(esp, first, last);
    var left, right := EntryHead(esp, first, last), NameBytes() + Zeros(40);
    Five(BytesLe(ESP_TYPE), BytesLe(esp), Pack(first, 8), Pack(last, 8), Pack(0, 8));
    assert e == left + right && e[..56] == left && e[56..] == right;
    PrefixSlices(e, 56);
  }

  lemma ConcatAssoc(a: bytes, b: bytes, c: bytes)
    ensures (a + b) + c == a + (b + c)
  {
  }

  lemma PastUnit(n: nat, rest: bytes)
    requires 0 < n < 0x1_0000
    ensures BeforeNul(Pack(n, 2) + rest) == Pack(n, 2) + BeforeNul(rest)
  {
    UnitOfPack(n, rest);
    assert (Pack(n, 2) + rest)[..2] == Pack(n, 2);
    assert Unpack([0, 0]) == 0;
  }

  lemma PastChar(c: nat, rest: bytes)
    requires 0 < c && Scalar(c)
    ensures BeforeNul(EncodeChar(c) + rest) == EncodeChar(c) + BeforeNul(rest)
  {
    if c < 0x1_0000 {
      PastUnit(c, rest);
    } else {
      var hi, lo := 0xD800 + (c - 0x1_0000) / 0x400, 0xDC00 + (c - 0x1_0000) % 0x400;
      ConcatAssoc(Pack(hi, 2), Pack(lo, 2), rest);
      PastUnit(hi, Pack(lo, 2) + rest);
      PastUnit(lo, rest);
      ConcatAssoc(Pack(hi, 2), Pack(lo, 2), BeforeNul(rest));
    }
  }

  /** A text without NULs is all in front of the terminator. */
  lemma {:induction false} BeforeNulOfText(t: text, rest: bytes)
    requires Scalars(t) && 0 !in t && |rest| >= 2 && rest[..2] == [0, 0]
    ensures BeforeNul(Encode(t) + rest) == Encode(t)
  {
    if t == [] {
      assert Encode(t) + rest == rest;
    } else {
      BeforeNulOfText(t[1..], rest);
      ConcatAssoc(EncodeChar(t[0]), Encode(t[1..]), rest);
      PastChar(t[0], Encode(t[1..]) + rest);
    }
  }

  /** The name reads back whatever is behind its terminator. */
  lemma NameReadsBack(rest: bytes)
    requires |rest| >= 2 && rest[..2] == [0, 0]
    ensures DecodeName(NameBytes() + rest) == Some(CodePoints(PARTITION_NAME))
  {
    BeforeNulOfText(CodePoints(PARTITION_NAME), rest);
    DecodeEncode(CodePoints(PARTITION_NAME));
  }

  lemma EntryReadsBack(esp: Uuid, first: nat, last: nat)
    requires first < Capacity(8) && last < Capacity(8)
    ensures DecodeEntry(EntryBytes(esp, first, last))
         == Partition(ESP_TYPE, esp, first, last, 0, Some(CodePoints(PARTITION_NAME)), NameBytes() + Zeros(40))
  {
    EntryFields(esp, first, last);
    FromBytesLeInverts(ESP_TYPE);
    FromBytesLeInverts(esp);
    UnpackPack(first, 8);
    UnpackPack(last, 8);
    UnpackPack(0, 8);
    NameReadsBack(Zeros(40));
  }
}

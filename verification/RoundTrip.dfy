/** Reading the disk back through either copy of its GPT gives what was put in. */
module RoundTrip {
  import opened Bytes
  import opened Codecs
  import opened Layout
  import opened Gpt
  import opened DiskImage
  import opened Wrappers
  import Crc32

  /** What both copies say of the disk of `p`, except where they are themselves. */
  function TableOf(p: Params, myLba: nat, altLba: nat, entriesLba: nat): Table
    requires ValidTotal(p.total)
  {
    Table(0x1_0000, myLba, altLba, 34, p.total - 34, p.disk, entriesLba, ENTRY_COUNT, ENTRY_SIZE,
          Partition(ESP_TYPE, p.esp, ESP_FIRST, p.total - 34, 0, Some(CodePoints(PARTITION_NAME)), NameBytes() + Zeros(40)),
          Zeros(127 * ENTRY_SIZE))
  }

  lemma ReadInside(d: bytes, lo: nat, hi: nat, n: nat)
    requires lo <= hi <= |d| && n <= hi - lo
    ensures Read(d, lo, n) == d[lo..hi][..n]
  {
  }

  lemma BlockHeader(b: bytes)
    requires |b| == HEADER_SIZE
    ensures HeaderBlock(b)[..HEADER_SIZE] == b
  {
  }

  lemma ArrayHead(esp: Uuid, first: nat, last: nat)
    ensures EntryArray(esp, first, last)[..ENTRY_SIZE] == EntryBytes(esp, first, last)
    ensures EntryArray(esp, first, last)[ENTRY_SIZE..] == Zeros(127 * ENTRY_SIZE)
  {
  }

  /** A written copy: its header block in place, and any entries where the header says they are, under their CRC. */
  predicate CopyInPlace(d: bytes, h: Header, entries: bytes) {
    && ValidHeader(h) && |HeaderBytes(h)| == HEADER_SIZE && (h.myLba + 1) * BLOCK <= |d|
    && d[h.myLba * BLOCK..(h.myLba + 1) * BLOCK] == HeaderBlock(HeaderBytes(h))
    && |entries| == ENTRY_BYTES && h.entriesLba * BLOCK + ENTRY_BYTES <= |d|
    && d[h.entriesLba * BLOCK..h.entriesLba * BLOCK + ENTRY_BYTES] == entries
    && h.entriesCrc == Crc32.Field(Crc32.Crc(entries))
  }

  /** What such a copy says. */
  function TableWith(h: Header, entries: bytes): Table
    requires |entries| == ENTRY_BYTES
  {
    Table(0x1_0000, h.myLba, h.altLba, 34, h.lastUsable, h.disk, h.entriesLba, ENTRY_COUNT, ENTRY_SIZE,
          DecodeEntry(entries[..ENTRY_SIZE]), entries[ENTRY_SIZE..])
  }

  lemma CopyReads(d: bytes, h: Header, entries: bytes)
    requires CopyInPlace(d, h, entries)
    ensures ReadHeader(d, h.myLba) == HeaderBytes(h) && ReadEntries(d, HeaderBytes(h)) == entries
    ensures CopyStrictlyValid(d, h.myLba) && ReadTable(d, h.myLba) == Some(TableWith(h, entries))
  {
    ReadInside(d, h.myLba * BLOCK, (h.myLba + 1) * BLOCK, HEADER_SIZE);
    BlockHeader(HeaderBytes(h));
    WrittenHeaderValid(h);
    TableFromHeader(d, h, HeaderBytes(h), entries);
  }

  /** The table that a header and the entries make. */
  lemma TableFromHeader(d: bytes, h: Header, b: bytes, entries: bytes)
    requires ReadHeader(d, h.myLba) == b
    requires HeaderValid(b, h.myLba) && ReservedIsZero(b)
    requires Unpack(b[8..12]) == 0x1_0000 && Unpack(b[24..32]) == h.myLba && Unpack(b[32..40]) == h.altLba && Unpack(b[40..48]) == 34
    requires Unpack(b[48..56]) == h.lastUsable && FromBytesLe(b[56..72]) == h.disk && EntriesLba(b) == h.entriesLba
    requires EntryCount(b) == ENTRY_COUNT && EntrySize(b) == ENTRY_SIZE && b[88..92] == h.entriesCrc
    requires |entries| == ENTRY_BYTES && h.entriesLba * BLOCK + ENTRY_BYTES <= |d|
    requires d[h.entriesLba * BLOCK..h.entriesLba * BLOCK + ENTRY_BYTES] == entries
    requires h.entriesCrc == Crc32.Field(Crc32.Crc(entries))
    ensures ReadEntries(d, b) == entries && CopyStrictlyValid(d, h.myLba)
    ensures ReadTable(d, h.myLba) == Some(TableWith(h, entries))
  {
    assert ReadEntries(d, b) == entries;
  }

  /** One copy of the disk of `p`. */
  lemma CopyReadsBack(d: bytes, p: Params, h: Header)
    requires ValidTotal(p.total) && CopyInPlace(d, h, Entries(p)) && h.disk == p.disk && h.lastUsable == p.total - 34
    ensures ReadHeader(d, h.myLba) == HeaderBytes(h) && ReadEntries(d, HeaderBytes(h)) == Entries(p)
    ensures CopyStrictlyValid(d, h.myLba)
    ensures ReadTable(d, h.myLba) == Some(TableOf(p, h.myLba, h.altLba, h.entriesLba))
  {
    CopyReads(d, h, Entries(p));
    CapacityFacts();
    ArrayHead(p.esp, ESP_FIRST, p.total - 34);
    EntryReadsBack(p.esp, ESP_FIRST, p.total - 34);
  }

  /** The disk of `p`, with whatever is in the gap and in the ESP. */
  ghost predicate IsDiskOf(d: bytes, p: Params, gap: bytes) {
    ValidParams(p) && |gap| == 2014 * BLOCK && d == Image(p, gap)
  }

  lemma PrimaryReadsBack(d: bytes, p: Params, gap: bytes)
    requires ValidParams(p) && |d| == p.total * BLOCK && Holds(d, p.total, PiecesOf(p), gap)
    ensures ReadHeader(d, 1) == HeaderBytes(Primary(p)) && |HeaderBytes(Primary(p))| == HEADER_SIZE
    ensures ReadEntries(d, HeaderBytes(Primary(p))) == Entries(p)
    ensures CopyStrictlyValid(d, 1)
    ensures ReadTable(d, 1) == Some(TableOf(p, 1, p.total - 1, 2))
  {
    HeadersAreValid(p);
    CopyReadsBack(d, p, Primary(p));
  }

  lemma SecondaryReadsBack(d: bytes, p: Params, gap: bytes)
    requires ValidParams(p) && |d| == p.total * BLOCK && Holds(d, p.total, PiecesOf(p), gap)
    ensures ReadHeader(d, p.total - 1) == HeaderBytes(Secondary(p)) && |HeaderBytes(Secondary(p))| == HEADER_SIZE
    ensures ReadEntries(d, HeaderBytes(Secondary(p))) == Entries(p)
    ensures CopyStrictlyValid(d, p.total - 1)
    ensures ReadTable(d, p.total - 1) == Some(TableOf(p, p.total - 1, 1, p.total - 33))
  {
    HeadersAreValid(p);
    CopyReadsBack(d, p, Secondary(p));
  }

  /** Both copies of every image are valid and decode to the parameters, each naming the other and its own entries. */
  lemma ImageReadsBack(d: bytes, p: Params, gap: bytes)
    requires IsDiskOf(d, p, gap)
    ensures CopyStrictlyValid(d, 1) && ReadTable(d, 1) == Some(TableOf(p, 1, p.total - 1, 2))
    ensures CopyStrictlyValid(d, p.total - 1)
    ensures ReadTable(d, p.total - 1) == Some(TableOf(p, p.total - 1, 1, p.total - 33))
  {
    ImageHolds(p, gap);
    PrimaryReadsBack(d, p, gap);
    SecondaryReadsBack(d, p, gap);
  }
}

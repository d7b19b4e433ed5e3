/** The Python part of the script that fills the byte arrays of the GPT, slice by slice. */
module GptBuilder {
  import opened Bytes
  import opened Codecs
  import opened Layout
  import opened Gpt
  import Crc32

  /** `a[at:at + len(b)] = b`, for a slice inside the array. */
  method SetSlice(a: array<byte>, at: nat, b: bytes)
    requires at + |b| <= a.Length
    modifies a
    ensures a[..] == Splice(old(a[..]), at, b)
  {
    forall i | 0 <= i < |b| {
      a[at + i] := b[i];
    }
  }

  /** `a[at:at + len(b)] = b`, where the array is filled up to `at`: with `front`, and with `part` behind it. */
  method FillNext(a: array<byte>, at: nat, ghost front: bytes, ghost part: bytes, b: bytes)
    requires at == |front| + |part| && at + |b| <= a.Length
    requires a[..at] == front + part
    modifies a
    ensures a[..at + |b|] == front + (part + b)
    ensures forall i :: at + |b| <= i < a.Length ==> a[i] == old(a[i])
  {
    SetSlice(a, at, b);
  }

  lemma {:induction false} PackZero(k: nat)
    ensures Pack(0, k) == Zeros(k)
  {
    if k > 0 {
      PackZero(k - 1);
      assert [0] + Zeros(k - 1) == Zeros(k);
    }
  }

  lemma HeaderAssembled(h: Header)
    ensures (HeaderStart() + Zeros(4) + HeaderPlace(h)) + HeaderContent(h) == HeaderWithCrc(h, Zeros(4))
  {
  }

  /** The CRC goes into the field that was zero. */
  lemma FillCrc(h: Header, crc: bytes)
    requires ValidHeader(h) && |crc| == 4
    ensures |HeaderWithCrc(h, Zeros(4))| == HEADER_SIZE
    ensures Splice(HeaderWithCrc(h, Zeros(4)), 16, crc) == HeaderWithCrc(h, crc)
  {
    var b := HeaderWithCrc(h, Zeros(4));
    Parts(HeaderStart(), Zeros(4), HeaderRest(h));
    assert b[..16] == HeaderStart() && b[20..] == HeaderRest(h);
  }

  /** `bytearray(n)` */
  method ZeroArray(n: nat) returns (a: array<byte>)
    ensures fresh(a) && a[..] == Zeros(n)
  {
    a := new byte[n](_ => 0);
  }

  /** The first part of `make_hdr`: up to the last usable block. */
  method FillPlace(h: array<byte>, hdr: Header)
    requires h.Length == HEADER_SIZE
    modifies h
    ensures h[..56] == HeaderStart() + Zeros(4) + HeaderPlace(hdr)
  {
    FillNext(h, 0, [], [], SIGNATURE);
    FillNext(h, 8, [], SIGNATURE, Pack(0x1_0000, 4));
    FillNext(h, 12, [], SIGNATURE + Pack(0x1_0000, 4), Pack(92, 4));
    PackZero(4);
    FillNext(h, 16, HeaderStart(), [], Pack(0, 4));
    ghost var front, part := HeaderStart() + Zeros(4), Zeros(4);
    assert h[..20] == front + [];
    FillNext(h, 20, front, [], Zeros(4));
    FillNext(h, 24, front, part, Pack(hdr.myLba, 8));
    part := part + Pack(hdr.myLba, 8);
    FillNext(h, 32, front, part, Pack(hdr.altLba, 8));
    part := part + Pack(hdr.altLba, 8);
    FillNext(h, 40, front, part, Pack(34, 8));
    part := part + Pack(34, 8);
    FillNext(h, 48, front, part, Pack(hdr.lastUsable, 8));
  }

  /** The second part: from the disk GUID to the CRC of the entries. */
  method FillContent(h: array<byte>, hdr: Header)
    requires h.Length == HEADER_SIZE && |hdr.entriesCrc| == 4
    modifies h
    ensures h[..] == old(h[..56]) + HeaderContent(hdr)
  {
    ghost var front, part := h[..56], BytesLe(hdr.disk);
    assert h[..56] == front + [];
    FillNext(h, 56, front, [], BytesLe(hdr.disk));
    FillNext(h, 72, front, part, Pack(hdr.entriesLba, 8));
    part := part + Pack(hdr.entriesLba, 8);
    FillNext(h, 80, front, part, Pack(ENTRY_COUNT, 4));
    part := part + Pack(ENTRY_COUNT, 4);
    FillNext(h, 84, front, part, Pack(ENTRY_SIZE, 4));
    part := part + Pack(ENTRY_SIZE, 4);
    FillNext(h, 88, front, part, hdr.entriesCrc);
    assert h[..] == h[..92];
  }

  /** `make_hdr`: every field in place, then the CRC over the result. */
  method MakeHdr(hdr: Header) returns (h: array<byte>)
    requires ValidHeader(hdr)
    ensures fresh(h) && h[..] == HeaderBytes(hdr)
  {
    h := ZeroArray(92);
    FillPlace(h, hdr);
    FillContent(h, hdr);
    HeaderAssembled(hdr);
    var crc := Crc32.Field(Crc32.Crc(h[..]));
    SetSlice(h, 16, crc);
    FillCrc(hdr, crc);
  }

  lemma SpliceFront(b: bytes, n: nat)
    requires |b| <= n
    ensures Splice(Zeros(n), 0, b) == b + Zeros(n - |b|)
  {
  }

  /** The entry array with its single entry. */
  method MakeEntries(esp: Uuid, first: nat, last: nat) returns (entries: array<byte>)
    ensures fresh(entries) && entries[..] == EntryArray(esp, first, last)
  {
    var e := MakeEntry(esp, first, last);
    entries := ZeroArray(ENTRY_BYTES);
    SetSlice(entries, 0, e[..]);
    SpliceFront(e[..], ENTRY_BYTES);
  }

  method FillEntryHead(e: array<byte>, esp: Uuid, first: nat, last: nat)
    requires e.Length == ENTRY_SIZE && e[..] == Zeros(ENTRY_SIZE)
    modifies e
    ensures e[..] == EntryHead(esp, first, last) + Zeros(72)
  {
    ghost var part := BytesLe(ESP_TYPE);
    FillNext(e, 0, [], [], BytesLe(ESP_TYPE));
    FillNext(e, 16, [], part, BytesLe(esp));
    part := part + BytesLe(esp);
    FillNext(e, 32, [], part, Pack(first, 8));
    part := part + Pack(first, 8);
    FillNext(e, 40, [], part, Pack(last, 8));
    part := part + Pack(last, 8);
    FillNext(e, 48, [], part, Pack(0, 8));
    assert e[..56] == EntryHead(esp, first, last);
    assert e[..] == e[..56] + Zeros(72);
  }

  lemma SpliceBehind(front: bytes, b: bytes, n: nat)
    requires |b| <= n
    ensures Splice(front + Zeros(n), |front|, b) == front + (b + Zeros(n - |b|))
  {
  }

  method MakeEntry(esp: Uuid, first: nat, last: nat) returns (e: array<byte>)
    ensures fresh(e) && e[..] == EntryBytes(esp, first, last)
  {
    e := ZeroArray(ENTRY_SIZE);
    FillEntryHead(e, esp, first, last);
    SetSlice(e, 56, NameBytes());
    SpliceBehind(EntryHead(esp, first, last), NameBytes(), 72);
  }

  method MakeMbr(total: nat) returns (mbr: array<byte>)
    requires total > 0
    ensures fresh(mbr) && mbr[..] == MbrBytes(total)
  {
    mbr := ZeroArray(BLOCK);
    ghost var front, part := Zeros(446), [0x00];
    assert mbr[..446] == front + [];
    FillNext(mbr, 446, front, [], [0x00]);
    FillNext(mbr, 447, front, part, [0x00, 0x02, 0x00]);
    part := part + [0x00, 0x02, 0x00];
    FillNext(mbr, 450, front, part, [0xEE]);
    part := part + [0xEE];
    FillNext(mbr, 451, front, part, [0xFF, 0xFF, 0xFF]);
    part := part + [0xFF, 0xFF, 0xFF];
    FillNext(mbr, 454, front, part, Pack(1, 4));
    part := part + Pack(1, 4);
    FillNext(mbr, 458, front, part, Pack(MbrBlocks(total), 4));
    part := part + Pack(MbrBlocks(total), 4);
    assert mbr[462..510] == Zeros(48);
    SetSlice(mbr, 510, [0x55, 0xAA]);
    assert mbr[..] == mbr[..462] + mbr[462..510] + mbr[510..];
  }
}

/**
  Damage to one copy of the GPT: a burst of up to four bytes makes that copy invalid and leaves
  the other one readable.
 */
module Redundancy {
  import opened Bytes
  import opened Layout
  import opened Gpt
  import opened DiskImage
  import opened RoundTrip
  import opened ShiftRegister
  import opened Wrappers
  import BlindSpot
  import Crc32

  // ---- one header ----

  lemma SameSlice(m: bytes, n: bytes, at: nat, len: nat, lo: nat, hi: nat)
    requires SameOutside(m, n, at, len) && lo <= hi <= |m|
    requires hi <= at || at + len <= lo
    ensures m[lo..hi] == n[lo..hi]
  {
    forall i | lo <= i < hi
      ensures m[i] == n[i]
    {
      if i < at {
        assert m[..at][i] == n[..at][i];
      } else {
        assert m[at + len..][i - at - len] == n[at + len..][i - at - len];
      }
    }
  }

  /** Outside the CRC field, damage to the header is damage to what the CRC is taken over. */
  lemma WithoutCrcDiffers(b: bytes, c: bytes, at: nat, len: nat)
    requires |b| == HEADER_SIZE && SameOutside(b, c, at, len) && b != c
    requires at + len <= 16 || 20 <= at
    ensures SameOutside(WithoutCrc(b), WithoutCrc(c), at, len) && WithoutCrc(b) != WithoutCrc(c)
    ensures b[16..20] == c[16..20]
  {
    SameSlice(b, c, at, len, 16, 20);
    var v, w := WithoutCrc(b), WithoutCrc(c);
    forall i | 0 <= i < HEADER_SIZE && !(at <= i < at + len)
      ensures v[i] == w[i]
    {
      SameByte(b, c, at, len, i);
    }
    assert v[..at] == w[..at] && v[at + len..] == w[at + len..];
    assert b == v[..16] + b[16..20] + v[20..] && c == w[..16] + c[16..20] + w[20..];
  }

  /** The header size, when it still reads as 92, is as it was written. */
  lemma SizeFieldUnchanged(b: bytes, c: bytes)
    requires |b| == |c| == HEADER_SIZE && Unpack(b[12..16]) == HEADER_SIZE == Unpack(c[12..16])
    ensures b[12..16] == c[12..16]
  {
    PackUnpack(b[12..16]);
    PackUnpack(c[12..16]);
  }

  /** Damage to the CRC field alone. */
  lemma CrcFieldDamaged(b: bytes, c: bytes)
    requires |b| == |c| == HEADER_SIZE && b[..16] == c[..16] && b[20..] == c[20..] && b != c
    ensures WithoutCrc(b) == WithoutCrc(c) && b[16..20] != c[16..20]
  {
    assert b == b[..16] + b[16..20] + b[20..] && c == c[..16] + c[16..20] + c[20..];
  }

  lemma OneSidedDamageDetected(b: bytes, c: bytes, at: nat, len: nat, lba: nat, other: nat)
    requires HeaderValid(b, lba) && SameOutside(b, c, at, len) && len <= 4 && b != c
    requires at + len <= 20 || 20 <= at
    ensures !HeaderValid(c, other)
  {
    if HeaderValid(c, other) {
      if at + len <= 16 || 20 <= at {
        WithoutCrcDiffers(b, c, at, len);
        CrcMismatch(WithoutCrc(b), WithoutCrc(c), at, len);
      } else {
        SizeFieldUnchanged(b, c);
        SameSlice(b, c, at, len, 0, 12);
        SameSlice(b, c, at, len, 20, HEADER_SIZE);
        assert b[..16] == b[0..12] + b[12..16] && c[..16] == c[0..12] + c[12..16];
        CrcFieldDamaged(b, c);
      }
    }
  }

  /** Four bytes on both sides of the end of the CRC field of a header. */
  predicate Blind(at: nat, len: nat) {
    len == 4 && at < 20 < at + len
  }

  lemma ShortDamageDetected(b: bytes, c: bytes, at: nat, len: nat, lba: nat, other: nat)
    requires HeaderValid(b, lba) && SameOutside(b, c, at, len) && len <= 3 && at < 20 < at + len && b != c
    ensures !HeaderValid(c, other)
  {
    if HeaderValid(c, other) {
      SameSlice(b, c, at, len, 0, 18);
      SameSlice(b, c, at, len, 22, HEADER_SIZE);
      SameByte(b, c, at, len, if at == 19 then 18 else 21);
      assert b[..18] == b[0..18] && c[..18] == c[0..18] && b[22..] == b[22..HEADER_SIZE] && c[22..] == c[22..HEADER_SIZE];
      BlindSpot.BothValid(b, c, lba, other);
    }
  }

  /** No burst of up to four bytes leaves a header valid, except in a blind window. */
  lemma HeaderDamageDetected(b: bytes, c: bytes, at: nat, len: nat, lba: nat, other: nat)
    requires HeaderValid(b, lba) && SameOutside(b, c, at, len) && len <= 4 && !Blind(at, len) && b != c
    ensures !HeaderValid(c, other)
  {
    if at < 20 < at + len {
      ShortDamageDetected(b, c, at, len, lba, other);
    } else {
      OneSidedDamageDetected(b, c, at, len, lba, other);
    }
  }

  /** Some damage within the window leaves the header valid. */
  ghost predicate CanHide(b: bytes, at: nat, len: nat, lba: nat) {
    exists c :: SameOutside(b, c, at, len) && c != b && HeaderValid(c, lba)
  }

  /** In every header with an empty Reserved field, damage can hide in a window exactly when the window is blind. */
  lemma HidesExactlyWhenBlind(b: bytes, at: nat, len: nat, lba: nat)
    requires HeaderValid(b, lba) && ReservedIsZero(b) && len <= 4 && at + len <= HEADER_SIZE
    ensures CanHide(b, at, len, lba) <==> Blind(at, len)
  {
    if Blind(at, len) {
      var c := BlindSpot.DamageUnseen(b, lba, at - 16);
      assert SameOutside(b, c, at, len);
    } else if CanHide(b, at, len, lba) {
      var c :| SameOutside(b, c, at, len) && c != b && HeaderValid(c, lba);
      HeaderDamageDetected(b, c, at, len, lba, lba);
    }
  }

  /** With the Reserved field checked too, no burst of up to four bytes leaves a header valid. */
  lemma HeaderDamageDetectedStrictly(b: bytes, c: bytes, at: nat, len: nat, lba: nat, other: nat)
    requires HeaderValid(b, lba) && ReservedIsZero(b) && SameOutside(b, c, at, len) && len <= 4 && b != c
    ensures !(HeaderValid(c, other) && ReservedIsZero(c))
  {
    if at < 20 < at + len && ReservedIsZero(c) {
      SameSlice(b, c, at, len, 24, HEADER_SIZE);
      assert b[20..] == b[20..24] + b[24..HEADER_SIZE] && c[20..] == c[20..24] + c[24..HEADER_SIZE];
      assert SameOutside(b, c, at, 20 - at);
      OneSidedDamageDetected(b, c, at, 20 - at, lba, other);
    } else if !(at < 20 < at + len) {
      OneSidedDamageDetected(b, c, at, len, lba, other);
    }
  }

  // ---- the disk ----

  lemma SameByte(d: bytes, e: bytes, at: nat, len: nat, i: nat)
    requires SameOutside(d, e, at, len) && i < |d| && !(at <= i < at + len)
    ensures d[i] == e[i]
  {
    SameSlice(d, e, at, len, i, i + 1);
    assert d[i..i + 1][0] == e[i..i + 1][0];
  }

  /** The same part of two disks that differ in one window. */
  lemma WindowInside(d: bytes, e: bytes, at: nat, len: nat, lo: nat, hi: nat)
    requires SameOutside(d, e, at, len) && lo <= at && at + len <= hi <= |d|
    ensures SameOutside(d[lo..hi], e[lo..hi], at - lo, len)
    ensures d != e ==> d[lo..hi] != e[lo..hi]
  {
    var p, q := d[lo..hi], e[lo..hi];
    forall j | 0 <= j < hi - lo && !(at - lo <= j < at - lo + len)
      ensures p[j] == q[j]
    {
      SameByte(d, e, at, len, lo + j);
    }
    assert p[..at - lo] == q[..at - lo] && p[at - lo + len..] == q[at - lo + len..];
    if p == q {
      forall i | 0 <= i < |d|
        ensures d[i] == e[i]
      {
        if at <= i < at + len {
          assert d[i] == p[i - lo] && e[i] == q[i - lo];
        } else {
          SameByte(d, e, at, len, i);
        }
      }
      assert d == e;
    }
  }

  /** What one copy says depends on its header and its entries only. */
  lemma TableFootprint(d: bytes, e: bytes, lba: nat)
    requires ReadHeader(d, lba) == ReadHeader(e, lba)
    requires |ReadHeader(d, lba)| == HEADER_SIZE ==>
               ReadEntries(d, ReadHeader(d, lba)) == ReadEntries(e, ReadHeader(d, lba))
    ensures CopyValid(d, lba) == CopyValid(e, lba) && CopyStrictlyValid(d, lba) == CopyStrictlyValid(e, lba)
    ensures ReadTable(d, lba) == ReadTable(e, lba)
  {
  }

  lemma ReadSlice(d: bytes, off: nat, n: nat)
    requires off + n <= |d|
    ensures Read(d, off, n) == d[off..off + n]
  {
  }

  lemma ReadUnchanged(d: bytes, e: bytes, at: nat, len: nat, off: nat, n: nat)
    requires SameOutside(d, e, at, len) && off + n <= |d| && (off + n <= at || at + len <= off)
    ensures Read(d, off, n) == Read(e, off, n)
  {
    SameSlice(d, e, at, len, off, off + n);
  }

  /** A copy whose header and entries are both outside the damage still reads as before. */
  lemma CopyUnchanged(d: bytes, e: bytes, at: nat, len: nat, h: Header)
    requires SameOutside(d, e, at, len) && ValidHeader(h) && ReadHeader(d, h.myLba) == HeaderBytes(h)
    requires |HeaderBytes(h)| == HEADER_SIZE
    requires h.myLba * BLOCK + HEADER_SIZE <= |d| && h.entriesLba * BLOCK + ENTRY_BYTES <= |d|
    requires h.myLba * BLOCK + HEADER_SIZE <= at || at + len <= h.myLba * BLOCK
    requires h.entriesLba * BLOCK + ENTRY_BYTES <= at || at + len <= h.entriesLba * BLOCK
    ensures ReadTable(d, h.myLba) == ReadTable(e, h.myLba)
    ensures CopyStrictlyValid(d, h.myLba) == CopyStrictlyValid(e, h.myLba)
  {
    ReadUnchanged(d, e, at, len, h.myLba * BLOCK, HEADER_SIZE);
    EntriesFields(h);
    ReadUnchanged(d, e, at, len, h.entriesLba * BLOCK, ENTRY_BYTES);
    TableFootprint(d, e, h.myLba);
  }

  lemma HeaderWindow(d: bytes, e: bytes, at: nat, len: nat, lo: nat)
    requires lo + HEADER_SIZE <= |d| && SameOutside(d, e, at, len) && d != e && lo <= at && at + len <= lo + HEADER_SIZE
    ensures SameOutside(Read(d, lo, HEADER_SIZE), Read(e, lo, HEADER_SIZE), at - lo, len)
    ensures Read(d, lo, HEADER_SIZE) != Read(e, lo, HEADER_SIZE)
  {
    ReadSlice(d, lo, HEADER_SIZE);
    ReadSlice(e, lo, HEADER_SIZE);
    WindowInside(d, e, at, len, lo, lo + HEADER_SIZE);
  }

  /** Damage to the header of a copy. */
  lemma HeaderBlockDamaged(d: bytes, e: bytes, at: nat, len: nat, h: Header)
    requires ValidHeader(h) && ReadHeader(d, h.myLba) == HeaderBytes(h) && |HeaderBytes(h)| == HEADER_SIZE
    requires h.myLba * BLOCK + HEADER_SIZE <= |d|
    requires SameOutside(d, e, at, len) && len <= 4 && d != e
    requires h.myLba * BLOCK <= at && at + len <= h.myLba * BLOCK + HEADER_SIZE
    ensures !CopyStrictlyValid(e, h.myLba)
    ensures !Blind(at - h.myLba * BLOCK, len) ==> !CopyValid(e, h.myLba)
  {
    HeaderWindow(d, e, at, len, h.myLba * BLOCK);
    WrittenHeaderDamaged(h, ReadHeader(e, h.myLba), at - h.myLba * BLOCK, len);
  }

  lemma WrittenHeaderDamaged(h: Header, c: bytes, at: nat, len: nat)
    requires ValidHeader(h) && |HeaderBytes(h)| == HEADER_SIZE
    requires SameOutside(HeaderBytes(h), c, at, len) && len <= 4 && HeaderBytes(h) != c
    ensures !(HeaderValid(c, h.myLba) && ReservedIsZero(c))
    ensures !Blind(at, len) ==> !HeaderValid(c, h.myLba)
  {
    var b := HeaderBytes(h);
    assert HeaderValid(b, h.myLba) && ReservedIsZero(b) by { WrittenHeaderValid(h); }
    HeaderDamageDetectedStrictly(b, c, at, len, h.myLba, h.myLba);
    if !Blind(at, len) {
      HeaderDamageDetected(b, c, at, len, h.myLba, h.myLba);
    }
  }

  /** Damage to the entries of a copy whose header `b` is intact. */
  lemma EntriesDamaged(d: bytes, e: bytes, at: nat, len: nat, b: bytes, lba: nat)
    requires |b| == HEADER_SIZE && EntryCount(b) == ENTRY_COUNT && EntrySize(b) == ENTRY_SIZE
    requires ReadHeader(e, lba) == b && b[88..92] == Crc32.Field(Crc32.Crc(ReadEntries(d, b)))
    requires EntriesLba(b) * BLOCK + ENTRY_BYTES <= |d|
    requires SameOutside(d, e, at, len) && len <= 4 && d != e
    requires EntriesLba(b) * BLOCK <= at && at + len <= EntriesLba(b) * BLOCK + ENTRY_BYTES
    ensures !CopyValid(e, lba)
  {
    var lo := EntriesLba(b) * BLOCK;
    ReadSlice(d, lo, ENTRY_BYTES);
    ReadSlice(e, lo, ENTRY_BYTES);
    WindowInside(d, e, at, len, lo, lo + ENTRY_BYTES);
    CrcMismatch(ReadEntries(d, b), ReadEntries(e, b), at - lo, len);
  }

  lemma EntriesFields(h: Header)
    requires ValidHeader(h)
    ensures var b := HeaderBytes(h);
            && |b| == HEADER_SIZE && EntriesLba(b) == h.entriesLba
            && EntryCount(b) == ENTRY_COUNT && EntrySize(b) == ENTRY_SIZE && b[88..92] == h.entriesCrc
  {
    WrittenHeaderValid(h);
  }

  lemma CrcMismatch(b: bytes, c: bytes, at: nat, len: nat)
    requires SameOutside(b, c, at, len) && len <= 4 && b != c
    ensures Crc32.Field(Crc32.Crc(b)) != Crc32.Field(Crc32.Crc(c))
  {
    Crc32.BurstDetected(b, c, at, len);
    if Crc32.Field(Crc32.Crc(b)) == Crc32.Field(Crc32.Crc(c)) {
      Crc32.FieldInjective(Crc32.Crc(b), Crc32.Crc(c));
    }
  }

  /** The window is inside the bytes `lo..hi`. */
  predicate Inside(at: nat, len: nat, lo: nat, hi: nat) {
    lo <= at && at + len <= hi
  }

  /** The window is blind for the header in block `lba`. */
  predicate BlindFor(at: nat, len: nat, lba: nat) {
    lba * BLOCK <= at && Blind(at - lba * BLOCK, len)
  }

  /**
    Any burst of up to four bytes in the primary header or in the primary entries makes the primary copy invalid,
    and the secondary copy still says all that was put in.
   */
  lemma PrimaryDamage(d: bytes, p: Params, gap: bytes, e: bytes, at: nat, len: nat)
    requires IsDiskOf(d, p, gap) && SameOutside(d, e, at, len) && len <= 4 && d != e
    requires Inside(at, len, BLOCK, BLOCK + HEADER_SIZE) || Inside(at, len, 2 * BLOCK, 34 * BLOCK)
    ensures !CopyStrictlyValid(e, 1) && (!BlindFor(at, len, 1) ==> !CopyValid(e, 1))
    ensures CopyStrictlyValid(e, p.total - 1)
    ensures ReadTable(e, p.total - 1) == Some(TableOf(p, p.total - 1, 1, p.total - 33))
  {
    ImageHolds(p, gap);
    PrimaryReadsBack(d, p, gap);
    SecondaryReadsBack(d, p, gap);
    HeadersAreValid(p);
    CopyUnchanged(d, e, at, len, Secondary(p));
    if Inside(at, len, BLOCK, BLOCK + HEADER_SIZE) {
      HeaderBlockDamaged(d, e, at, len, Primary(p));
    } else {
      ReadUnchanged(d, e, at, len, BLOCK, HEADER_SIZE);
      EntriesFields(Primary(p));
      EntriesDamaged(d, e, at, len, HeaderBytes(Primary(p)), 1);
    }
  }

  /** The same for the secondary copy. */
  lemma SecondaryDamage(d: bytes, p: Params, gap: bytes, e: bytes, at: nat, len: nat)
    requires IsDiskOf(d, p, gap) && SameOutside(d, e, at, len) && len <= 4 && d != e
    requires Inside(at, len, (p.total - 1) * BLOCK, (p.total - 1) * BLOCK + HEADER_SIZE)
          || Inside(at, len, (p.total - 33) * BLOCK, (p.total - 1) * BLOCK)
    ensures !CopyStrictlyValid(e, p.total - 1) && (!BlindFor(at, len, p.total - 1) ==> !CopyValid(e, p.total - 1))
    ensures CopyStrictlyValid(e, 1)
    ensures ReadTable(e, 1) == Some(TableOf(p, 1, p.total - 1, 2))
  {
    ImageHolds(p, gap);
    PrimaryReadsBack(d, p, gap);
    SecondaryReadsBack(d, p, gap);
    HeadersAreValid(p);
    CopyUnchanged(d, e, at, len, Primary(p));
    if Inside(at, len, (p.total - 1) * BLOCK, (p.total - 1) * BLOCK + HEADER_SIZE) {
      HeaderBlockDamaged(d, e, at, len, Secondary(p));
    } else {
      ReadUnchanged(d, e, at, len, (p.total - 1) * BLOCK, HEADER_SIZE);
      EntriesFields(Secondary(p));
      EntriesDamaged(d, e, at, len, HeaderBytes(Secondary(p)), p.total - 1);
    }
  }
}

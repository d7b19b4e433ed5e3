/**
  Damage on both sides of the end of the CRC field of a header: the one place where four adjacent bytes can change
  so that the header CRC does not notice, and up to three cannot.
 */
module BlindSpot {
  import opened Bytes
  import opened Crc32
  import opened CrcTail
  import opened Gpt
  import opened LinearRegister
  import opened ShiftRegister

  // ---- what a difference in three bytes does to the checksum ----

  lemma WordBetween(x: bv32, r: bv32, s: bv32, d: bv32)
    requires d == r ^ s
    ensures Register().xor(x, s) == Register().xor(Register().xor(x, r), d)
  {
    var y := x ^ r;
    XorIs(x, s);
    XorIs(x, r);
    XorIs(y, d);
    Between(x, r, s, d, y);
  }

  lemma Between(x: bv32, r: bv32, s: bv32, d: bv32, y: bv32)
    requires d == r ^ s && y == x ^ r
    ensures x ^ s == y ^ d
  {
  }

  lemma RegisterWordDiffers(c: bv32, pre: bytes, r: bytes, s: bytes, post: bytes, d: bv32, n: nat)
    requires |r| == |s| == 3 && n == 24 + 8 * |post|
    requires var x := Run(Register(), c, pre);
             Register().xor(x, Word(Register(), s)) == Register().xor(Register().xor(x, Word(Register(), r)), d)
    ensures Run(Register(), c, pre + s + post) == Register().xor(Run(Register(), c, pre + r + post), Steps(BitStep, d, n))
  {
    RegisterLawful();
    RegisterLinear();
    RegisterSwaps();
    WordDiffers(Register(), c, pre, r, s, post, d, n);
  }

  lemma RegisterDiffers(c: bv32, pre: bytes, r: bytes, s: bytes, post: bytes, d: bv32, n: nat)
    requires |r| == |s| == 3 && n == 24 + 8 * |post| && d == Word(Register(), r) ^ Word(Register(), s)
    ensures Run(Register(), c, pre + s + post) == Register().xor(Run(Register(), c, pre + r + post), Steps(BitStep, d, n))
  {
    WordBetween(Run(Register(), c, pre), Word(Register(), r), Word(Register(), s), d);
    RegisterWordDiffers(c, pre, r, s, post, d, n);
  }

  lemma CrcOf(m: bytes, x: bv32)
    requires x == Run(Register(), 0xFFFF_FFFF, m)
    ensures Crc(m) == x ^ 0xFFFF_FFFF
  {
  }

  lemma CrcBetween(p: bytes, q: bytes, v: bv32)
    requires Run(Register(), 0xFFFF_FFFF, q) == Register().xor(Run(Register(), 0xFFFF_FFFF, p), v)
    ensures Crc(q) == Crc(p) ^ v
  {
    var x := Run(Register(), 0xFFFF_FFFF, p);
    var y := x ^ v;
    XorIs(x, v);
    CrcOf(p, x);
    CrcOf(q, y);
    XorSwap(x, v, 0xFFFF_FFFF);
  }

  /** The checksums of messages that differ in three bytes differ by what the difference becomes on its way to the end. */
  lemma ChecksumsDiffer(pre: bytes, r: bytes, s: bytes, post: bytes, d: bv32, n: nat)
    requires |r| == |s| == 3 && n == 24 + 8 * |post| && d == Word(Register(), r) ^ Word(Register(), s)
    ensures Crc(pre + s + post) == Crc(pre + r + post) ^ Steps(BitStep, d, n)
  {
    RegisterDiffers(0xFFFF_FFFF, pre, r, s, post, d, n);
    CrcBetween(pre + r + post, pre + s + post, Steps(BitStep, d, n));
  }

  /** A header with its CRC field zeroed, cut around the first three bytes of the Reserved field. */
  lemma HeaderParts(h: bytes)
    requires |h| == HEADER_SIZE
    ensures WithoutCrc(h) == h[..16] + Zeros(4) + h[20..23] + h[23..]
  {
    assert h[20..] == h[20..23] + h[23..];
  }

  /** Headers that differ at most between the CRC field and the end of those three bytes. */
  lemma HeaderChecksumsDiffer(b: bytes, c: bytes, d: bv32, n: nat)
    requires |b| == |c| == HEADER_SIZE && b[..16] == c[..16] && b[23..] == c[23..] && n == 576
    requires d == Word(Register(), b[20..23]) ^ Word(Register(), c[20..23])
    ensures Crc(WithoutCrc(c)) == Crc(WithoutCrc(b)) ^ Steps(BitStep, d, n)
  {
    HeaderParts(b);
    HeaderParts(c);
    ChecksumsDiffer(b[..16] + Zeros(4), b[20..23], c[20..23], b[23..], d, n);
  }

  // ---- up to three bytes ----

  lemma LowAgrees(x: bv32, y: bv32, v: bv32)
    requires Low(x) == Low(y) && y == x ^ v
    ensures v & 0xFF == 0
  {
    LowInjective(x, y);
    Masked(x, y, v);
  }

  lemma Masked(x: bv32, y: bv32, v: bv32)
    requires x & 0xFF == y & 0xFF && y == x ^ v
    ensures v & 0xFF == 0
  {
  }

  lemma ShiftedXor(x: bv32, y: bv32, v: bv32)
    requires y == x ^ v
    ensures y >> 8 == (x >> 8) ^ (v >> 8)
  {
  }

  lemma FurtherShiftedXor(x: bv32, y: bv32, v: bv32)
    requires y == x ^ v
    ensures y >> 16 == (x >> 16) ^ (v >> 16)
  {
  }

  lemma TwoLow(v: bv32)
    requires v & 0xFF == 0 && (v >> 8) & 0xFF == 0
    ensures v & 0xFFFF == 0
  {
  }

  lemma ThreeLow(v: bv32)
    requires v & 0xFFFF == 0 && (v >> 16) & 0xFF == 0
    ensures v & 0xFF_FFFF == 0
  {
  }

  lemma SecondAgrees(x: bv32, y: bv32, v: bv32, p: bv32, q: bv32, u: bv32)
    requires y == x ^ v && p == x >> 8 && q == y >> 8 && u == v >> 8 && Low(p) == Low(q)
    ensures u & 0xFF == 0
  {
    ShiftedXor(x, y, v);
    LowAgrees(p, q, u);
  }

  lemma ThirdAgrees(x: bv32, y: bv32, v: bv32, p: bv32, q: bv32, u: bv32)
    requires y == x ^ v && p == x >> 16 && q == y >> 16 && u == v >> 16 && Low(p) == Low(q)
    ensures u & 0xFF == 0
  {
    FurtherShiftedXor(x, y, v);
    LowAgrees(p, q, u);
  }

  lemma SmallWords(a: bv32, b: bv32, c: bv32, a': bv32, b': bv32, d: bv32)
    requires IsByte(a) && IsByte(b) && IsByte(a') && IsByte(b')
    requires d == (a ^ ((b ^ ((c ^ (0 << 8)) << 8)) << 8)) ^ (a' ^ ((b' ^ ((c ^ (0 << 8)) << 8)) << 8))
    ensures d & 0xFFFF_0000 == 0
    ensures b == b' ==> d & 0xFFFF_FF00 == 0
  {
  }

  lemma SmallDifference(r: bytes, s: bytes, d: bv32)
    requires |r| == |s| == 3 && r[2] == s[2] && d == Word(Register(), r) ^ Word(Register(), s)
    ensures d & 0xFFFF_0000 == 0
    ensures r[1] == s[1] ==> d & 0xFFFF_FF00 == 0
  {
    WordOfBytes(r);
    WordOfBytes(s);
    WidenDigits(r[0]);
    WidenDigits(r[1]);
    WidenDigits(s[0]);
    WidenDigits(s[1]);
    SmallWords(Widen(r[0]), Widen(r[1]), Widen(r[2]), Widen(s[0]), Widen(s[1]), d);
  }

  lemma NoDifference(r: bytes, s: bytes)
    requires |r| == |s| == 3 && Word(Register(), r) ^ Word(Register(), s) == 0
    ensures r == s
  {
    RegisterLawful();
    XorIsZero(Word(Register(), r), Word(Register(), s));
    WordInjective(Register(), r, s);
  }

  lemma XorIsZero(x: bv32, y: bv32)
    requires x ^ y == 0
    ensures x == y
  {
  }

  lemma ShowsInOne(d: bv32, v: bv32, x: bv32, y: bv32, n: nat)
    requires n == 576 && v == Steps(BitStep, d, n) && y == x ^ v && d & 0xFFFF_FF00 == 0
    requires Low(x) == Low(y) && Low(x >> 8) == Low(y >> 8)
    ensures d == 0
  {
    LowAgrees(x, y, v);
    SecondAgrees(x, y, v, x >> 8, y >> 8, v >> 8);
    TwoLow(v);
    OneByteShows(d, v, n);
  }

  lemma ShowsInTwo(d: bv32, v: bv32, x: bv32, y: bv32, n: nat)
    requires n == 576 && v == Steps(BitStep, d, n) && y == x ^ v && d & 0xFFFF_0000 == 0
    requires Low(x) == Low(y) && Low(x >> 8) == Low(y >> 8) && Low(x >> 16) == Low(y >> 16)
    ensures d == 0
  {
    LowAgrees(x, y, v);
    SecondAgrees(x, y, v, x >> 8, y >> 8, v >> 8);
    TwoLow(v);
    ThirdAgrees(x, y, v, x >> 16, y >> 16, v >> 16);
    ThreeLow(v);
    TwoBytesShow(d, v, n);
  }

  /** The three Reserved bytes differ by `d`, and the checksums by what becomes of it in `n` steps. */
  predicate Apart(r: bytes, s: bytes, d: bv32, v: bv32, x: bv32, y: bv32, n: nat)
    requires |r| == |s| == 3
  {
    d == Word(Register(), r) ^ Word(Register(), s) && v == Steps(BitStep, d, n) && y == x ^ v
  }

  /** The checksums are alike in their first bytes, and in the third if the second Reserved bytes differ. */
  predicate Alike(r: bytes, s: bytes, x: bv32, y: bv32)
    requires |r| == |s| == 3
  {
    && r[2] == s[2] && Low(x) == Low(y) && Low(x >> 8) == Low(y >> 8)
    && (r[1] == s[1] || Low(x >> 16) == Low(y >> 16))
  }

  /** A difference of three bytes that are alike in the last one shows, when the checksums are this much alike. */
  lemma DifferenceShows(r: bytes, s: bytes, d: bv32, v: bv32, x: bv32, y: bv32, n: nat)
    requires |r| == |s| == 3 && Apart(r, s, d, v, x, y, n) && Alike(r, s, x, y) && n == 576
    ensures r == s
  {
    SmallDifference(r, s, d);
    if r[1] == s[1] {
      ShowsInOne(d, v, x, y, n);
    } else {
      ShowsInTwo(d, v, x, y, n);
    }
    NoDifference(r, s);
  }

  /** The first three bytes of the CRC field of a header. */
  predicate FieldStarts(h: bytes, x: bv32)
    requires |h| == HEADER_SIZE
  {
    h[16] == Low(x) && h[17] == Low(x >> 8) && h[18] == Low(x >> 16)
  }

  lemma FieldBytes(low: bv32 -> byte, x: bv32, f: bytes)
    requires f == FieldBy(low, x)
    ensures f[0] == low(x) && f[1] == low(x >> 8) && f[2] == low(x >> 16)
  {
  }

  lemma FieldIsHere(h: bytes, f: bytes)
    requires |h| == HEADER_SIZE && h[16..20] == f
    ensures |f| == 4 && h[16] == f[0] && h[17] == f[1] && h[18] == f[2]
  {
  }

  lemma FieldOf(h: bytes, lba: nat, x: bv32)
    requires HeaderValid(h, lba) && x == Crc(WithoutCrc(h))
    ensures FieldStarts(h, x)
  {
    FieldIsHere(h, Field(x));
    FieldBytes(Low, x, Field(x));
  }

  lemma HeadersDiffer(b: bytes, c: bytes, x: bv32, y: bv32, n: nat) returns (d: bv32, v: bv32)
    requires |b| == |c| == HEADER_SIZE && b[..18] == c[..18] && b[22..] == c[22..] && n == 576
    requires x == Crc(WithoutCrc(b)) && y == Crc(WithoutCrc(c))
    ensures Apart(b[20..23], c[20..23], d, v, x, y, n)
  {
    Trimmed(b, c);
    d := Word(Register(), b[20..23]) ^ Word(Register(), c[20..23]);
    v := Steps(BitStep, d, n);
    HeaderChecksumsDiffer(b, c, d, n);
  }

  lemma StartsAlike(b: bytes, c: bytes, x: bv32, y: bv32)
    requires |b| == |c| == HEADER_SIZE && b[..18] == c[..18] && b[22..] == c[22..] && FieldStarts(b, x) && FieldStarts(c, y)
    requires b[18] == c[18] || b[21] == c[21]
    ensures Alike(b[20..23], c[20..23], x, y)
  {
    Trimmed(b, c);
  }

  lemma ReservedAgreesFor(b: bytes, c: bytes, x: bv32, y: bv32, n: nat)
    requires |b| == |c| == HEADER_SIZE && b[..18] == c[..18] && b[22..] == c[22..] && n == 576
    requires x == Crc(WithoutCrc(b)) && y == Crc(WithoutCrc(c)) && Alike(b[20..23], c[20..23], x, y)
    ensures b[20..23] == c[20..23]
  {
    var d, v := HeadersDiffer(b, c, x, y, n);
    DifferenceShows(b[20..23], c[20..23], d, v, x, y, n);
  }

  lemma ReservedAgrees(b: bytes, c: bytes, lba: nat, other: nat, x: bv32, y: bv32)
    requires HeaderValid(b, lba) && HeaderValid(c, other) && b[..18] == c[..18] && b[22..] == c[22..]
    requires b[18] == c[18] || b[21] == c[21]
    requires x == Crc(WithoutCrc(b)) && y == Crc(WithoutCrc(c))
    ensures b[20..23] == c[20..23]
  {
    FieldOf(b, lba, x);
    FieldOf(c, other, y);
    StartsAlike(b, c, x, y);
    ReservedAgreesFor(b, c, x, y, 576);
  }

  /** Valid headers that differ within three bytes around the end of the CRC field are equal. */
  lemma BothValid(b: bytes, c: bytes, lba: nat, other: nat)
    requires HeaderValid(b, lba) && HeaderValid(c, other) && b[..18] == c[..18] && b[22..] == c[22..]
    requires b[18] == c[18] || b[21] == c[21]
    ensures b == c
  {
    ReservedAgrees(b, c, lba, other, Crc(WithoutCrc(b)), Crc(WithoutCrc(c)));
    Trimmed(b, c);
    HeaderParts(b);
    HeaderParts(c);
    Rejoined(b, c);
  }

  lemma Trimmed(b: bytes, c: bytes)
    requires |b| == |c| == HEADER_SIZE && b[..18] == c[..18] && b[22..] == c[22..]
    ensures b[..16] == c[..16] && b[23..] == c[23..] && b[20..23][2] == c[20..23][2]
    ensures b[16] == c[16] && b[17] == c[17]
    ensures b[20..23][1] == b[21] && c[20..23][1] == c[21]
  {
    assert b[..16] == b[..18][..16] && c[..16] == c[..18][..16];
    assert b[23..] == b[22..][1..] && c[23..] == c[22..][1..];
    assert b[22] == b[22..][0] && c[22] == c[22..][0];
    assert b[16] == b[..18][16] && c[16] == c[..18][16] && b[17] == b[..18][17] && c[17] == c[..18][17];
  }

  lemma Rejoined(b: bytes, c: bytes)
    requires |b| == |c| == HEADER_SIZE && b[..16] == c[..16] && b[16..20] == c[16..20] && b[20..23] == c[20..23] && b[23..] == c[23..]
    ensures b == c
  {
    assert b == b[..16] + b[16..20] + b[20..23] + b[23..] && c == c[..16] + c[16..20] + c[20..23] + c[23..];
  }

  // ---- four bytes ----

  lemma LowKept(x: bv32, y: bv32)
    requires x & 0xFF == y & 0xFF
    ensures Low(x) == Low(y)
  {
    WidenLow(x);
    WidenLow(y);
    WidenDigits(Low(x));
    WidenDigits(Low(y));
  }

  ghost predicate ByLowByte(low: bv32 -> byte) {
    forall x, y :: x & 0xFF == y & 0xFF ==> low(x) == low(y)
  }

  lemma LowIsByLowByte()
    ensures ByLowByte(Low)
  {
    forall x, y | x & 0xFF == y & 0xFF
      ensures Low(x) == Low(y)
    {
      LowKept(x, y);
    }
  }

  function Mask(k: nat): bv32 {
    if k == 1 then 0xFF else if k == 2 then 0xFFFF else 0xFF_FFFF
  }

  /** Words that agree in `k` low bytes agree in each of them. */
  lemma BytesAgree(x: bv32, y: bv32, k: nat)
    requires x & Mask(k) == y & Mask(k) && 1 <= k <= 3
    ensures x & 0xFF == y & 0xFF
    ensures k >= 2 ==> (x >> 8) & 0xFF == (y >> 8) & 0xFF
    ensures k >= 3 ==> (x >> 16) & 0xFF == (y >> 16) & 0xFF
  {
  }

  lemma StartBy(low: bv32 -> byte, x: bv32, y: bv32, k: nat)
    requires ByLowByte(low) && x & Mask(k) == y & Mask(k) && 1 <= k <= 3
    ensures FieldBy(low, y)[..k] == FieldBy(low, x)[..k]
  {
    BytesAgree(x, y, k);
    var f, g := FieldBy(low, x), FieldBy(low, y);
    assert f[0] == g[0] && (k >= 2 ==> f[1] == g[1]) && (k >= 3 ==> f[2] == g[2]);
  }

  lemma StartKept(x: bv32, y: bv32, k: nat)
    requires x & Mask(k) == y & Mask(k) && 1 <= k <= 3
    ensures Field(y)[..k] == Field(x)[..k]
  {
    LowIsByLowByte();
    StartBy(Low, x, y, k);
  }

  lemma MaskKept(x: bv32, y: bv32, v: bv32, m: bv32)
    requires y == x ^ v && v & m == 0
    ensures x & m == y & m
  {
  }

  /** A header rebuilt around another checksum field and other Reserved bytes. */
  lemma Rebuilt(h: bytes, f: bytes, s: bytes, d: bytes, k: nat)
    requires |h| == HEADER_SIZE && |f| == 4 && |s| == 3 && 1 <= k <= 3 && d == h[..16] + f + s + h[23..]
    requires f[..k] == h[16..16 + k] && s[k..] == h[20 + k..23]
    ensures SameOutside(h, d, 16 + k, 4)
    ensures d[..8] == h[..8] && d[12..16] == h[12..16] && d[24..32] == h[24..32] && d[16..20] == f && d[20..23] == s
    ensures d[..16] == h[..16] && d[23..] == h[23..]
  {
    assert d[..16 + k] == h[..16] + f[..k] == h[..16 + k];
    assert d[20 + k..] == s[k..] + h[23..] == h[20 + k..];
    assert d[..8] == d[..16][..8] && h[..8] == h[..16][..8];
  }

  lemma DamagedChecksum(h: bytes, s: bytes, f: bytes, d: bytes, w: bv32, v: bv32, n: nat)
    requires |h| == |d| == HEADER_SIZE && h[20..23] == [0, 0, 0] && |s| == 3 && d[20..23] == s && n == 576
    requires d[..16] == h[..16] && d[23..] == h[23..] && w == Word(Register(), s) && v == Steps(BitStep, w, n)
    ensures Crc(WithoutCrc(d)) == Crc(WithoutCrc(h)) ^ v
  {
    NoWord();
    assert 0 ^ w == w;
    HeaderChecksumsDiffer(h, d, w, n);
  }

  lemma WordOfThree(s: bytes, a: bv32, b: bv32, c: bv32, bc: bv32, w: bv32)
    requires |s| == 3 && a == Widen(s[0]) && b == Widen(s[1]) && c == Widen(s[2])
    requires c == XorWords(c, Up(0)) && bc == XorWords(b, Up(c)) && w == XorWords(a, Up(bc))
    ensures Word(Register(), s) == w
  {
    WordOfBytes(s);
  }

  lemma HighLow(c: bv32)
    ensures c == XorWords(c, Up(0))
  {
  }

  lemma MiddleLow(w: bv32, b: bv32, c: bv32, bc: bv32)
    requires w & 0xFF00_0000 == 0 && b == (w >> 8) & 0xFF && c == (w >> 16) & 0xFF && bc == w >> 8
    ensures bc == XorWords(b, Up(c))
  {
  }

  lemma FirstLow(w: bv32, a: bv32, bc: bv32)
    requires w & 0xFF00_0000 == 0 && a == w & 0xFF && bc == w >> 8
    ensures w == XorWords(a, Up(bc))
  {
  }

  lemma LowByPlaces(low: bv32 -> byte, w: bv32, s: bytes)
    requires s == FieldBy(low, w)[..3]
    ensures |s| == 3 && s[0] == low(w) && s[1] == low(w >> 8) && s[2] == low(w >> 16)
  {
  }

  /** The low bytes of a word make the word. */
  lemma WordOfLows(w: bv32, s: bytes)
    requires w & 0xFF00_0000 == 0 && s == Field(w)[..3]
    ensures Word(Register(), s) == w
  {
    LowByPlaces(Low, w, s);
    WidenLow(w);
    WidenLow(w >> 8);
    WidenLow(w >> 16);
    HighLow((w >> 16) & 0xFF);
    MiddleLow(w, (w >> 8) & 0xFF, (w >> 16) & 0xFF, w >> 8);
    FirstLow(w, w & 0xFF, w >> 8);
    WordOfThree(s, w & 0xFF, (w >> 8) & 0xFF, (w >> 16) & 0xFF, w >> 8, w);
  }

  lemma LowOfZero()
    ensures Low(0) == 0 && Field(0)[..3] == [0, 0, 0]
  {
  }

  lemma NoWord()
    ensures Word(Register(), [0, 0, 0]) == 0
  {
    LowOfZero();
    WordOfLows(0, [0, 0, 0]);
  }

  lemma RebuiltPasses(h: bytes, lba: nat, f: bytes, s: bytes, d: bytes, k: nat)
    requires HeaderValid(h, lba) && ReservedIsZero(h) && |f| == 4 && |s| == 3 && s[0] != 0 && 1 <= k <= 3
    requires d == h[..16] + f + s + h[23..] && f[..k] == h[16..16 + k] && s[k..] == Zeros(3 - k)
    requires f == Field(Crc(WithoutCrc(d)))
    ensures HeaderValid(d, lba) && SameOutside(h, d, 16 + k, 4) && h != d
  {
    assert h[20 + k..23] == h[20..24][k..3] == Zeros(3 - k);
    Rebuilt(h, f, s, d, k);
    assert d[20] == d[20..23][0] && h[20] == h[20..24][0];
  }

  lemma FieldStart(h: bytes, lba: nat, k: nat)
    requires HeaderValid(h, lba) && k <= 4
    ensures h[16..16 + k] == Field(Crc(WithoutCrc(h)))[..k]
  {
    SliceOfPart(h, 16, h[16..20], 0, k);
  }

  lemma DamagedIs(h: bytes, s: bytes, d: bytes, f: bytes, w: bv32, v: bv32, n: nat)
    requires |h| == HEADER_SIZE && ReservedIsZero(h) && |f| == 4 && |s| == 3 && d == h[..16] + f + s + h[23..]
    requires w == Word(Register(), s) && v == Steps(BitStep, w, n) && n == 576
    ensures |d| == HEADER_SIZE && Crc(WithoutCrc(d)) == Crc(WithoutCrc(h)) ^ v
  {
    assert h[20..23] == h[20..24][..3] == [0, 0, 0];
    assert d[20..23] == s && d[..16] == h[..16] && d[23..] == h[23..];
    DamagedChecksum(h, s, f, d, w, v, n);
  }

  /** Damage whose difference leaves the start of the checksum alone passes. */
  lemma DamagePasses(h: bytes, lba: nat, s: bytes, w: bv32, v: bv32, y: bv32, f: bytes, k: nat, n: nat) returns (d: bytes)
    requires HeaderValid(h, lba) && ReservedIsZero(h) && |s| == 3 && s[0] != 0 && 1 <= k <= 3 && s[k..] == Zeros(3 - k)
    requires w == Word(Register(), s) && v == Steps(BitStep, w, n) && n == 576
    requires y == Crc(WithoutCrc(h)) ^ v && f == Field(y) && f[..k] == h[16..16 + k]
    ensures HeaderValid(d, lba) && SameOutside(h, d, 16 + k, 4) && h != d
  {
    d := h[..16] + f + s + h[23..];
    DamagedIs(h, s, d, f, w, v, n);
    RebuiltPasses(h, lba, f, s, d, k);
  }

  lemma DamageFor(h: bytes, lba: nat, s: bytes, w: bv32, v: bv32, x: bv32, y: bv32, k: nat, n: nat) returns (d: bytes)
    requires HeaderValid(h, lba) && ReservedIsZero(h) && |s| == 3 && s[0] != 0 && 1 <= k <= 3 && s[k..] == Zeros(3 - k)
    requires w == Word(Register(), s) && v == Steps(BitStep, w, n) && n == 576
    requires x == Crc(WithoutCrc(h)) && y == x ^ v && Field(y)[..k] == Field(x)[..k]
    ensures HeaderValid(d, lba) && SameOutside(h, d, 16 + k, 4) && h != d
  {
    FieldStart(h, lba, k);
    d := DamagePasses(h, lba, s, w, v, y, Field(y), k, n);
  }

  // ---- the damage itself ----

  /** The difference in the Reserved bytes, by the number of CRC bytes that stay. */
  function Difference(k: nat): bv32 {
    if k == 1 then 0x0000_0068 else if k == 2 then 0x0000_0A01 else 0x00C9_9C36
  }

  /** What becomes of it: its `k` low bytes are zero. */
  function Residue(k: nat): bv32 {
    if k == 1 then 0x5DC4_C300 else if k == 2 then 0xA672_0000 else 0xBF00_0000
  }

  lemma DifferenceFacts(k: nat)
    requires 1 <= k <= 3
    ensures Difference(k) & 0xFF00_0000 == 0 && Difference(k) & Mask(k) == Difference(k) && Difference(k) & 0xFF != 0
    ensures Residue(k) & Mask(k) == 0
  {
  }

  lemma ResidueIs(k: nat, n: nat)
    requires 1 <= k <= 3 && n == 576
    ensures Steps(BitStep, Difference(k), n) == Residue(k)
  {
    OneByteHides(n);
    TwoBytesHide(n);
    ThreeBytesHide(n);
  }

  lemma LowIsNotZero(w: bv32)
    requires w & 0xFF != 0
    ensures Low(w) != 0
  {
    LowOfZero();
    if Low(w) == 0 {
      LowInjective(w, 0);
    }
  }

  lemma BytesAbove(w: bv32, k: nat)
    requires w & Mask(k) == w && 1 <= k <= 3
    ensures k <= 1 ==> (w >> 8) & 0xFF == 0
    ensures k <= 2 && w & 0xFF00_0000 == 0 ==> (w >> 16) & 0xFF == 0
  {
  }

  /** The bytes of the damage fit beside the CRC bytes that stay. */
  lemma BytesFit(w: bv32, k: nat, s: bytes)
    requires w & 0xFF00_0000 == 0 && w & Mask(k) == w && 1 <= k <= 3 && w & 0xFF != 0 && s == Field(w)[..3]
    ensures |s| == 3 && s[0] != 0 && s[k..] == Zeros(3 - k)
  {
    LowByPlaces(Low, w, s);
    LowIsNotZero(w);
    LowOfZero();
    BytesAbove(w, k);
    if k <= 1 {
      LowKept(w >> 8, 0);
    }
    if k <= 2 {
      LowKept(w >> 16, 0);
    }
  }

  /** Every header with an empty Reserved field can be damaged in these four bytes so that its CRC still fits. */
  lemma DamageUnseen(h: bytes, lba: nat, k: nat) returns (d: bytes)
    requires HeaderValid(h, lba) && ReservedIsZero(h) && 1 <= k <= 3
    ensures HeaderValid(d, lba) && SameOutside(h, d, 16 + k, 4) && h != d
  {
    d := DamageWith(h, lba, Difference(k), Residue(k), k, 576);
  }

  lemma DamageBytes(w: bv32, k: nat) returns (s: bytes)
    requires 1 <= k <= 3 && w == Difference(k)
    ensures Word(Register(), s) == w && |s| == 3 && s[0] != 0 && s[k..] == Zeros(3 - k)
  {
    s := Field(w)[..3];
    DifferenceFacts(k);
    WordOfLows(w, s);
    BytesFit(w, k, s);
  }

  lemma DamageStart(x: bv32, y: bv32, v: bv32, k: nat)
    requires 1 <= k <= 3 && v == Residue(k) && y == x ^ v
    ensures Field(y)[..k] == Field(x)[..k]
  {
    DifferenceFacts(k);
    MaskKept(x, y, v, Mask(k));
    StartKept(x, y, k);
  }

  lemma DamageWith(h: bytes, lba: nat, w: bv32, v: bv32, k: nat, n: nat) returns (d: bytes)
    requires HeaderValid(h, lba) && ReservedIsZero(h) && 1 <= k <= 3 && n == 576
    requires w == Difference(k) && v == Residue(k)
    ensures HeaderValid(d, lba) && SameOutside(h, d, 16 + k, 4) && h != d
  {
    var x := Crc(WithoutCrc(h));
    var y := x ^ v;
    ResidueIs(k, n);
    var s := DamageBytes(w, k);
    DamageStart(x, y, v, k);
    d := DamageFor(h, lba, s, w, v, x, y, k, n);
  }
}

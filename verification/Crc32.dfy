/**
  CRC-32 as section 8 of RFC 1952 defines it (and `zlib.crc32` computes it), one bit at a time.
 */
module Crc32 {
  import opened Bytes
  import opened LinearRegister
  import opened ShiftRegister

  /** The word with these eight low bits. */
  function Join(b0: bool, b1: bool, b2: bool, b3: bool, b4: bool, b5: bool, b6: bool, b7: bool): bv32 {
    (if b0 then 0x1 else 0) | (if b1 then 0x2 else 0) | (if b2 then 0x4 else 0) | (if b3 then 0x8 else 0) |
    (if b4 then 0x10 else 0) | (if b5 then 0x20 else 0) | (if b6 then 0x40 else 0) | (if b7 then 0x80 else 0)
  }

  /** The number with this low digit before the digits of `rest`. */
  function Digit(b: bool, rest: nat): nat {
    (if b then 1 else 0) + 2 * rest
  }

  /** The number with these binary digits. */
  function Value(b0: bool, b1: bool, b2: bool, b3: bool, b4: bool, b5: bool, b6: bool, b7: bool): byte {
    Digit(b0, Digit(b1, Digit(b2, Digit(b3, Digit(b4, Digit(b5, Digit(b6, Digit(b7, 0))))))))
  }

  predicate Odd(n: nat) { n % 2 == 1 }

  function Rest(n: nat): nat { n / 2 }

  /** The byte as a 32-bit word. */
  function Widen(b: byte): bv32 {
    var h1 := Rest(b); var h2 := Rest(h1); var h3 := Rest(h2); var h4 := Rest(h3);
    var h5 := Rest(h4); var h6 := Rest(h5); var h7 := Rest(h6);
    Join(Odd(b), Odd(h1), Odd(h2), Odd(h3), Odd(h4), Odd(h5), Odd(h6), Odd(h7))
  }

  /** The low byte of a word. */
  function Low(x: bv32): byte {
    Value(x & 0x1 != 0, x & 0x2 != 0, x & 0x4 != 0, x & 0x8 != 0,
          x & 0x10 != 0, x & 0x20 != 0, x & 0x40 != 0, x & 0x80 != 0)
  }

  /** One bit of the message, with the reflected polynomial 0xEDB88320. */
  function BitStep(x: bv32): bv32 {
    (x >> 1) ^ (if x & 1 == 1 then 0xEDB8_8320 else 0)
  }

  function Short(w: bv32): bool { w & 0xFF00_0000 == 0 }

  function Half(x: bv32): bv32 { x >> 1 }

  function Up(x: bv32): bv32 { x << 8 }

  function Even(x: bv32): bool { x & 1 == 0 }

  function XorWords(x: bv32, y: bv32): bv32 { x ^ y }

  /** The register of CRC-32: 32 bits, low end first. */
  function Register(): Ops<bv32> {
    Ops(BitStep, XorWords, Half, Up, Even, Widen, Short, 0)
  }

  function Crc(m: bytes): bv32 {
    Run(Register(), 0xFFFF_FFFF, m) ^ 0xFFFF_FFFF
  }

  /** The low bytes of a word at four places. */
  function FieldBy(low: bv32 -> byte, x: bv32): (r: bytes)
    ensures |r| == 4
  {
    [low(x), low(x >> 8), low(x >> 16), low(x >> 24)]
  }

  /** The checksum as the little-endian field it is stored in. */
  function Field(x: bv32): (r: bytes)
    ensures |r| == 4
  {
    FieldBy(Low, x)
  }

  // ---- words and their bytes ----

  lemma DigitParts(b: bool, rest: nat)
    ensures Odd(Digit(b, rest)) == b && Rest(Digit(b, rest)) == rest
  {
  }

  lemma WidenValue(b0: bool, b1: bool, b2: bool, b3: bool, b4: bool, b5: bool, b6: bool, b7: bool)
    ensures Widen(Value(b0, b1, b2, b3, b4, b5, b6, b7)) == Join(b0, b1, b2, b3, b4, b5, b6, b7)
  {
    var v7 := Digit(b7, 0); var v6 := Digit(b6, v7); var v5 := Digit(b5, v6); var v4 := Digit(b4, v5);
    var v3 := Digit(b3, v4); var v2 := Digit(b2, v3); var v1 := Digit(b1, v2);
    DigitParts(b7, 0); DigitParts(b6, v7); DigitParts(b5, v6); DigitParts(b4, v5);
    DigitParts(b3, v4); DigitParts(b2, v3); DigitParts(b1, v2); DigitParts(b0, v1);
  }

  lemma DigitOfParts(n: nat)
    ensures Digit(Odd(n), Rest(n)) == n
  {
  }

  lemma DigitsValue(b: byte)
    ensures var h1 := Rest(b); var h2 := Rest(h1); var h3 := Rest(h2); var h4 := Rest(h3);
            var h5 := Rest(h4); var h6 := Rest(h5); var h7 := Rest(h6);
            Value(Odd(b), Odd(h1), Odd(h2), Odd(h3), Odd(h4), Odd(h5), Odd(h6), Odd(h7)) == b
  {
    var h1 := Rest(b); var h2 := Rest(h1); var h3 := Rest(h2); var h4 := Rest(h3);
    var h5 := Rest(h4); var h6 := Rest(h5); var h7 := Rest(h6);
    DigitOfParts(b); DigitOfParts(h1); DigitOfParts(h2); DigitOfParts(h3);
    DigitOfParts(h4); DigitOfParts(h5); DigitOfParts(h6); DigitOfParts(h7);
  }

  lemma JoinDigits(b0: bool, b1: bool, b2: bool, b3: bool, b4: bool, b5: bool, b6: bool, b7: bool)
    ensures var x := Join(b0, b1, b2, b3, b4, b5, b6, b7);
            (x & 0x1 != 0 <==> b0) && (x & 0x2 != 0 <==> b1) && (x & 0x4 != 0 <==> b2) && (x & 0x8 != 0 <==> b3)
    ensures var x := Join(b0, b1, b2, b3, b4, b5, b6, b7);
            (x & 0x10 != 0 <==> b4) && (x & 0x20 != 0 <==> b5) && (x & 0x40 != 0 <==> b6) && (x & 0x80 != 0 <==> b7)
    ensures Join(b0, b1, b2, b3, b4, b5, b6, b7) & 0xFFFF_FF00 == 0
  {
  }

  lemma DigitsJoin(x: bv32)
    ensures Join(x & 0x1 != 0, x & 0x2 != 0, x & 0x4 != 0, x & 0x8 != 0,
                 x & 0x10 != 0, x & 0x20 != 0, x & 0x40 != 0, x & 0x80 != 0) == x & 0xFF
  {
  }

  lemma WidenLow(x: bv32)
    ensures Widen(Low(x)) == x & 0xFF
  {
    WidenValue(x & 0x1 != 0, x & 0x2 != 0, x & 0x4 != 0, x & 0x8 != 0,
               x & 0x10 != 0, x & 0x20 != 0, x & 0x40 != 0, x & 0x80 != 0);
    DigitsJoin(x);
  }

  lemma WidenDigits(b: byte)
    ensures Low(Widen(b)) == b && IsByte(Widen(b))
  {
    var h1 := Rest(b); var h2 := Rest(h1); var h3 := Rest(h2); var h4 := Rest(h3);
    var h5 := Rest(h4); var h6 := Rest(h5); var h7 := Rest(h6);
    JoinDigits(Odd(b), Odd(h1), Odd(h2), Odd(h3), Odd(h4), Odd(h5), Odd(h6), Odd(h7));
    DigitsValue(b);
  }

  lemma LowInjective(x: bv32, y: bv32)
    requires Low(x) == Low(y)
    ensures x & 0xFF == y & 0xFF
  {
    WidenLow(x);
    WidenLow(y);
  }

  lemma FourBytes(x: bv32, y: bv32)
    requires x & 0xFF == y & 0xFF
    requires (x >> 8) & 0xFF == (y >> 8) & 0xFF
    requires (x >> 16) & 0xFF == (y >> 16) & 0xFF
    requires (x >> 24) & 0xFF == (y >> 24) & 0xFF
    ensures x == y
  {
  }

  ghost predicate SeesLowByte(low: bv32 -> byte) {
    forall x, y {:trigger low(x), low(y)} :: low(x) == low(y) ==> x & 0xFF == y & 0xFF
  }

  lemma FourLowBytes(low: bv32 -> byte, x: bv32, y: bv32)
    requires SeesLowByte(low)
    requires low(x) == low(y) && low(x >> 8) == low(y >> 8)
    requires low(x >> 16) == low(y >> 16) && low(x >> 24) == low(y >> 24)
    ensures x == y
  {
    FourBytes(x, y);
  }

  lemma LowSeesLowByte()
    ensures SeesLowByte(Low)
  {
    forall x, y | Low(x) == Low(y)
      ensures x & 0xFF == y & 0xFF
    {
      LowInjective(x, y);
    }
  }

  /** A checksum can be read back from its field. */
  lemma FieldInjective(x: bv32, y: bv32)
    requires Field(x) == Field(y)
    ensures x == y
  {
    var f, g := Field(x), Field(y);
    assert f[0] == g[0] && f[1] == g[1] && f[2] == g[2] && f[3] == g[3];
    LowSeesLowByte();
    FourLowBytes(Low, x, y);
  }

  // ---- the register is lawful ----

  lemma BitStepInjective(x: bv32, y: bv32)
    requires BitStep(x) == BitStep(y)
    ensures x == y
  {
  }

  lemma XorCancel(x: bv32, y: bv32, z: bv32)
    requires x ^ z == y ^ z
    ensures x == y
  {
    assert (x ^ z) ^ z == x && (y ^ z) ^ z == y;
  }

  lemma XorCommutes(x: bv32, y: bv32)
    ensures x ^ y == y ^ x
  {
  }

  lemma XorAssoc(a: bv32, b: bv32, c: bv32)
    ensures (a ^ b) ^ c == a ^ (b ^ c)
  {
  }

  lemma XorShift(x: bv32, z: bv32)
    ensures (x ^ z) >> 1 == (x >> 1) ^ (z >> 1)
  {
  }

  lemma LowBit(x: bv32, z: bv32)
    requires z & 1 == 0
    ensures (x ^ z) & 1 == x & 1
  {
  }

  lemma XorSwap(a: bv32, b: bv32, c: bv32)
    ensures (a ^ b) ^ c == (a ^ c) ^ b
  {
  }

  lemma BitStepPassesHighBits(x: bv32, z: bv32)
    requires z & 1 == 0
    ensures BitStep(x ^ z) == BitStep(x) ^ (z >> 1)
  {
    XorShift(x, z);
    LowBit(x, z);
    XorSwap(x >> 1, z >> 1, if x & 1 == 1 then 0xEDB8_8320 else 0);
  }

  predicate IsByte(a: bv32) { a & 0xFFFF_FF00 == 0 }

  lemma OneByteIsShort(a: bv32)
    requires IsByte(a)
    ensures Short(XorWords(a, Up(0)))
  {
  }

  lemma TwoBytesAreShort(a: bv32, b: bv32)
    requires IsByte(a) && IsByte(b)
    ensures Short(XorWords(a, Up(XorWords(b, Up(0)))))
  {
  }

  lemma ThreeBytesAreShort'(a: bv32, b: bv32, c: bv32)
    requires IsByte(a) && IsByte(b) && IsByte(c)
    ensures Short(XorWords(a, Up(XorWords(b, Up(XorWords(c, Up(0)))))))
  {
  }

  lemma WordOfBytes(m: bytes)
    ensures |m| == 0 ==> Word(Register(), m) == 0
    ensures |m| == 1 ==> Word(Register(), m) == XorWords(Widen(m[0]), Up(0))
    ensures |m| == 2 ==> Word(Register(), m) == XorWords(Widen(m[0]), Up(XorWords(Widen(m[1]), Up(0))))
    ensures |m| == 3 ==> Word(Register(), m) == XorWords(Widen(m[0]), Up(XorWords(Widen(m[1]), Up(XorWords(Widen(m[2]), Up(0))))))
  {
  }

  lemma WordIsShort(m: bytes)
    requires |m| <= 3
    ensures Short(Word(Register(), m))
  {
    WordOfBytes(m);
    if |m| == 1 {
      WidenDigits(m[0]);
      OneByteIsShort(Widen(m[0]));
    } else if |m| == 2 {
      WidenDigits(m[0]);
      WidenDigits(m[1]);
      TwoBytesAreShort(Widen(m[0]), Widen(m[1]));
    } else if |m| == 3 {
      WidenDigits(m[0]);
      WidenDigits(m[1]);
      WidenDigits(m[2]);
      ThreeBytesAreShort'(Widen(m[0]), Widen(m[1]), Widen(m[2]));
    }
  }

  lemma JoinDeterminesWords(b: bv32, w: bv32, c: bv32, v: bv32)
    requires IsByte(b) && IsByte(c)
    requires Short(w) && Short(v) && XorWords(b, Up(w)) == XorWords(c, Up(v))
    ensures b == c && w == v
  {
  }

  lemma WidenInjective(b: byte, c: byte)
    requires Widen(b) == Widen(c)
    ensures b == c
  {
    WidenDigits(b);
    WidenDigits(c);
  }

  lemma JoinDeterminesBytes(x: bv32, w: bv32, y: bv32, v: bv32, b: byte, c: byte)
    requires x == Widen(b) && y == Widen(c)
    requires IsByte(x) && IsByte(y)
    requires Short(w) && Short(v) && XorWords(x, Up(w)) == XorWords(y, Up(v))
    ensures b == c && w == v
  {
    assert x == y && w == v by {
      JoinDeterminesWords(x, w, y, v);
    }
    WidenInjective(b, c);
  }

  lemma JoinDetermines(b: byte, w: bv32, c: byte, v: bv32)
    requires Short(w) && Short(v) && XorWords(Widen(b), Up(w)) == XorWords(Widen(c), Up(v))
    ensures b == c && w == v
  {
    WidenDigits(b);
    WidenDigits(c);
    JoinDeterminesBytes(Widen(b), w, Widen(c), v, b, c);
  }

  lemma RoomBelow(w: bv32)
    ensures Even(Up(w)) && Even(Half(Up(w))) && Even(Half(Half(Up(w)))) && Even(Half(Half(Half(Up(w)))))
    ensures Even(Half(Half(Half(Half(Up(w))))))
    ensures Even(Half(Half(Half(Half(Half(Up(w)))))))
    ensures Even(Half(Half(Half(Half(Half(Half(Up(w))))))))
    ensures Even(Half(Half(Half(Half(Half(Half(Half(Up(w)))))))))
  {
  }

  lemma DownAgain(w: bv32)
    requires Short(w)
    ensures Half(Half(Half(Half(Half(Half(Half(Half(Up(w))))))))) == w
  {
  }

  lemma HalvesAreEven(w: bv32, i: nat)
    requires i < 8
    ensures Even(Steps(Half, Up(w), i))
  {
    StepsUpTo8(Half, Up(w));
    RoomBelow(w);
  }

  lemma HalvesReturn(w: bv32)
    requires Short(w)
    ensures Steps(Half, Up(w), 8) == w
  {
    StepsUpTo8(Half, Up(w));
    DownAgain(w);
  }

  lemma StepIsInjective()
    ensures Injective(BitStep)
  {
    forall x, y | BitStep(x) == BitStep(y)
      ensures x == y
    {
      BitStepInjective(x, y);
    }
  }

  lemma HighBitsPassInRegister()
    ensures HighBitsPass(Register())
  {
    forall x, z | Even(z)
      ensures BitStep(XorWords(x, z)) == XorWords(BitStep(x), Half(z))
    {
      BitStepPassesHighBits(x, z);
    }
  }

  lemma ShiftsUpInRegister()
    ensures ShiftsUp(Register())
  {
    forall w, i: nat | Short(w) && i < 8
      ensures Even(Steps(Half, Up(w), i))
    {
      HalvesAreEven(w, i);
    }
    forall w | Short(w)
      ensures Steps(Half, Up(w), 8) == w
    {
      HalvesReturn(w);
    }
  }

  lemma XorZero(x: bv32)
    ensures XorWords(x, 0) == x
  {
  }

  lemma XorHasZeroInRegister()
    ensures XorHasZero(Register())
  {
    forall x
      ensures XorWords(x, 0) == x
    {
      XorZero(x);
    }
  }

  lemma XorAssociatesInRegister()
    ensures XorAssociates(Register())
  {
    forall x: bv32, y, z
      ensures XorWords(XorWords(x, y), z) == XorWords(x, XorWords(y, z))
    {
      XorAssoc(x, y, z);
    }
  }

  lemma XorWordsCancel(x: bv32, y: bv32, z: bv32)
    ensures XorWords(x, z) == XorWords(y, z) ==> x == y
    ensures XorWords(z, x) == XorWords(z, y) ==> x == y
  {
    if x ^ z == y ^ z {
      XorCancel(x, y, z);
    }
    XorCommutes(x, z);
    XorCommutes(y, z);
  }

  lemma XorCancelsInRegister()
    ensures XorCancels(Register())
  {
    forall x: bv32, y, z
      ensures XorWords(x, z) == XorWords(y, z) ==> x == y
      ensures XorWords(z, x) == XorWords(z, y) ==> x == y
    {
      XorWordsCancel(x, y, z);
    }
  }

  lemma ThreeBytesAreShortInRegister()
    ensures ThreeBytesAreShort(Register())
  {
    forall m: bytes | |m| <= 3
      ensures Short(Word(Register(), m))
    {
      WordIsShort(m);
    }
  }

  lemma JoinsDetermineInRegister()
    ensures JoinsDetermine(Register())
  {
    forall b: byte, w, c: byte, v | Short(w) && Short(v) && XorWords(Widen(b), Up(w)) == XorWords(Widen(c), Up(v))
      ensures b == c && w == v
    {
      JoinDetermines(b, w, c, v);
    }
  }

  lemma RegisterLawful()
    ensures Lawful(Register())
  {
    StepIsInjective();
    HighBitsPassInRegister();
    XorHasZeroInRegister();
    XorAssociatesInRegister();
    XorCancelsInRegister();
    ShiftsUpInRegister();
    ThreeBytesAreShortInRegister();
    JoinsDetermineInRegister();
  }

  lemma FirstSteps(x: bv32)
    requires x == 0xFFFF_FF9E
    ensures BitStep(BitStep(BitStep(BitStep(x)))) == 0xAFF5_1D81
  {
    assert BitStep(x) == 0x7FFF_FFCF;
    assert BitStep(0x7FFF_FFCF) == 0xD247_7CC7;
    assert BitStep(0xD247_7CC7) == 0x849B_3D43;
    assert BitStep(0x849B_3D43) == 0xAFF5_1D81;
  }

  lemma LastSteps(x: bv32)
    requires x == 0xAFF5_1D81
    ensures BitStep(BitStep(BitStep(BitStep(x)))) == 0x1748_41BC
  {
    assert BitStep(x) == 0xBA42_0DE0;
    assert BitStep(0xBA42_0DE0) == 0x5D21_06F0;
    assert BitStep(0x5D21_06F0) == 0x2E90_8378;
    assert BitStep(0x2E90_8378) == 0x1748_41BC;
  }

  lemma FirstWord()
    ensures XorWords(0xFFFF_FFFF, Widen(0x61)) == 0xFFFF_FF9E
  {
    var letter := Value(true, false, false, false, false, true, true, false);
    assert letter == 0x61;
    WidenValue(true, false, false, false, false, true, true, false);
  }

  /** The published checksum of the one-byte message `a`. */
  lemma ChecksumOfA()
    ensures Crc([0x61]) == 0xE8B7_BE43
  {
    var x := XorWords(0xFFFF_FFFF, Widen(0x61));
    FirstWord();
    RunOfOneByte(Register(), 0xFFFF_FFFF, 0x61);
    StepsCompose(BitStep, x, 4, 4);
    StepsUpTo8(BitStep, x);
    FirstSteps(x);
    StepsUpTo8(BitStep, 0xAFF5_1D81);
    LastSteps(0xAFF5_1D81);
  }

  /** Every burst of at most four bytes, anywhere in a message of any length, changes the checksum. */
  lemma BurstDetected(m: bytes, n: bytes, at: nat, len: nat)
    requires SameOutside(m, n, at, len) && len <= 4 && m != n
    ensures Crc(m) != Crc(n)
  {
    if Crc(m) == Crc(n) {
      XorCancel(Run(Register(), 0xFFFF_FFFF, m), Run(Register(), 0xFFFF_FFFF, n), 0xFFFF_FFFF);
      RegisterLawful();
      RunDetectsBurst(Register(), 0xFFFF_FFFF, m, n, at, len);
    }
  }
}

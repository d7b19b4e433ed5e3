/**
  What a difference in the register becomes on its way through 72 bytes: from the start of the Reserved field of a GPT
  header to the end of the header.
 */
module CrcTail {
  import opened Crc32
  import opened LinearRegister
  import opened ShiftRegister

  // ---- the step is linear ----

  lemma Shuffle(x: bv32, y: bv32, p: bv32, q: bv32, r: bv32)
    requires r == p ^ q
    ensures (x ^ p) ^ (y ^ q) == (x ^ y) ^ r
  {
  }

  lemma Feedback(x: bv32, y: bv32)
    ensures (if (x ^ y) & 1 == 1 then 0xEDB8_8320 as bv32 else 0)
         == (if x & 1 == 1 then 0xEDB8_8320 else 0) ^ (if y & 1 == 1 then 0xEDB8_8320 else 0)
  {
  }

  lemma StepLinear(x: bv32, y: bv32)
    ensures BitStep(x ^ y) == BitStep(x) ^ BitStep(y)
  {
    XorShift(x, y);
    Feedback(x, y);
    Shuffle(x >> 1, y >> 1, if x & 1 == 1 then 0xEDB8_8320 else 0, if y & 1 == 1 then 0xEDB8_8320 else 0,
            if (x ^ y) & 1 == 1 then 0xEDB8_8320 else 0);
  }

  lemma RegisterLinear()
    ensures StepIsLinear(Register())
  {
    forall x: bv32, y
      ensures BitStep(XorWords(x, y)) == XorWords(BitStep(x), BitStep(y))
    {
      StepLinear(x, y);
    }
  }

  lemma RegisterSwaps()
    ensures XorSwaps(Register())
  {
    forall x: bv32, y, z
      ensures XorWords(XorWords(x, y), z) == XorWords(XorWords(x, z), y)
    {
      XorSwap(x, y, z);
    }
  }

  // ---- one bit, 576 steps ----

  /** Four steps of the register, written out. */
  function Four(x: bv32): bv32 {
    var a := (x >> 1) ^ (if x & 1 == 1 then 0xEDB8_8320 else 0);
    var b := (a >> 1) ^ (if a & 1 == 1 then 0xEDB8_8320 else 0);
    var c := (b >> 1) ^ (if b & 1 == 1 then 0xEDB8_8320 else 0);
    (c >> 1) ^ (if c & 1 == 1 then 0xEDB8_8320 else 0)
  }

  lemma FourWritten(x: bv32, a: bv32, b: bv32, c: bv32)
    requires a == BitStep(x) && b == BitStep(a) && c == BitStep(b)
    ensures Four(x) == BitStep(c)
  {
    // by the bits that leave the register
    if x & 1 == 1 {
      if a & 1 == 1 {
        if b & 1 == 1 {
        }
      } else if b & 1 == 1 {
      }
    } else {
      if a & 1 == 1 {
        if b & 1 == 1 {
        }
      } else if b & 1 == 1 {
      }
    }
  }

  lemma FourSteps(x: bv32)
    ensures Steps(BitStep, x, 4) == Four(x)
  {
    StepsUpTo8(BitStep, x);
    FourWritten(x, BitStep(x), BitStep(BitStep(x)), BitStep(BitStep(BitStep(x))));
  }

  /** One zero byte through the register. */
  function Eight(x: bv32): bv32 {
    Four(Four(x))
  }

  lemma EightSteps(x: bv32)
    ensures Steps(BitStep, x, 8) == Eight(x)
  {
    FourSteps(x);
    FourSteps(Four(x));
    StepsCompose(BitStep, x, 4, 4);
  }

  function TwelveBytes(x: bv32): bv32 {
    Eight(Eight(Eight(Eight(Eight(Eight(Eight(Eight(Eight(Eight(Eight(Eight(x))))))))))))
  }

  lemma TwelveBytesSteps(x: bv32, n: nat)
    ensures Steps(BitStep, x, n + 96) == TwelveBytes(Steps(BitStep, x, n))
  {
    forall y
      ensures Steps(BitStep, y, 8) == Eight(y)
    {
      EightSteps(y);
    }
    StepsTwelve(BitStep, Eight, x, n);
  }

  lemma Bytes0To12()
    ensures TwelveBytes(0x0080_0000) == 0xE605_0901
  {
    assert Four(0x0080_0000) == 0x0008_0000; assert Four(0x0008_0000) == 0x0000_8000;
    assert Four(0x0000_8000) == 0x0000_0800; assert Four(0x0000_0800) == 0x0000_0080;
    assert Four(0x0000_0080) == 0x0000_0008; assert Four(0x0000_0008) == 0xEDB8_8320;
    assert Four(0xEDB8_8320) == 0x0EDB_8832; assert Four(0x0EDB_8832) == 0x3B83_984B;
    assert Four(0x3B83_984B) == 0xC8D9_8A08; assert Four(0xC8D9_8A08) == 0xE135_1B80;
    assert Four(0xE135_1B80) == 0x0E13_51B8; assert Four(0x0E13_51B8) == 0xED59_B63B;
    assert Four(0xED59_B63B) == 0xC5B4_28EF; assert Four(0xC5B4_28EF) == 0xB1E6_B092;
    assert Four(0xB1E6_B092) == 0x3070_4BC1; assert Four(0x3070_4BC1) == 0x1EB0_14D8;
    assert Four(0x1EB0_14D8) == 0xEC53_826D; assert Four(0xEC53_826D) == 0x8816_EAF2;
    assert Four(0x8816_EAF2) == 0x33EF_4E67; assert Four(0x33EF_4E67) == 0x533B_85DA;
    assert Four(0x533B_85DA) == 0xD3E5_1BB5; assert Four(0xD3E5_1BB5) == 0x6655_004F;
    assert Four(0x6655_004F) == 0xBBD8_A218; assert Four(0xBBD8_A218) == 0xE605_0901;
  }

  lemma Bytes12To24()
    ensures TwelveBytes(0xE605_0901) == 0x4FED_41CF
  {
    assert Four(0xE605_0901) == 0x13D7_40F4; assert Four(0x13D7_40F4) == 0x77E1_359F;
    assert Four(0x77E1_359F) == 0xBAC3_E145; assert Four(0xBAC3_E145) == 0x60C7_6FE0;
    assert Four(0x60C7_6FE0) == 0x060C_76FE; assert Four(0x060C_76FE) == 0xA06A_2517;
    assert Four(0xA06A_2517) == 0x5A03_D36D; assert Four(0x5A03_D36D) == 0x8373_EFE2;
    assert Four(0x8373_EFE2) == 0x3359_1E36; assert Four(0x3359_1E36) == 0x4E87_F0BB;
    assert Four(0x4E87_F0BB) == 0xCF89_CC87; assert Four(0xCF89_CC87) == 0x5CFD_EDF4;
    assert Four(0x5CFD_EDF4) == 0x7313_9F4F; assert Four(0x7313_9F4F) == 0xBA8C_CBE8;
    assert Four(0xBA8C_CBE8) == 0xE610_4F9E; assert Four(0xE610_4F9E) == 0xAE6B_E681;
    assert Four(0xAE6B_E681) == 0x1751_AE0C; assert Four(0x1751_AE0C) == 0x9A11_D850;
    assert Four(0x9A11_D850) == 0x09A1_1D85; assert Four(0x09A1_1D85) == 0x6BF1_402C;
    assert Four(0x6BF1_402C) == 0x9DDB_D6B2; assert Four(0x9DDB_D6B2) == 0x32B3_9DA3;
    assert Four(0x32B3_9DA3) == 0x25F2_0976; assert Four(0x25F2_0976) == 0x4FED_41CF;
  }

  lemma Bytes24To36()
    ensures TwelveBytes(0x4FED_41CF) == 0xF6C1_CB59
  {
    assert Four(0x4FED_41CF) == 0xB943_2600; assert Four(0xB943_2600) == 0x0B94_3260;
    assert Four(0x0B94_3260) == 0x00B9_4326; assert Four(0x00B9_4326) == 0x4DB9_F56A;
    assert Four(0x4DB9_F56A) == 0xD20D_3CBE; assert Four(0xD20D_3CBE) == 0xAD2A_31B3;
    assert Four(0xAD2A_31B3) == 0x2C0B_93B7; assert Four(0x2C0B_93B7) == 0x52C5_C807;
    assert Four(0x52C5_C807) == 0x5529_2DBC; assert Four(0x5529_2DBC) == 0x9E36_506B;
    assert Four(0x9E36_506B) == 0xC282_D68A; assert Four(0xC282_D68A) == 0xDAFE_8E80;
    assert Four(0xDAFE_8E80) == 0x0DAF_E8E8; assert Four(0x0DAF_E8E8) == 0xED62_7DAE;
    assert Four(0xED62_7DAE) == 0xAEDC_C5A2; assert Four(0xAEDC_C5A2) == 0x3183_EC92;
    assert Four(0x3183_EC92) == 0x3876_1E01; assert Four(0x3876_1E01) == 0x1E30_7184;
    assert Four(0x1E30_7184) == 0x773F_4688; assert Four(0x773F_4688) == 0xEACB_7748;
    assert Four(0xEACB_7748) == 0xE314_3454; assert Four(0xE314_3454) == 0x78ED_02D5;
    assert Four(0x78ED_02D5) == 0x6CE5_81D9; assert Four(0x6CE5_81D9) == 0xF6C1_CB59;
  }

  lemma Bytes36To48()
    ensures TwelveBytes(0xF6C1_CB59) == 0x51CB_1426
  {
    assert Four(0xF6C1_CB59) == 0xFF63_8FF1; assert Four(0xFF63_8FF1) == 0x1241_289B;
    assert Four(0x1241_289B) == 0xCA45_A105; assert Four(0xCA45_A105) == 0x67CF_0BE4;
    assert Four(0x67CF_0BE4) == 0x70A0_B12E; assert Four(0x70A0_B12E) == 0xA700_E96A;
    assert Four(0xA700_E96A) == 0xDCA6_AD7E; assert Four(0xDCA6_AD7E) == 0xADC0_88AF;
    assert Four(0xADC0_88AF) == 0xB761_FA96; assert Four(0xB761_FA96) == 0x46C4_7EF1;
    assert Four(0x46C4_7EF1) == 0x19DB_578B; assert Four(0x19DB_578B) == 0xCAFC_06F4;
    assert Four(0xCAFC_06F4) == 0x7A73_81FF; assert Four(0x7A73_81FF) == 0xBA1A_CA03;
    assert Four(0xBA1A_CA03) == 0x2D78_9C0C; assert Four(0x2D78_9C0C) == 0x99B3_4B70;
    assert Four(0x99B3_4B70) == 0x099B_34B7; assert Four(0x099B_34B7) == 0x509C_C277;
    assert Four(0x509C_C277) == 0x550C_BD1B; assert Four(0x550C_BD1B) == 0xCE31_785D;
    assert Four(0xCE31_785D) == 0x8A30_C551; assert Four(0x8A30_C551) == 0x1514_1C31;
    assert Four(0x1514_1C31) == 0x1CE6_51A7; assert Four(0x1CE6_51A7) == 0x51CB_1426;
  }

  lemma Bytes48To60()
    ensures TwelveBytes(0x51CB_1426) == 0x0C55_6932
  {
    assert Four(0x51CB_1426) == 0x48AE_D01A; assert Four(0x48AE_D01A) == 0xD25C_4EE9;
    assert Four(0xD25C_4EE9) == 0xFD2A_57AA; assert Four(0xFD2A_57AA) == 0xD904_0692;
    assert Four(0xD904_0692) == 0x36FE_60A1; assert Four(0x36FE_60A1) == 0x1ED8_F66E;
    assert Four(0x1ED8_F66E) == 0xA1E7_6D1E; assert Four(0xA1E7_6D1E) == 0xAA14_94A9;
    assert Four(0xAA14_94A9) == 0xFAAE_DA0E; assert Four(0xFAAE_DA0E) == 0xAFA0_0FD8;
    assert Four(0xAFA0_0FD8) == 0xE742_83DD; assert Four(0xE742_83DD) == 0x88A7_FAE9;
    assert Four(0x88A7_FAE9) == 0xF885_ECEA; assert Four(0xF885_ECEA) == 0xD95E_FD26;
    assert Four(0xD95E_FD26) == 0x4027_8E8A; assert Four(0x4027_8E8A) == 0xD2D4_DB00;
    assert Four(0xD2D4_DB00) == 0x0D2D_4DB0; assert Four(0x0D2D_4DB0) == 0x00D2_D4DB;
    assert Four(0x00D2_D4DB) == 0xCB6C_9EC1; assert Four(0xCB6C_9EC1) == 0x1101_D988;
    assert Four(0x1101_D988) == 0xECA8_9EB8; assert Four(0xECA8_9EB8) == 0xE372_0ACB;
    assert Four(0xE372_0ACB) == 0xC556_9320; assert Four(0xC556_9320) == 0x0C55_6932;
  }

  lemma Bytes60To72()
    ensures TwelveBytes(0x0C55_6932) == 0x6A82_BE3E
  {
    assert Four(0x0C55_6932) == 0x3BAB_765B; assert Four(0x3BAB_765B) == 0xC8DB_04E9;
    assert Four(0xC8DB_04E9) == 0xFC82_230A; assert Four(0xFC82_230A) == 0xD91E_81D8;
    assert Four(0xD91E_81D8) == 0xE029_6B3D; assert Four(0xE029_6B3D) == 0x88D1_4467;
    assert Four(0x88D1_4467) == 0x5888_657A; assert Four(0x5888_657A) == 0xD35E_25BF;
    assert Four(0xD35E_25BF) == 0xB088_1047; assert Four(0xB088_1047) == 0x5B0D_F038;
    assert Four(0x5B0D_F038) == 0xE808_5C23; assert Four(0xE808_5C23) == 0x2859_B56E;
    assert Four(0x2859_B56E) == 0xA28F_792E; assert Four(0xA28F_792E) == 0xAA22_15EA;
    assert Four(0xAA22_15EA) == 0xDC74_82B6; assert Four(0xDC74_82B6) == 0x4075_2973;
    assert Four(0x4075_2973) == 0x22DE_623B; assert Four(0x22DE_623B) == 0xC94C_55AF;
    assert Four(0xC94C_55AF) == 0xB129_3746; assert Four(0xB129_3746) == 0x46A0_F22C;
    assert Four(0x46A0_F22C) == 0x9F0E_CD92; assert Four(0x9F0E_CD92) == 0x329E_CC11;
    assert Four(0x329E_CC11) == 0x1E9E_FCA5; assert Four(0x1E9E_FCA5) == 0x6A82_BE3E;
  }

  lemma LastBit()
    ensures Steps(BitStep, 0x0080_0000, 576) == 0x6A82_BE3E
  {
    TwelveBytesSteps(0x0080_0000, 0); Bytes0To12();
    TwelveBytesSteps(0x0080_0000, 96); Bytes12To24();
    TwelveBytesSteps(0x0080_0000, 192); Bytes24To36();
    TwelveBytesSteps(0x0080_0000, 288); Bytes36To48();
    TwelveBytesSteps(0x0080_0000, 384); Bytes48To60();
    TwelveBytesSteps(0x0080_0000, 480); Bytes60To72();
  }

  /** The bit below takes one step more. */
  lemma BitBelow(x: bv32)
    ensures Steps(BitStep, BitStep(x), 576) == BitStep(Steps(BitStep, x, 576))
  {
    StepsCompose(BitStep, x, 1, 576);
    StepsCompose(BitStep, x, 576, 1);
    StepsUpTo8(BitStep, x);
    StepsUpTo8(BitStep, Steps(BitStep, x, 576));
  }

  lemma HighBits()
    ensures AllStep(Register(), HIGH, HIGH_AFTER, 576)
  {
    LastBit();
    BitBelow(0x0080_0000); assert BitStep(0x0080_0000) == 0x0040_0000; assert BitStep(0x6A82_BE3E) == 0x3541_5F1F;
    BitBelow(0x0040_0000); assert BitStep(0x0040_0000) == 0x0020_0000; assert BitStep(0x3541_5F1F) == 0xF718_2CAF;
    BitBelow(0x0020_0000); assert BitStep(0x0020_0000) == 0x0010_0000; assert BitStep(0xF718_2CAF) == 0x9634_9577;
    BitBelow(0x0010_0000); assert BitStep(0x0010_0000) == 0x0008_0000; assert BitStep(0x9634_9577) == 0xA6A2_C99B;
    BitBelow(0x0008_0000); assert BitStep(0x0008_0000) == 0x0004_0000; assert BitStep(0xA6A2_C99B) == 0xBEE9_E7ED;
    BitBelow(0x0004_0000); assert BitStep(0x0004_0000) == 0x0002_0000; assert BitStep(0xBEE9_E7ED) == 0xB2CC_70D6;
    BitBelow(0x0002_0000); assert BitStep(0x0002_0000) == 0x0001_0000; assert BitStep(0xB2CC_70D6) == 0x5966_386B;
  }

  lemma MiddleBits()
    ensures AllStep(Register(), MIDDLE, MIDDLE_AFTER, 576)
  {
    HighBits();
    BitBelow(0x0001_0000); assert BitStep(0x0001_0000) == 0x0000_8000; assert BitStep(0x5966_386B) == 0xC10B_9F15;
    BitBelow(0x0000_8000); assert BitStep(0x0000_8000) == 0x0000_4000; assert BitStep(0xC10B_9F15) == 0x8D3D_4CAA;
    BitBelow(0x0000_4000); assert BitStep(0x0000_4000) == 0x0000_2000; assert BitStep(0x8D3D_4CAA) == 0x469E_A655;
    BitBelow(0x0000_2000); assert BitStep(0x0000_2000) == 0x0000_1000; assert BitStep(0x469E_A655) == 0xCEF7_D00A;
    BitBelow(0x0000_1000); assert BitStep(0x0000_1000) == 0x0000_0800; assert BitStep(0xCEF7_D00A) == 0x677B_E805;
    BitBelow(0x0000_0800); assert BitStep(0x0000_0800) == 0x0000_0400; assert BitStep(0x677B_E805) == 0xDE05_7722;
    BitBelow(0x0000_0400); assert BitStep(0x0000_0400) == 0x0000_0200; assert BitStep(0xDE05_7722) == 0x6F02_BB91;
    BitBelow(0x0000_0200); assert BitStep(0x0000_0200) == 0x0000_0100; assert BitStep(0x6F02_BB91) == 0xDA39_DEE8;
  }

  lemma LowBits()
    ensures AllStep(Register(), LOW, LOW_AFTER, 576)
  {
    MiddleBits();
    BitBelow(0x0000_0100); assert BitStep(0x0000_0100) == 0x0000_0080; assert BitStep(0xDA39_DEE8) == 0x6D1C_EF74;
    BitBelow(0x0000_0080); assert BitStep(0x0000_0080) == 0x0000_0040; assert BitStep(0x6D1C_EF74) == 0x368E_77BA;
    BitBelow(0x0000_0040); assert BitStep(0x0000_0040) == 0x0000_0020; assert BitStep(0x368E_77BA) == 0x1B47_3BDD;
    BitBelow(0x0000_0020); assert BitStep(0x0000_0020) == 0x0000_0010; assert BitStep(0x1B47_3BDD) == 0xE01B_1ECE;
    BitBelow(0x0000_0010); assert BitStep(0x0000_0010) == 0x0000_0008; assert BitStep(0xE01B_1ECE) == 0x700D_8F67;
    BitBelow(0x0000_0008); assert BitStep(0x0000_0008) == 0x0000_0004; assert BitStep(0x700D_8F67) == 0xD5BE_4493;
    BitBelow(0x0000_0004); assert BitStep(0x0000_0004) == 0x0000_0002; assert BitStep(0xD5BE_4493) == 0x8767_A169;
    BitBelow(0x0000_0002); assert BitStep(0x0000_0002) == 0x0000_0001; assert BitStep(0x8767_A169) == 0xAE0B_5394;
  }

  // ---- up to three bytes, 576 steps ----

  const LOW: Octet<bv32> := Octet(0x0000_0001, 0x0000_0002, 0x0000_0004, 0x0000_0008,
                                    0x0000_0010, 0x0000_0020, 0x0000_0040, 0x0000_0080)
  const LOW_AFTER: Octet<bv32> := Octet(0xAE0B_5394, 0x8767_A169, 0xD5BE_4493, 0x700D_8F67,
                                          0xE01B_1ECE, 0x1B47_3BDD, 0x368E_77BA, 0x6D1C_EF74)

  const MIDDLE: Octet<bv32> := Octet(0x0000_0100, 0x0000_0200, 0x0000_0400, 0x0000_0800,
                                    0x0000_1000, 0x0000_2000, 0x0000_4000, 0x0000_8000)
  const MIDDLE_AFTER: Octet<bv32> := Octet(0xDA39_DEE8, 0x6F02_BB91, 0xDE05_7722, 0x677B_E805,
                                          0xCEF7_D00A, 0x469E_A655, 0x8D3D_4CAA, 0xC10B_9F15)

  const HIGH: Octet<bv32> := Octet(0x0001_0000, 0x0002_0000, 0x0004_0000, 0x0008_0000,
                                    0x0010_0000, 0x0020_0000, 0x0040_0000, 0x0080_0000)
  const HIGH_AFTER: Octet<bv32> := Octet(0x5966_386B, 0xB2CC_70D6, 0xBEE9_E7ED, 0xA6A2_C99B,
                                          0x9634_9577, 0xF718_2CAF, 0x3541_5F1F, 0x6A82_BE3E)

  function On(on: bool, x: bv32): bv32 {
    if on then x else 0
  }

  function Xor8(a: bv32, b: bv32, c: bv32, d: bv32, e: bv32, f: bv32, g: bv32, h: bv32): bv32 {
    a ^ b ^ c ^ d ^ e ^ f ^ g ^ h
  }

  /** What a byte with the bits `on` becomes, when `after` is what each bit becomes. */
  function Mixed(on: Octet<bool>, after: Octet<bv32>): bv32 {
    Xor8(On(on.a, after.a), On(on.b, after.b), On(on.c, after.c), On(on.d, after.d),
         On(on.e, after.e), On(on.f, after.f), On(on.g, after.g), On(on.h, after.h))
  }

  function Bits(w: bv32, p: Octet<bv32>): Octet<bool> {
    Octet(w & p.a != 0, w & p.b != 0, w & p.c != 0, w & p.d != 0, w & p.e != 0, w & p.f != 0, w & p.g != 0, w & p.h != 0)
  }

  lemma XorIs(a: bv32, b: bv32)
    ensures Register().xor(a, b) == a ^ b
  {
  }

  lemma Flat3(a: bv32, b: bv32, c: bv32, x: bv32)
    requires x == a ^ b
    ensures x ^ c == a ^ b ^ c
  {
  }

  lemma Flat4(a: bv32, b: bv32, c: bv32, d: bv32, x: bv32)
    requires x == a ^ b ^ c
    ensures x ^ d == a ^ b ^ c ^ d
  {
  }

  lemma Flat5(a: bv32, b: bv32, c: bv32, d: bv32, e: bv32, x: bv32)
    requires x == a ^ b ^ c ^ d
    ensures x ^ e == a ^ b ^ c ^ d ^ e
  {
  }

  lemma Flat6(a: bv32, b: bv32, c: bv32, d: bv32, e: bv32, f: bv32, x: bv32)
    requires x == a ^ b ^ c ^ d ^ e
    ensures x ^ f == a ^ b ^ c ^ d ^ e ^ f
  {
  }

  lemma Flat7(a: bv32, b: bv32, c: bv32, d: bv32, e: bv32, f: bv32, g: bv32, x: bv32)
    requires x == a ^ b ^ c ^ d ^ e ^ f
    ensures x ^ g == a ^ b ^ c ^ d ^ e ^ f ^ g
  {
  }

  lemma Flat8(a: bv32, b: bv32, c: bv32, d: bv32, e: bv32, f: bv32, g: bv32, h: bv32, x: bv32)
    requires x == a ^ b ^ c ^ d ^ e ^ f ^ g
    ensures x ^ h == a ^ b ^ c ^ d ^ e ^ f ^ g ^ h
  {
  }

  lemma XorsAre(a: bv32, b: bv32, c: bv32, d: bv32, e: bv32, f: bv32, g: bv32, h: bv32)
    ensures Xors(Register().xor, a, b, c, d, e, f, g, h) == Xor8(a, b, c, d, e, f, g, h)
  {
    var ab := a ^ b; var abc := ab ^ c; var abcd := abc ^ d; var abcde := abcd ^ e; var abcdef := abcde ^ f; var abcdefg := abcdef ^ g;
    XorIs(a, b); XorIs(ab, c); XorIs(abc, d); XorIs(abcd, e); XorIs(abcde, f); XorIs(abcdef, g); XorIs(abcdefg, h);
    Chain(Register().xor, a, b, c, d, e, f, g, h, ab, abc, abcd, abcde, abcdef, abcdefg);
    Flat3(a, b, c, ab);
    Flat4(a, b, c, d, abc);
    Flat5(a, b, c, d, e, abcd);
    Flat6(a, b, c, d, e, f, abcde);
    Flat7(a, b, c, d, e, f, g, abcdef);
    Flat8(a, b, c, d, e, f, g, h, abcdefg);
  }

  lemma MixedIsSum(on: Octet<bool>, after: Octet<bv32>)
    ensures Sum(Register(), on, after) == Mixed(on, after)
  {
    var a, b, c, d := On(on.a, after.a), On(on.b, after.b), On(on.c, after.c), On(on.d, after.d);
    var e, f, g, h := On(on.e, after.e), On(on.f, after.f), On(on.g, after.g), On(on.h, after.h);
    SumOfPicks(Register(), on, after, a, b, c, d, e, f, g, h);
    XorsAre(a, b, c, d, e, f, g, h);
  }

  lemma {:induction false} ZeroSteps(n: nat)
    ensures Steps(BitStep, 0, n) == 0
  {
    if n > 0 {
      assert BitStep(0) == 0;
      ZeroSteps(n - 1);
    }
  }

  lemma MixedSteps(on: Octet<bool>, p: Octet<bv32>, after: Octet<bv32>, n: nat)
    requires AllStep(Register(), p, after, n)
    ensures Steps(BitStep, Mixed(on, p), n) == Mixed(on, after)
  {
    RegisterLinear();
    ZeroSteps(n);
    SumSteps(Register(), on, p, after, n);
    MixedIsSum(on, p);
    MixedIsSum(on, after);
  }

  function LowAfter(w: bv32): bv32 {
    (if w & 0x0000_0001 != 0 then 0xAE0B_5394 else 0) ^ (if w & 0x0000_0002 != 0 then 0x8767_A169 else 0) ^
    (if w & 0x0000_0004 != 0 then 0xD5BE_4493 else 0) ^ (if w & 0x0000_0008 != 0 then 0x700D_8F67 else 0) ^
    (if w & 0x0000_0010 != 0 then 0xE01B_1ECE else 0) ^ (if w & 0x0000_0020 != 0 then 0x1B47_3BDD else 0) ^
    (if w & 0x0000_0040 != 0 then 0x368E_77BA else 0) ^ (if w & 0x0000_0080 != 0 then 0x6D1C_EF74 else 0)
  }

  lemma LowIs(w: bv32)
    ensures Mixed(Bits(w, LOW), LOW) == w & 0xFF && Mixed(Bits(w, LOW), LOW_AFTER) == LowAfter(w)
  {
  }

  /** What the low byte of a difference becomes. */
  lemma LowSteps(w: bv32, n: nat)
    requires n == 576
    ensures Steps(BitStep, w & 0xFF, n) == LowAfter(w)
  {
    LowBits();
    MixedSteps(Bits(w, LOW), LOW, LOW_AFTER, n);
    LowIs(w);
  }

  function MiddleAfter(w: bv32): bv32 {
    (if w & 0x0000_0100 != 0 then 0xDA39_DEE8 else 0) ^ (if w & 0x0000_0200 != 0 then 0x6F02_BB91 else 0) ^
    (if w & 0x0000_0400 != 0 then 0xDE05_7722 else 0) ^ (if w & 0x0000_0800 != 0 then 0x677B_E805 else 0) ^
    (if w & 0x0000_1000 != 0 then 0xCEF7_D00A else 0) ^ (if w & 0x0000_2000 != 0 then 0x469E_A655 else 0) ^
    (if w & 0x0000_4000 != 0 then 0x8D3D_4CAA else 0) ^ (if w & 0x0000_8000 != 0 then 0xC10B_9F15 else 0)
  }

  lemma MiddleIs(w: bv32)
    ensures Mixed(Bits(w, MIDDLE), MIDDLE) == w & 0xFF00 && Mixed(Bits(w, MIDDLE), MIDDLE_AFTER) == MiddleAfter(w)
  {
  }

  /** What the middle byte of a difference becomes. */
  lemma MiddleSteps(w: bv32, n: nat)
    requires n == 576
    ensures Steps(BitStep, w & 0xFF00, n) == MiddleAfter(w)
  {
    MiddleBits();
    MixedSteps(Bits(w, MIDDLE), MIDDLE, MIDDLE_AFTER, n);
    MiddleIs(w);
  }

  function HighAfter(w: bv32): bv32 {
    (if w & 0x0001_0000 != 0 then 0x5966_386B else 0) ^ (if w & 0x0002_0000 != 0 then 0xB2CC_70D6 else 0) ^
    (if w & 0x0004_0000 != 0 then 0xBEE9_E7ED else 0) ^ (if w & 0x0008_0000 != 0 then 0xA6A2_C99B else 0) ^
    (if w & 0x0010_0000 != 0 then 0x9634_9577 else 0) ^ (if w & 0x0020_0000 != 0 then 0xF718_2CAF else 0) ^
    (if w & 0x0040_0000 != 0 then 0x3541_5F1F else 0) ^ (if w & 0x0080_0000 != 0 then 0x6A82_BE3E else 0)
  }

  lemma HighIs(w: bv32)
    ensures Mixed(Bits(w, HIGH), HIGH) == w & 0xFF_0000 && Mixed(Bits(w, HIGH), HIGH_AFTER) == HighAfter(w)
  {
  }

  /** What the high byte of a difference becomes. */
  lemma HighSteps(w: bv32, n: nat)
    requires n == 576
    ensures Steps(BitStep, w & 0xFF_0000, n) == HighAfter(w)
  {
    HighBits();
    MixedSteps(Bits(w, HIGH), HIGH, HIGH_AFTER, n);
    HighIs(w);
  }

  lemma Linear(x: bv32, x': bv32, y: bv32, y': bv32, n: nat)
    requires Steps(BitStep, x, n) == x' && Steps(BitStep, y, n) == y'
    ensures Steps(BitStep, x ^ y, n) == x' ^ y'
  {
    RegisterLinear();
    StepsLinear(Register(), x, y, n);
  }

  // ---- what shows ----

  lemma OneByteKernel(w: bv32)
    requires w & 0xFFFF_FF00 == 0 && LowAfter(w) & 0xFFFF == 0
    ensures w == 0
  {
  }

  /** A difference in one byte always shows in the two low bytes. */
  lemma OneByteShows(w: bv32, after: bv32, n: nat)
    requires w & 0xFFFF_FF00 == 0 && Steps(BitStep, w, n) == after && n == 576 && after & 0xFFFF == 0
    ensures w == 0
  {
    assert w & 0xFF == w;
    LowSteps(w, n);
    OneByteKernel(w);
  }

  lemma TwoBytesKernel(w: bv32, x: bv32, y: bv32)
    requires w & 0xFFFF_0000 == 0 && x == LowAfter(w) && y == MiddleAfter(w) && (x ^ y) & 0xFF_FFFF == 0
    ensures w == 0
  {
  }

  lemma TwoBytesApart(w: bv32, low: bv32, middle: bv32)
    requires w & 0xFFFF_0000 == 0 && low == w & 0xFF && middle == w & 0xFF00
    ensures low ^ middle == w
  {
  }

  lemma TwoBytesSteps(w: bv32, low: bv32, low': bv32, middle: bv32, middle': bv32, after: bv32, n: nat)
    requires w & 0xFFFF_0000 == 0 && low == w & 0xFF && middle == w & 0xFF00
    requires Steps(BitStep, low, n) == low' && Steps(BitStep, middle, n) == middle' && Steps(BitStep, w, n) == after
    ensures after == low' ^ middle'
  {
    TwoBytesApart(w, low, middle);
    Linear(low, low', middle, middle', n);
  }

  /** A difference in two bytes always shows in the three low bytes. */
  lemma TwoBytesShow(w: bv32, after: bv32, n: nat)
    requires w & 0xFFFF_0000 == 0 && Steps(BitStep, w, n) == after && n == 576 && after & 0xFF_FFFF == 0
    ensures w == 0
  {
    LowSteps(w, n);
    MiddleSteps(w, n);
    TwoBytesSteps(w, w & 0xFF, LowAfter(w), w & 0xFF00, MiddleAfter(w), after, n);
    TwoBytesKernel(w, LowAfter(w), MiddleAfter(w));
  }

  // ---- what does not ----

  lemma OneByteHides(n: nat)
    requires n == 576
    ensures Steps(BitStep, 0x0000_0068, n) == 0x5DC4_C300
  {
    LowSteps(0x0000_0068, n);
    assert 0x0000_0068 as bv32 & 0xFF == 0x0000_0068;
    assert LowAfter(0x0000_0068) == 0x5DC4_C300;
  }

  lemma TwoBytesHide(n: nat)
    requires n == 576
    ensures Steps(BitStep, 0x0000_0A01, n) == 0xA672_0000
  {
    LowSteps(0x0000_0A01, n);
    assert 0x0000_0A01 as bv32 & 0xFF == 0x0000_0001;
    assert LowAfter(0x0000_0A01) == 0xAE0B_5394;
    MiddleSteps(0x0000_0A01, n);
    assert 0x0000_0A01 as bv32 & 0xFF00 == 0x0000_0A00;
    assert MiddleAfter(0x0000_0A01) == 0x0879_5394;
    Linear(0x0000_0001, 0xAE0B_5394, 0x0000_0A00, 0x0879_5394, n);
    assert 0x0000_0001 as bv32 ^ 0x0000_0A00 == 0x0000_0A01;
    assert 0xAE0B_5394 as bv32 ^ 0x0879_5394 == 0xA672_0000;
  }

  lemma ThreeBytesHide(n: nat)
    requires n == 576
    ensures Steps(BitStep, 0x00C9_9C36, n) == 0xBF00_0000
  {
    LowSteps(0x00C9_9C36, n);
    assert 0x00C9_9C36 as bv32 & 0xFF == 0x0000_0036;
    assert LowAfter(0x00C9_9C36) == 0xA985_C0E9;
    MiddleSteps(0x00C9_9C36, n);
    assert 0x00C9_9C36 as bv32 & 0xFF00 == 0x0000_9C00;
    assert MiddleAfter(0x00C9_9C36) == 0xB682_D038;
    HighSteps(0x00C9_9C36, n);
    assert 0x00C9_9C36 as bv32 & 0xFF_0000 == 0x00C9_0000;
    assert HighAfter(0x00C9_9C36) == 0xA007_10D1;
    Linear(0x0000_0036, 0xA985_C0E9, 0x0000_9C00, 0xB682_D038, n);
    assert 0x0000_0036 as bv32 ^ 0x0000_9C00 == 0x0000_9C36;
    assert 0xA985_C0E9 as bv32 ^ 0xB682_D038 == 0x1F07_10D1;
    Linear(0x0000_9C36, 0x1F07_10D1, 0x00C9_0000, 0xA007_10D1, n);
    assert 0x0000_9C36 as bv32 ^ 0x00C9_0000 == 0x00C9_9C36;
    assert 0x1F07_10D1 as bv32 ^ 0xA007_10D1 == 0xBF00_0000;
  }
}

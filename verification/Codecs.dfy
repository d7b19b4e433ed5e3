/** The UTF-16LE and GUID encodings of a partition entry, with readers written from the standards. */
module Codecs {
  import opened Bytes
  import opened Wrappers

  // ---- UTF-16LE ----

  /** A Unicode scalar value: anything but a surrogate. */
  predicate Scalar(c: nat) {
    c < 0xD800 || 0xE000 <= c < 0x11_0000
  }

  /** A text as its scalar values. */
  type text = seq<nat>

  function CodePoints(s: string): (r: text)
    ensures |r| == |s|
  {
    seq(|s|, i requires 0 <= i < |s| => s[i] as nat)
  }

  predicate Scalars(t: text) {
    forall i :: 0 <= i < |t| ==> Scalar(t[i])
  }

  function EncodeChar(c: nat): (r: bytes)
    requires Scalar(c)
    ensures |r| == if c < 0x1_0000 then 2 else 4
  {
    if c < 0x1_0000 then Pack(c, 2)
    else Pack(0xD800 + (c - 0x1_0000) / 0x400, 2) + Pack(0xDC00 + (c - 0x1_0000) % 0x400, 2)
  }

  /** Python's `encode("utf-16-le")`. */
  function Encode(t: text): bytes
    requires Scalars(t)
  {
    if t == [] then [] else EncodeChar(t[0]) + Encode(t[1..])
  }

  predicate HighSurrogate(u: nat) { 0xD800 <= u < 0xDC00 }

  predicate LowSurrogate(u: nat) { 0xDC00 <= u < 0xE000 }

  function Unit(b: bytes): nat
    requires |b| >= 2
  {
    Unpack(b[..2])
  }

  /** Python's `decode("utf-16-le")`: fails on a lone surrogate and on a truncated unit or pair. */
  function Decode(b: bytes): Option<text>
    decreases |b|
  {
    if b == [] then Some([])
    else if |b| == 1 then None
    else if LowSurrogate(Unit(b)) then None
    else if !HighSurrogate(Unit(b)) then
      var rest := Decode(b[2..]);
      if rest.None? then None else Some([Unit(b)] + rest.value)
    else if |b| < 4 || !LowSurrogate(Unit(b[2..])) then None
    else
      var rest := Decode(b[4..]);
      if rest.None? then None
      else Some([0x1_0000 + (Unit(b) - 0xD800) * 0x400 + (Unit(b[2..]) - 0xDC00)] + rest.value)
  }

  lemma UnitOfPack(n: nat, rest: bytes)
    requires n < 0x1_0000
    ensures Unit(Pack(n, 2) + rest) == n
    ensures (Pack(n, 2) + rest)[2..] == rest
  {
    CapacityFacts();
    UnpackPack(n, 2);
    assert (Pack(n, 2) + rest)[..2] == Pack(n, 2);
  }

  lemma PackOfUnit(b: bytes)
    requires |b| >= 2
    ensures Unit(b) < 0x1_0000
    ensures Pack(Unit(b), 2) + b[2..] == b
  {
    CapacityFacts();
    PackUnpack(b[..2]);
    assert b[..2] + b[2..] == b;
  }

  lemma DecodeChar(c: nat, rest: bytes)
    requires Scalar(c)
    ensures Decode(EncodeChar(c) + rest) == match Decode(rest) case None => None case Some(u) => Some([c] + u)
  {
    if c < 0x1_0000 {
      UnitOfPack(c, rest);
    } else {
      var hi, lo := 0xD800 + (c - 0x1_0000) / 0x400, 0xDC00 + (c - 0x1_0000) % 0x400;
      assert EncodeChar(c) + rest == Pack(hi, 2) + (Pack(lo, 2) + rest);
      UnitOfPack(hi, Pack(lo, 2) + rest);
      UnitOfPack(lo, rest);
      assert (EncodeChar(c) + rest)[4..] == rest;
    }
  }

  /** An encoded text in front of other bytes decodes to itself in front of what they decode to. */
  lemma {:induction false} DecodeConcat(t: text, rest: bytes)
    requires Scalars(t)
    ensures Decode(Encode(t) + rest) == match Decode(rest) case None => None case Some(u) => Some(t + u)
  {
    if t == [] {
      assert Encode(t) + rest == rest;
      assert forall u: text :: t + u == u;
    } else {
      DecodeConcat(t[1..], rest);
      assert Encode(t) + rest == EncodeChar(t[0]) + (Encode(t[1..]) + rest);
      DecodeChar(t[0], Encode(t[1..]) + rest);
      assert forall u: text :: [t[0]] + (t[1..] + u) == t + u;
    }
  }

  /** Decoding an encoded text gives it back. */
  lemma DecodeEncode(t: text)
    requires Scalars(t)
    ensures Decode(Encode(t)) == Some(t)
  {
    DecodeConcat(t, []);
    assert Encode(t) + [] == Encode(t) && t + [] == t;
  }

  /** Whatever decodes is the encoding of what it decodes to. */
  lemma {:induction false} EncodeDecode(b: bytes)
    requires Decode(b).Some?
    ensures Scalars(Decode(b).value) && Encode(Decode(b).value) == b
    decreases |b|
  {
    if b == [] {
    } else if !HighSurrogate(Unit(b)) {
      EncodeDecode(b[2..]);
      PackOfUnit(b);
      assert Decode(b).value[1..] == Decode(b[2..]).value;
    } else {
      EncodeDecode(b[4..]);
      PackOfUnit(b);
      PackOfUnit(b[2..]);
      assert Decode(b).value[1..] == Decode(b[4..]).value;
      var hi, lo := Unit(b), Unit(b[2..]);
      var v := (hi - 0xD800) * 0x400 + (lo - 0xDC00);
      assert v / 0x400 == hi - 0xD800 && v % 0x400 == lo - 0xDC00;
      assert b[2..][2..] == b[4..];
      assert EncodeChar(0x1_0000 + v) == Pack(hi, 2) + Pack(lo, 2);
      assert b == Pack(hi, 2) + (Pack(lo, 2) + b[4..]);
    }
  }

  lemma {:induction false} EncodeLength(t: text)
    requires forall i :: 0 <= i < |t| ==> t[i] < 0xD800
    ensures |Encode(t)| == 2 * |t|
  {
    if t != [] {
      EncodeLength(t[1..]);
    }
  }

  // ---- GUIDs ----

  /** A UUID as Python's `uuid.UUID.bytes`: the sixteen bytes in the order of its text form. */
  type Uuid = u: bytes | |u| == 16 witness [0, 0, 0, 0, 0, 0, 0, 0, 0, 0, 0, 0, 0, 0, 0, 0]

  /** Python's `uuid.UUID.bytes_le`. */
  function BytesLe(u: Uuid): (r: bytes)
    ensures |r| == 16
  {
    [u[3], u[2], u[1], u[0], u[5], u[4], u[7], u[6]] + u[8..]
  }

  /** An EFI_GUID, Appendix A of the UEFI Specification: three little-endian integers and eight bytes. */
  datatype EfiGuid = EfiGuid(data1: nat, data2: nat, data3: nat, data4: bytes)

  function ReadGuid(b: bytes): EfiGuid
    requires |b| == 16
  {
    EfiGuid(Unpack(b[..4]), Unpack(b[4..6]), Unpack(b[6..8]), b[8..])
  }

  /** The number whose digits the text form writes out, most significant first. */
  function BigEndian(b: bytes): nat {
    if b == [] then 0 else 256 * BigEndian(b[..|b| - 1]) + b[|b| - 1]
  }

  /** The GUID that the text form of `u` names. */
  function GuidOf(u: Uuid): EfiGuid {
    EfiGuid(BigEndian(u[..4]), BigEndian(u[4..6]), BigEndian(u[6..8]), u[8..])
  }

  function Reverse(b: bytes): (r: bytes)
    ensures |r| == |b|
  {
    if b == [] then [] else [b[|b| - 1]] + Reverse(b[..|b| - 1])
  }

  lemma {:induction false} UnpackReverse(b: bytes)
    ensures Unpack(Reverse(b)) == BigEndian(b)
  {
    if b != [] {
      UnpackReverse(b[..|b| - 1]);
      assert Reverse(b)[1..] == Reverse(b[..|b| - 1]);
    }
  }

  lemma Reverse2(b: bytes)
    requires |b| == 2
    ensures Reverse(b) == [b[1], b[0]]
  {
    assert b[..1][..0] == [];
    assert Reverse(b[..1]) == [b[0]];
  }

  lemma Reverse4(b: bytes)
    requires |b| == 4
    ensures Reverse(b) == [b[3], b[2], b[1], b[0]]
  {
    assert b[..3][..2] == b[..2];
    Reverse2(b[..2]);
    assert Reverse(b[..3]) == [b[2], b[1], b[0]];
  }

  /** The bytes on disk read as an EFI_GUID are the GUID that the text form names. */
  lemma BytesLeIsEfiGuid(u: Uuid)
    ensures ReadGuid(BytesLe(u)) == GuidOf(u)
  {
    Reverse4(u[..4]);
    Reverse2(u[4..6]);
    Reverse2(u[6..8]);
    UnpackReverse(u[..4]);
    UnpackReverse(u[4..6]);
    UnpackReverse(u[6..8]);
    assert BytesLe(u)[..4] == Reverse(u[..4]);
    assert BytesLe(u)[4..6] == Reverse(u[4..6]);
    assert BytesLe(u)[6..8] == Reverse(u[6..8]);
    assert BytesLe(u)[8..] == u[8..];
  }

  /** `uuid.UUID(bytes_le = b)`. */
  function FromBytesLe(b: bytes): Uuid
    requires |b| == 16
  {
    [b[3], b[2], b[1], b[0], b[5], b[4], b[7], b[6]] + b[8..]
  }

  /** The two are inverse, both ways. */
  lemma BytesLeInverts(b: bytes)
    requires |b| == 16
    ensures BytesLe(FromBytesLe(b)) == b
  {
    assert FromBytesLe(b)[8..] == b[8..];
    assert b == b[..8] + b[8..];
  }

  lemma FromBytesLeInverts(u: Uuid)
    ensures FromBytesLe(BytesLe(u)) == u
  {
    assert BytesLe(u)[8..] == u[8..];
    assert u == u[..8] + u[8..];
  }
}

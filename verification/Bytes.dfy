/** Bytes, byte strings, and the little-endian integer fields of the on-disk structures. */
module Bytes {

  type byte = x: int | 0 <= x < 256

  type bytes = seq<byte>

  /** `n` zero bytes: Python's `bytearray(n)`. */
  function Zeros(n: nat): (r: bytes)
    ensures |r| == n
  {
    seq(n, _ => 0)
  }

  /** The number of values a `k`-byte field can hold. */
  function Capacity(k: nat): (r: nat)
    ensures r > 0
  {
    if k == 0 then 1 else 256 * Capacity(k - 1)
  }

  lemma CapacityFacts()
    ensures Capacity(2) == 0x1_0000
    ensures Capacity(4) == 0x1_0000_0000
    ensures Capacity(8) == 0x1_0000_0000_0000_0000
  {
    assert Capacity(1) == 256 * Capacity(0);
    assert Capacity(2) == 256 * Capacity(1);
    assert Capacity(3) == 256 * Capacity(2);
    assert Capacity(4) == 256 * Capacity(3);
    assert Capacity(5) == 256 * Capacity(4);
    assert Capacity(6) == 256 * Capacity(5);
    assert Capacity(7) == 256 * Capacity(6);
    assert Capacity(8) == 256 * Capacity(7);
  }

  /** `struct.pack` with a little-endian field of `k` bytes. */
  function Pack(n: nat, k: nat): (r: bytes)
    ensures |r| == k
  {
    if k == 0 then [] else [n % 256] + Pack(n / 256, k - 1)
  }

  /** `struct.unpack` of a little-endian field. */
  function Unpack(b: bytes): nat {
    if b == [] then 0 else b[0] + 256 * Unpack(b[1..])
  }

  /** Unpacking a packed number gives it back, when it fits its field. */
  lemma {:induction false} UnpackPack(n: nat, k: nat)
    requires n < Capacity(k)
    ensures Unpack(Pack(n, k)) == n
  {
    if k > 0 {
      UnpackPack(n / 256, k - 1);
      assert Pack(n, k)[1..] == Pack(n / 256, k - 1);
    }
  }

  /** Packing an unpacked field gives the same bytes back. */
  lemma {:induction false} PackUnpack(b: bytes)
    ensures Unpack(b) < Capacity(|b|)
    ensures Pack(Unpack(b), |b|) == b
  {
    if b != [] {
      PackUnpack(b[1..]);
      assert Unpack(b) % 256 == b[0] && Unpack(b) / 256 == Unpack(b[1..]);
      assert [b[0]] + b[1..] == b;
    }
  }

  /** The part of `s` that a read of `n` bytes at offset `off` returns; short past the end of the file. */
  function Read(s: bytes, off: nat, n: nat): (r: bytes)
    ensures |r| <= n
    ensures off + n <= |s| ==> r == s[off..off + n]
  {
    if off >= |s| then [] else if off + n <= |s| then s[off..off + n] else s[off..]
  }

  /** `s` with the bytes from `off` on replaced by `b`, the rest as it was. */
  function Splice(s: bytes, off: nat, b: bytes): (r: bytes)
    requires off + |b| <= |s|
    ensures |r| == |s|
  {
    s[..off] + b + s[off + |b|..]
  }
}

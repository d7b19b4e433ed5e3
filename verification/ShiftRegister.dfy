/**
  Shift-register checksums, over any type of register: what a step must satisfy for every burst of
  up to four bytes to change the checksum of a message. `Crc32` is the instance the disk uses.
 */
module ShiftRegister {
  import opened Bytes

  /** A register type with its step, and the word arithmetic that feeding bytes to it needs. */
  datatype Ops<!W> = Ops(
    step: W -> W,              // one bit of the message is consumed
    xor: (W, W) -> W,
    half: W -> W,              // one place to the right
    up: W -> W,                // eight places to the left
    even: W -> bool,
    word: byte -> W,
    short: W -> bool,          // the word has no more than three bytes
    zero: W)

  function Steps<W>(f: W -> W, x: W, n: nat): W
    decreases n
  {
    if n == 0 then x else Steps(f, f(x), n - 1)
  }

  lemma StepsUpTo8<W>(f: W -> W, x: W)
    ensures Steps(f, x, 0) == x
    ensures Steps(f, x, 1) == f(x)
    ensures Steps(f, x, 2) == f(f(x))
    ensures Steps(f, x, 3) == f(f(f(x)))
    ensures Steps(f, x, 4) == f(f(f(f(x))))
    ensures Steps(f, x, 5) == f(f(f(f(f(x)))))
    ensures Steps(f, x, 6) == f(f(f(f(f(f(x))))))
    ensures Steps(f, x, 7) == f(f(f(f(f(f(f(x)))))))
    ensures Steps(f, x, 8) == f(f(f(f(f(f(f(f(x))))))))
  {
    StepsCompose(f, x, 2, 2);
    StepsCompose(f, x, 4, 1);
    StepsCompose(f, x, 4, 2);
    StepsCompose(f, x, 6, 1);
    StepsCompose(f, x, 6, 2);
  }

  function Feed<W>(o: Ops<W>, c: W, b: byte): W {
    Steps(o.step, o.xor(c, o.word(b)), 8)
  }

  function Run<W>(o: Ops<W>, c: W, m: bytes): W
    decreases m
  {
    if m == [] then c else Run(o, Feed(o, c, m[0]), m[1..])
  }

  ghost predicate Injective<W(!new)>(f: W -> W) {
    forall x, y :: f(x) == f(y) ==> x == y
  }

  ghost predicate XorHasZero<W(!new)>(o: Ops<W>) {
    forall x :: o.xor(x, o.zero) == x
  }

  ghost predicate XorAssociates<W(!new)>(o: Ops<W>) {
    forall x, y, z {:trigger o.xor(o.xor(x, y), z)} :: o.xor(o.xor(x, y), z) == o.xor(x, o.xor(y, z))
  }

  ghost predicate XorCancels<W(!new)>(o: Ops<W>) {
    && (forall x, y, z {:trigger o.xor(x, z), o.xor(y, z)} :: o.xor(x, z) == o.xor(y, z) ==> x == y)
    && (forall x, y, z {:trigger o.xor(z, x), o.xor(z, y)} :: o.xor(z, x) == o.xor(z, y) ==> x == y)
  }

  /** What has not reached the low end of the register passes through a step unchanged. */
  ghost predicate HighBitsPass<W(!new)>(o: Ops<W>) {
    forall x, z {:trigger o.step(o.xor(x, z))} :: o.even(z) ==> o.step(o.xor(x, z)) == o.xor(o.step(x), o.half(z))
  }

  /** Shifting a word of three bytes up by a byte makes room below it and loses nothing. */
  ghost predicate ShiftsUp<W(!new)>(o: Ops<W>) {
    && (forall w, i: nat {:trigger Steps(o.half, o.up(w), i)} :: o.short(w) && i < 8 ==> o.even(Steps(o.half, o.up(w), i)))
    && (forall w {:trigger Steps(o.half, o.up(w), 8)} :: o.short(w) ==> Steps(o.half, o.up(w), 8) == w)
  }

  /** The little-endian word that up to four bytes make. */
  function Word<W>(o: Ops<W>, m: bytes): W
    decreases m
  {
    if m == [] then o.zero else o.xor(o.word(m[0]), o.up(Word(o, m[1..])))
  }

  ghost predicate ThreeBytesAreShort<W(!new)>(o: Ops<W>) {
    forall m: bytes {:trigger Word(o, m)} :: |m| <= 3 ==> o.short(Word(o, m))
  }

  /** A byte joined below a word determines both. */
  ghost predicate JoinsDetermine<W(!new)>(o: Ops<W>) {
    forall b, w, c, v {:trigger o.xor(o.word(b), o.up(w)), o.xor(o.word(c), o.up(v))} ::
      o.short(w) && o.short(v) && o.xor(o.word(b), o.up(w)) == o.xor(o.word(c), o.up(v)) ==> b == c && w == v
  }

  ghost predicate Lawful<W(!new)>(o: Ops<W>) {
    && Injective(o.step) && HighBitsPass(o)
    && XorHasZero(o) && XorAssociates(o) && XorCancels(o)
    && ShiftsUp(o) && ThreeBytesAreShort(o) && JoinsDetermine(o)
  }

  lemma {:induction false} StepsInjective<W(!new)>(f: W -> W, x: W, y: W, n: nat)
    requires Injective(f) && Steps(f, x, n) == Steps(f, y, n)
    ensures x == y
    decreases n
  {
    if n > 0 {
      StepsInjective(f, f(x), f(y), n - 1);
    }
  }

  lemma {:induction false} StepsCompose<W>(f: W -> W, x: W, n: nat, k: nat)
    ensures Steps(f, Steps(f, x, n), k) == Steps(f, x, n + k)
    decreases n
  {
    if n > 0 {
      StepsCompose(f, f(x), n - 1, k);
    }
  }

  lemma FeedInjective<W(!new)>(o: Ops<W>, c: W, d: W, b: byte)
    requires Lawful(o) && Feed(o, c, b) == Feed(o, d, b)
    ensures c == d
  {
    StepsInjective(o.step, o.xor(c, o.word(b)), o.xor(d, o.word(b)), 8);
  }

  /** Two registers that differ still differ after any message. */
  lemma {:induction false} RunInjective<W(!new)>(o: Ops<W>, c: W, d: W, m: bytes)
    requires Lawful(o) && Run(o, c, m) == Run(o, d, m)
    ensures c == d
    decreases m
  {
    if m != [] {
      RunInjective(o, Feed(o, c, m[0]), Feed(o, d, m[0]), m[1..]);
      FeedInjective(o, c, d, m[0]);
    }
  }

  lemma {:induction false} RunConcat<W>(o: Ops<W>, c: W, m: bytes, n: bytes)
    ensures Run(o, c, m + n) == Run(o, Run(o, c, m), n)
    decreases m
  {
    if m == [] {
      assert m + n == n;
    } else {
      RunConcat(o, Feed(o, c, m[0]), m[1..], n);
      assert (m + n)[1..] == m[1..] + n;
    }
  }

  lemma {:induction false} StepsPass<W(!new)>(o: Ops<W>, x: W, z: W, n: nat)
    requires HighBitsPass(o)
    requires forall i: nat :: i < n ==> o.even(Steps(o.half, z, i))
    ensures Steps(o.step, o.xor(x, z), n) == o.xor(Steps(o.step, x, n), Steps(o.half, z, n))
    decreases n
  {
    if n > 0 {
      assert o.even(Steps(o.half, z, 0));
      forall i: nat | i < n - 1
        ensures o.even(Steps(o.half, o.half(z), i))
      {
        assert Steps(o.half, z, i + 1) == Steps(o.half, o.half(z), i);
      }
      StepsPass(o, o.step(x), o.half(z), n - 1);
    }
  }

  lemma AbsorbNextBytes<W(!new)>(o: Ops<W>, c: W, b: byte, w: W, k: nat)
    requires Lawful(o) && o.short(w)
    ensures Steps(o.step, o.xor(Feed(o, c, b), w), k) == Steps(o.step, o.xor(c, o.xor(o.word(b), o.up(w))), 8 + k)
  {
    var x, z := o.xor(c, o.word(b)), o.up(w);
    StepsPass(o, x, z, 8);
    StepsCompose(o.step, o.xor(x, z), 8, k);
  }

  lemma AbsorbWord<W(!new)>(o: Ops<W>, c: W, m: bytes, n: nat)
    requires Lawful(o) && 0 < |m| <= 4
    requires Run(o, Feed(o, c, m[0]), m[1..]) == Steps(o.step, o.xor(Feed(o, c, m[0]), Word(o, m[1..])), n)
    ensures Run(o, c, m) == Steps(o.step, o.xor(c, Word(o, m)), 8 + n)
  {
    AbsorbNextBytes(o, c, m[0], Word(o, m[1..]), n);
  }

  /** Feeding up to four bytes is xoring one word in and stepping once per bit. */
  lemma {:induction false} RunIsWord<W(!new)>(o: Ops<W>, c: W, m: bytes)
    requires Lawful(o) && |m| <= 4
    ensures Run(o, c, m) == Steps(o.step, o.xor(c, Word(o, m)), 8 * |m|)
    decreases m
  {
    if m == [] {
      assert XorHasZero(o);
    } else {
      var n := 8 * |m[1..]|;
      assert Run(o, Feed(o, c, m[0]), m[1..]) == Steps(o.step, o.xor(Feed(o, c, m[0]), Word(o, m[1..])), n) by {
        RunIsWord(o, Feed(o, c, m[0]), m[1..]);
      }
      AbsorbWord(o, c, m, n);
      assert 8 * |m| == 8 + n;
    }
  }

  lemma {:induction false} WordInjective<W(!new)>(o: Ops<W>, m: bytes, n: bytes)
    requires Lawful(o) && |m| == |n| <= 4 && Word(o, m) == Word(o, n)
    ensures m == n
    decreases m
  {
    if m != [] {
      WordInjective(o, m[1..], n[1..]);
      assert m == [m[0]] + m[1..] && n == [n[0]] + n[1..];
    }
  }

  lemma ShortRunInjective<W(!new)>(o: Ops<W>, c: W, m: bytes, n: bytes)
    requires Lawful(o) && |m| == |n| <= 4 && Run(o, c, m) == Run(o, c, n)
    ensures m == n
  {
    RunIsWord(o, c, m);
    RunIsWord(o, c, n);
    StepsInjective(o.step, o.xor(c, Word(o, m)), o.xor(c, Word(o, n)), 8 * |m|);
    WordInjective(o, m, n);
  }

  /** The two messages have the same length and agree outside `len` bytes at `at`. */
  predicate SameOutside(m: bytes, n: bytes, at: nat, len: nat) {
    |m| == |n| && at + len <= |m| && m[..at] == n[..at] && m[at + len..] == n[at + len..]
  }

  lemma RunInThree<W>(o: Ops<W>, c: W, p: bytes, q: bytes, r: bytes)
    ensures Run(o, c, p + q + r) == Run(o, Run(o, Run(o, c, p), q), r)
  {
    RunConcat(o, c, p + q, r);
    RunConcat(o, c, p, q);
  }

  lemma BurstInRegister<W(!new)>(o: Ops<W>, d: W, p: bytes, q: bytes, r: bytes)
    requires Lawful(o) && |p| == |q| <= 4
    requires Run(o, Run(o, d, p), r) == Run(o, Run(o, d, q), r)
    ensures p == q
  {
    RunInjective(o, Run(o, d, p), Run(o, d, q), r);
    ShortRunInjective(o, d, p, q);
  }

  /** Messages of any length that agree outside four adjacent bytes and leave the same register are equal. */
  lemma RunDetectsBurst<W(!new)>(o: Ops<W>, c: W, m: bytes, n: bytes, at: nat, len: nat)
    requires Lawful(o) && SameOutside(m, n, at, len) && len <= 4
    requires Run(o, c, m) == Run(o, c, n)
    ensures m == n
  {
    var p, q, r := m[at..at + len], n[at..at + len], m[at + len..];
    assert m == m[..at] + p + r && n == m[..at] + q + r;
    RunInThree(o, c, m[..at], p, r);
    RunInThree(o, c, m[..at], q, r);
    BurstInRegister(o, Run(o, c, m[..at]), p, q, r);
  }
}

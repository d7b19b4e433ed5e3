/** Shift registers whose step is linear: what a difference between two messages does to the checksum. */
module LinearRegister {
  import opened Bytes
  import opened ShiftRegister

  lemma RunOfOneByte<W>(o: Ops<W>, c: W, b: byte)
    ensures Run(o, c, [b]) == Steps(o.step, o.xor(c, o.word(b)), 8)
  {
    assert [b][1..] == [];
  }

  /** Twelve bytes of zeros, when `e` is one of them. */
  lemma StepsTwelve<W(!new)>(f: W -> W, e: W -> W, x: W, n: nat)
    requires forall y :: Steps(f, y, 8) == e(y)
    ensures Steps(f, x, n + 96) == e(e(e(e(e(e(e(e(e(e(e(e(Steps(f, x, n)))))))))))))
  {
    StepsCompose(f, x, n, 8);
    StepsCompose(f, x, n + 8, 8);
    StepsCompose(f, x, n + 16, 8);
    StepsCompose(f, x, n + 24, 8);
    StepsCompose(f, x, n + 32, 8);
    StepsCompose(f, x, n + 40, 8);
    StepsCompose(f, x, n + 48, 8);
    StepsCompose(f, x, n + 56, 8);
    StepsCompose(f, x, n + 64, 8);
    StepsCompose(f, x, n + 72, 8);
    StepsCompose(f, x, n + 80, 8);
    StepsCompose(f, x, n + 88, 8);
  }

  ghost predicate StepIsLinear<W(!new)>(o: Ops<W>) {
    forall x, y {:trigger o.step(o.xor(x, y))} :: o.step(o.xor(x, y)) == o.xor(o.step(x), o.step(y))
  }

  ghost predicate XorSwaps<W(!new)>(o: Ops<W>) {
    forall x, y, z {:trigger o.xor(o.xor(x, y), z)} :: o.xor(o.xor(x, y), z) == o.xor(o.xor(x, z), y)
  }

  lemma {:induction false} StepsLinear<W(!new)>(o: Ops<W>, x: W, y: W, n: nat)
    requires StepIsLinear(o)
    ensures Steps(o.step, o.xor(x, y), n) == o.xor(Steps(o.step, x, n), Steps(o.step, y, n))
    decreases n
  {
    if n > 0 {
      StepsLinear(o, o.step(x), o.step(y), n - 1);
    }
  }

  // ---- sums of eight ----

  datatype Octet<T> = Octet(a: T, b: T, c: T, d: T, e: T, f: T, g: T, h: T)

  function Pick<W>(o: Ops<W>, on: bool, x: W): W {
    if on then x else o.zero
  }

  function Xors<W>(xor: (W, W) -> W, a: W, b: W, c: W, d: W, e: W, f: W, g: W, h: W): W {
    xor(xor(xor(xor(xor(xor(xor(a, b), c), d), e), f), g), h)
  }

  lemma Chain<W>(xor: (W, W) -> W, a: W, b: W, c: W, d: W, e: W, f: W, g: W, h: W,
                 ab: W, abc: W, abcd: W, abcde: W, abcdef: W, abcdefg: W)
    requires xor(a, b) == ab && xor(ab, c) == abc && xor(abc, d) == abcd && xor(abcd, e) == abcde
    requires xor(abcde, f) == abcdef && xor(abcdef, g) == abcdefg
    ensures Xors(xor, a, b, c, d, e, f, g, h) == xor(abcdefg, h)
  {
  }

  /** The sum of the words that are picked. */
  function Sum<W>(o: Ops<W>, on: Octet<bool>, x: Octet<W>): W {
    Xors(o.xor, Pick(o, on.a, x.a), Pick(o, on.b, x.b), Pick(o, on.c, x.c), Pick(o, on.d, x.d),
         Pick(o, on.e, x.e), Pick(o, on.f, x.f), Pick(o, on.g, x.g), Pick(o, on.h, x.h))
  }

  lemma SumOfPicks<W>(o: Ops<W>, on: Octet<bool>, x: Octet<W>, a: W, b: W, c: W, d: W, e: W, f: W, g: W, h: W)
    requires a == Pick(o, on.a, x.a) && b == Pick(o, on.b, x.b) && c == Pick(o, on.c, x.c) && d == Pick(o, on.d, x.d)
    requires e == Pick(o, on.e, x.e) && f == Pick(o, on.f, x.f) && g == Pick(o, on.g, x.g) && h == Pick(o, on.h, x.h)
    ensures Sum(o, on, x) == Xors(o.xor, a, b, c, d, e, f, g, h)
  {
  }

  predicate AllStep<W(==)>(o: Ops<W>, x: Octet<W>, y: Octet<W>, n: nat) {
    && Steps(o.step, x.a, n) == y.a && Steps(o.step, x.b, n) == y.b && Steps(o.step, x.c, n) == y.c && Steps(o.step, x.d, n) == y.d
    && Steps(o.step, x.e, n) == y.e && Steps(o.step, x.f, n) == y.f && Steps(o.step, x.g, n) == y.g && Steps(o.step, x.h, n) == y.h
  }

  lemma SumSteps<W(!new)>(o: Ops<W>, on: Octet<bool>, x: Octet<W>, y: Octet<W>, n: nat)
    requires StepIsLinear(o) && Steps(o.step, o.zero, n) == o.zero && AllStep(o, x, y, n)
    ensures Steps(o.step, Sum(o, on, x), n) == Sum(o, on, y)
  {
    var ab := o.xor(Pick(o, on.a, x.a), Pick(o, on.b, x.b));
    var abc := o.xor(ab, Pick(o, on.c, x.c));
    var abcd := o.xor(abc, Pick(o, on.d, x.d));
    var abcde := o.xor(abcd, Pick(o, on.e, x.e));
    var abcdef := o.xor(abcde, Pick(o, on.f, x.f));
    var abcdefg := o.xor(abcdef, Pick(o, on.g, x.g));
    StepsLinear(o, Pick(o, on.a, x.a), Pick(o, on.b, x.b), n);
    StepsLinear(o, ab, Pick(o, on.c, x.c), n);
    StepsLinear(o, abc, Pick(o, on.d, x.d), n);
    StepsLinear(o, abcd, Pick(o, on.e, x.e), n);
    StepsLinear(o, abcde, Pick(o, on.f, x.f), n);
    StepsLinear(o, abcdef, Pick(o, on.g, x.g), n);
    StepsLinear(o, abcdefg, Pick(o, on.h, x.h), n);
  }

  // ---- differences between messages ----

  lemma FeedLinear<W(!new)>(o: Ops<W>, c: W, d: W, b: byte)
    requires StepIsLinear(o) && XorSwaps(o)
    ensures Feed(o, o.xor(c, d), b) == o.xor(Feed(o, c, b), Steps(o.step, d, 8))
  {
    StepsLinear(o, o.xor(c, o.word(b)), d, 8);
  }

  /** A difference in the register runs through a message by itself, as if through zeros. */
  lemma {:induction false} RunLinear<W(!new)>(o: Ops<W>, c: W, d: W, m: bytes)
    requires StepIsLinear(o) && XorSwaps(o)
    ensures Run(o, o.xor(c, d), m) == o.xor(Run(o, c, m), Steps(o.step, d, 8 * |m|))
    decreases m
  {
    if m != [] {
      var rest := m[1..];
      FeedLinear(o, c, d, m[0]);
      RunLinear(o, Feed(o, c, m[0]), Steps(o.step, d, 8), rest);
      EightMore(o.step, d, |rest|);
    }
  }

  lemma EightMore<W>(f: W -> W, d: W, n: nat)
    ensures Steps(f, Steps(f, d, 8), 8 * n) == Steps(f, d, 8 * (n + 1))
  {
    StepsCompose(f, d, 8, 8 * n);
  }

  /** Up to four bytes that differ from others by the word `d`. */
  lemma ShortDiffers<W(!new)>(o: Ops<W>, x: W, r: bytes, s: bytes, d: W)
    requires Lawful(o) && StepIsLinear(o) && |r| == |s| <= 4 && o.xor(x, Word(o, s)) == o.xor(o.xor(x, Word(o, r)), d)
    ensures Run(o, x, s) == o.xor(Run(o, x, r), Steps(o.step, d, 8 * |r|))
  {
    RunIsWord(o, x, r);
    RunIsWord(o, x, s);
    StepsLinear(o, o.xor(x, Word(o, r)), d, 8 * |r|);
  }

  lemma TailDiffers<W(!new)>(o: Ops<W>, c: W, d: W, k: nat, post: bytes, n: nat)
    requires StepIsLinear(o) && XorSwaps(o) && n == k + 8 * |post|
    ensures Run(o, o.xor(c, Steps(o.step, d, k)), post) == o.xor(Run(o, c, post), Steps(o.step, d, n))
  {
    RunLinear(o, c, Steps(o.step, d, k), post);
    StepsCompose(o.step, d, k, 8 * |post|);
  }

  /** Messages that differ in up to four bytes: the difference is that of the bytes, carried to the end. */
  lemma WordDiffers<W(!new)>(o: Ops<W>, c: W, pre: bytes, r: bytes, s: bytes, post: bytes, d: W, n: nat)
    requires Lawful(o) && StepIsLinear(o) && XorSwaps(o) && |r| == |s| <= 4 && n == 8 * |r| + 8 * |post|
    requires var x := Run(o, c, pre); o.xor(x, Word(o, s)) == o.xor(o.xor(x, Word(o, r)), d)
    ensures Run(o, c, pre + s + post) == o.xor(Run(o, c, pre + r + post), Steps(o.step, d, n))
  {
    var x := Run(o, c, pre);
    RunInThree(o, c, pre, r, post);
    RunInThree(o, c, pre, s, post);
    ShortDiffers(o, x, r, s, d);
    TailDiffers(o, Run(o, x, r), d, 8 * |r|, post, n);
  }
}

/** The disk layout, computed as the shell computes it: in 64-bit arithmetic that wraps around. */
module Layout {

  const BLOCK: nat := 512
  const ESP_FIRST: nat := 2048
  const ENTRY_BYTES: nat := 128 * 128

  /** A number reduced to a signed 64-bit value. */
  function Wrap(n: int): int {
    (n + 0x8000_0000_0000_0000) % 0x1_0000_0000_0000_0000 - 0x8000_0000_0000_0000
  }

  /** Division that truncates toward zero. */
  function Quotient(n: int, d: int): int
    requires d > 0
  {
    if n >= 0 then n / d else -(-n / d)
  }

  /** What the shell works out from `SIZE_MiB`. */
  datatype Plan = Plan(espBlocks: int, espBytes: int, totalBlocks: int, diskBytes: int)

  function ShellPlan(sizeMiB: int): Plan {
    var blocks := Quotient(Wrap(Wrap(sizeMiB * 1024) * 1024), BLOCK);
    var espBlocks := Wrap(Wrap(blocks - ESP_FIRST) - 33);
    var totalBlocks := Wrap(Wrap(ESP_FIRST + espBlocks) + 33);
    Plan(espBlocks, Wrap(espBlocks * BLOCK), totalBlocks, Wrap(totalBlocks * BLOCK))
  }

  /** What the layout is meant to be: a disk of `sizeMiB` MiB whose ESP takes all but the GPT. */
  function IntendedPlan(sizeMiB: int): Plan {
    Plan(sizeMiB * 2048 - 2081, (sizeMiB * 2048 - 2081) * 512, sizeMiB * 2048, sizeMiB * 1024 * 1024)
  }

  /** Wrapping changes a number by a multiple of 2^64, into the signed range. */
  lemma WrapIs(n: int)
    ensures -0x8000_0000_0000_0000 <= Wrap(n) < 0x8000_0000_0000_0000 && (n - Wrap(n)) % 0x1_0000_0000_0000_0000 == 0
  {
    var q := (n + 0x8000_0000_0000_0000) / 0x1_0000_0000_0000_0000;
    assert n - Wrap(n) == q * 0x1_0000_0000_0000_0000;
  }

  /** The remainder of a quotient is smaller than the divisor, and has the sign of the number. */
  lemma QuotientIs(n: int, d: int)
    requires d > 0
    ensures var r := n - Quotient(n, d) * d; -d < r < d && (n >= 0 ==> r >= 0) && (n <= 0 ==> r <= 0)
  {
  }

  lemma WrapFits(n: int)
    requires -0x8000_0000_0000_0000 <= n < 0x8000_0000_0000_0000
    ensures Wrap(n) == n
  {
  }

  lemma WrapRange(n: int)
    ensures -0x8000_0000_0000_0000 <= Wrap(n) < 0x8000_0000_0000_0000
  {
  }

  lemma PlanWithoutOverflow(sizeMiB: int)
    requires 0 <= sizeMiB < 0x800_0000_0000
    ensures ShellPlan(sizeMiB) == IntendedPlan(sizeMiB)
  {
    WrapFits(sizeMiB * 1024);
    WrapFits(sizeMiB * 1024 * 1024);
    var blocks := sizeMiB * 1024 * 1024 / BLOCK;
    assert blocks == sizeMiB * 2048;
    WrapFits(blocks - ESP_FIRST);
    WrapFits(blocks - ESP_FIRST - 33);
    WrapFits(blocks - 33);
    WrapFits(blocks);
    WrapFits((blocks - ESP_FIRST - 33) * BLOCK);
    WrapFits(blocks * BLOCK);
  }

  /** The plan is the intended one exactly for sizes below 2^43 MiB: from there on the product wraps around. */
  lemma PlanIsExact(sizeMiB: int)
    requires 0 <= sizeMiB
    ensures ShellPlan(sizeMiB) == IntendedPlan(sizeMiB) <==> sizeMiB < 0x800_0000_0000
  {
    if sizeMiB < 0x800_0000_0000 {
      PlanWithoutOverflow(sizeMiB);
    } else {
      var product := Wrap(Wrap(sizeMiB * 1024) * 1024);
      WrapRange(Wrap(sizeMiB * 1024) * 1024);
      var blocks := Quotient(product, BLOCK);
      assert -0x40_0000_0000_0000 <= blocks < 0x40_0000_0000_0000;
      WrapFits(blocks - ESP_FIRST);
      WrapFits(blocks - ESP_FIRST - 33);
      WrapFits(blocks - 33);
      WrapFits(blocks);
      assert ShellPlan(sizeMiB).totalBlocks == blocks < sizeMiB * 2048;
    }
  }

  /** The sizes a run is for: the ESP is not empty and nothing overflows. */
  predicate ValidSize(sizeMiB: int) {
    2 <= sizeMiB < 0x800_0000_0000
  }

  /** These are exactly the sizes for which the shell works out the intended plan and it has an ESP. */
  lemma ValidSizeExactly(sizeMiB: int)
    ensures ValidSize(sizeMiB) <==> ShellPlan(sizeMiB) == IntendedPlan(sizeMiB) && IntendedPlan(sizeMiB).espBlocks > 0
  {
    if sizeMiB >= 0 {
      PlanIsExact(sizeMiB);
    }
  }

  // ---- the regions of a disk of `total` blocks, in bytes ----

  /** A byte range of the disk, `lo` included and `hi` not. */
  datatype Region = Region(lo: nat, hi: nat) {
    predicate Holds(i: int) { lo <= i < hi }
  }

  predicate ValidTotal(total: int) {
    2048 + 33 < total < 0x40_0000_0000_0000
  }

  function Blocks(first: nat, next: nat): Region { Region(first * BLOCK, next * BLOCK) }

  function MbrRegion(): Region { Blocks(0, 1) }
  function PrimaryHeader(): Region { Blocks(1, 2) }
  function PrimaryEntries(): Region { Blocks(2, 34) }
  function Gap(): Region { Blocks(34, ESP_FIRST) }
  function Esp(total: nat): Region
    requires ValidTotal(total)
  { Blocks(ESP_FIRST, total - 33) }
  function SecondaryEntries(total: nat): Region
    requires ValidTotal(total)
  { Blocks(total - 33, total - 1) }
  function SecondaryHeader(total: nat): Region
    requires ValidTotal(total)
  { Blocks(total - 1, total) }

  function Regions(total: nat): (r: seq<Region>)
    requires ValidTotal(total)
    ensures |r| == 7
  {
    [MbrRegion(), PrimaryHeader(), PrimaryEntries(), Gap(), Esp(total), SecondaryEntries(total), SecondaryHeader(total)]
  }

  ghost predicate Covered(rs: seq<Region>, i: int) {
    exists k :: 0 <= k < |rs| && rs[k].Holds(i)
  }

  /** The regions cover the disk exactly. */
  ghost predicate Tiles(rs: seq<Region>, size: nat) {
    forall i {:trigger Covered(rs, i)} :: Covered(rs, i) <==> 0 <= i < size
  }

  ghost predicate PairwiseDisjoint(rs: seq<Region>) {
    forall j, k, i {:trigger rs[j].Holds(i), rs[k].Holds(i)} ::
      0 <= j < k < |rs| && rs[j].Holds(i) ==> !rs[k].Holds(i)
  }

  /** Each region starts where the one before ends. */
  predicate Chained(rs: seq<Region>, lo: nat, hi: nat) {
    if rs == [] then lo == hi else rs[0].lo == lo <= rs[0].hi && Chained(rs[1..], rs[0].hi, hi)
  }

  lemma {:induction false} ChainedCovers(rs: seq<Region>, lo: nat, hi: nat, i: int)
    requires Chained(rs, lo, hi)
    ensures lo <= hi && (Covered(rs, i) <==> lo <= i < hi)
  {
    if rs != [] {
      ChainedCovers(rs[1..], rs[0].hi, hi, i);
      if Covered(rs[1..], i) {
        var k :| 0 <= k < |rs[1..]| && rs[1..][k].Holds(i);
        assert rs[k + 1].Holds(i);
      }
      if Covered(rs, i) {
        var k :| 0 <= k < |rs| && rs[k].Holds(i);
        assert k > 0 ==> rs[1..][k - 1].Holds(i);
      }
      if lo <= i < rs[0].hi {
        assert rs[0].Holds(i);
      }
    }
  }

  lemma {:induction false} ChainedDisjoint(rs: seq<Region>, lo: nat, hi: nat, j: nat, k: nat, i: int)
    requires Chained(rs, lo, hi) && j < k < |rs| && rs[j].Holds(i)
    ensures !rs[k].Holds(i)
  {
    if j > 0 {
      ChainedDisjoint(rs[1..], rs[0].hi, hi, j - 1, k - 1, i);
    } else if rs[k].Holds(i) {
      assert rs[1..][k - 1].Holds(i);
      assert Covered(rs[1..], i);
      ChainedCovers(rs[1..], rs[0].hi, hi, i);
    }
  }

  lemma RegionsChained(total: nat)
    requires ValidTotal(total)
    ensures Chained(Regions(total), 0, total * BLOCK)
  {
    var rs := Regions(total);
    assert Chained(rs[6..], rs[6].lo, total * BLOCK);
    assert rs[5..][1..] == rs[6..];
    assert Chained(rs[5..], rs[5].lo, total * BLOCK);
    assert rs[4..][1..] == rs[5..];
    assert rs[3..][1..] == rs[4..];
    assert Chained(rs[3..], rs[3].lo, total * BLOCK);
    assert rs[2..][1..] == rs[3..];
    assert rs[1..][1..] == rs[2..];
    assert Chained(rs[1..], rs[1].lo, total * BLOCK);
  }

  lemma ChainedTiles(rs: seq<Region>, size: nat)
    requires Chained(rs, 0, size)
    ensures Tiles(rs, size) && PairwiseDisjoint(rs)
  {
    forall i: int
      ensures Covered(rs, i) <==> 0 <= i < size
    {
      ChainedCovers(rs, 0, size, i);
    }
    forall j, k, i | 0 <= j < k < |rs| && rs[j].Holds(i)
      ensures !rs[k].Holds(i)
    {
      ChainedDisjoint(rs, 0, size, j, k, i);
    }
  }

  /** The regions tile the disk, and the ESP ends with the last usable block that the headers name. */
  ghost predicate WellLaidOut(plan: Plan) {
    && ValidTotal(plan.totalBlocks)
    && plan.diskBytes == plan.totalBlocks * BLOCK
    && Tiles(Regions(plan.totalBlocks), plan.diskBytes)
    && PairwiseDisjoint(Regions(plan.totalBlocks))
    && plan.espBytes == plan.espBlocks * BLOCK > 0
    && Esp(plan.totalBlocks) == Region(ESP_FIRST * BLOCK, ESP_FIRST * BLOCK + plan.espBytes)
    && Esp(plan.totalBlocks).hi == (plan.totalBlocks - 34 + 1) * BLOCK
  }

  lemma IntendedWellLaidOut(sizeMiB: int)
    requires ValidSize(sizeMiB)
    ensures WellLaidOut(IntendedPlan(sizeMiB))
  {
    var total := sizeMiB * 2048;
    RegionsChained(total);
    ChainedTiles(Regions(total), total * BLOCK);
  }

  /** Every valid size is well laid out by the arithmetic of the shell. */
  lemma ShellWellLaidOut(sizeMiB: int)
    requires ValidSize(sizeMiB)
    ensures WellLaidOut(ShellPlan(sizeMiB))
  {
    IntendedWellLaidOut(sizeMiB);
    PlanWithoutOverflow(sizeMiB);
  }

  /** The block count in the protective MBR saturates, by `min`, exactly above 2 TiB. */
  function MbrBlocks(total: nat): (r: nat)
    requires total > 0
    ensures r < 0x1_0000_0000
  {
    if total - 1 < 0xFFFF_FFFF then total - 1 else 0xFFFF_FFFF
  }

  lemma MbrSaturatesAbove2TiB(sizeMiB: int)
    requires ValidSize(sizeMiB)
    ensures ShellPlan(sizeMiB).totalBlocks > 0
    ensures MbrBlocks(ShellPlan(sizeMiB).totalBlocks) == ShellPlan(sizeMiB).totalBlocks - 1 <==> sizeMiB <= 0x20_0000
  {
    PlanWithoutOverflow(sizeMiB);
  }
}

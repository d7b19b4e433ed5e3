/** The one field of the protective MBR that depends on a disk geometry, and when the script gets it right. */
module EndingChs {
  import opened Bytes
  import opened Gpt
  import opened Layout

  /** The heads and sectors per track that a cylinder-head-sector address can count. */
  predicate Geometry(heads: nat, sectors: nat) {
    1 <= heads <= 256 && 1 <= sectors <= 63
  }

  const NOT_REPRESENTABLE: bytes := [0xFF, 0xFF, 0xFF]

  /** A cylinder, a head and a sector, packed: the two high bits of the cylinder are beside the sector. */
  function Packed(cylinder: nat, head: nat, sector: nat): (r: bytes)
    requires cylinder <= 1023 && head <= 255 && 1 <= sector <= 63
    ensures |r| == 3
  {
    [head, cylinder / 256 * 64 + sector, cylinder % 256]
  }

  function Whole(n: nat, d: nat): nat
    requires d > 0
  {
    n / d
  }

  function Remainder(n: nat, d: nat): (r: nat)
    requires d > 0
    ensures r < d
  {
    n % d
  }

  /** The address of a block in three bytes, when its cylinder is below 1024. */
  function ChsOf(block: nat, heads: nat, sectors: nat): (r: bytes)
    requires Geometry(heads, sectors)
    ensures |r| == 3
  {
    var track := Whole(block, sectors);
    if Whole(track, heads) > 1023 then NOT_REPRESENTABLE
    else Packed(Whole(track, heads), Remainder(track, heads), Remainder(block, sectors) + 1)
  }

  /** The address names the block: its cylinder, head and sector, unpacked, count up to it. */
  lemma AddressNamesBlock(block: nat, heads: nat, sectors: nat)
    requires Geometry(heads, sectors) && Whole(Whole(block, sectors), heads) <= 1023
    ensures var a := ChsOf(block, heads, sectors);
            var head, sector, cylinder := a[0], a[1] % 64, (a[1] as nat) / 64 * 256 + a[2];
            && 1 <= sector <= sectors && head < heads && block == (cylinder * heads + head) * sectors + (sector - 1)
  {
    var track := Whole(block, sectors);
    var cylinder, head, sector := Whole(track, heads), Remainder(track, heads), Remainder(block, sectors) + 1;
    assert cylinder / 256 * 256 + cylinder % 256 == cylinder;
    assert cylinder * heads + head == track;
    assert track * sectors + (sector - 1) == block;
    Unpacked(cylinder, head, sector);
  }

  lemma Unpacked(cylinder: nat, head: nat, sector: nat)
    requires cylinder <= 1023 && head <= 255 && 1 <= sector <= 63
    ensures var a := Packed(cylinder, head, sector);
            a[0] == head && a[1] % 64 == sector && (a[1] as nat) / 64 * 256 + a[2] == cylinder
  {
    var high := cylinder / 256;
    assert high <= 3 && (high * 64 + sector) / 64 == high && (high * 64 + sector) % 64 == sector;
  }

  /** Section 5.2.3 with its EndingCHS field: the address of the last block, or all ones when it has none. */
  predicate MbrConforms(mbr: bytes, total: nat, heads: nat, sectors: nat)
    requires total > 0 && Geometry(heads, sectors)
  {
    MbrProtects(mbr, total) && mbr[451..454] == ChsOf(total - 1, heads, sectors)
  }

  lemma WrittenEnding(total: nat)
    requires total > 0
    ensures MbrBytes(total)[451..454] == NOT_REPRESENTABLE
  {
    var first, blocks := Pack(1, 4), Pack(MbrBlocks(total), 4);
    var record := [0x00] + [0x00, 0x02, 0x00] + [0xEE] + [0xFF, 0xFF, 0xFF] + first + blocks;
    assert record[5..8] == NOT_REPRESENTABLE;
    Five(Zeros(446), record, Zeros(48), [0x55, 0xAA], []);
    var mbr := MbrBytes(total);
    assert mbr == Zeros(446) + record + Zeros(48) + [0x55, 0xAA] + [];
    SliceOfPart(mbr, 446, record, 5, 8);
  }

  lemma Product(a: nat, b: nat, c: nat)
    requires a <= b
    ensures a * c <= b * c
  {
  }

  lemma Divided(n: nat, d: nat, q: nat)
    requires d > 0
    ensures Whole(n, d) >= q <==> n >= q * d
  {
    var m := Whole(n, d);
    assert n == m * d + n % d;
    if m >= q {
      Product(q, m, d);
    } else {
      Product(m + 1, q, d);
    }
  }

  /** The cylinder is out of range exactly when the block is. */
  lemma CylinderRange(block: nat, heads: nat, sectors: nat)
    requires Geometry(heads, sectors)
    ensures Whole(Whole(block, sectors), heads) > 1023 <==> block >= 1024 * heads * sectors
  {
    Divided(Whole(block, sectors), heads, 1024);
    Divided(block, sectors, 1024 * heads);
  }

  lemma PackedAllOnes(cylinder: nat, head: nat, sector: nat)
    requires cylinder <= 1023 && head <= 255 && 1 <= sector <= 63
    ensures Packed(cylinder, head, sector) == NOT_REPRESENTABLE <==> cylinder == 1023 && head == 255 && sector == 63
  {
    var r := Packed(cylinder, head, sector);
    if r == NOT_REPRESENTABLE {
      assert r[0] == 0xFF && r[1] == 0xFF && r[2] == 0xFF;
    }
  }

  /** The last block of a full geometry, by its digits. */
  lemma LastBlock(block: nat, track: nat)
    requires track == block / 63
    ensures block == 1024 * 256 * 63 - 1 <==> track / 256 == 1023 && track % 256 == 255 && block % 63 == 62
  {
  }

  lemma AllOnesByCylinder(block: nat, heads: nat, sectors: nat)
    requires Geometry(heads, sectors)
    ensures ChsOf(block, heads, sectors) == NOT_REPRESENTABLE <==>
            Whole(Whole(block, sectors), heads) > 1023 || (heads == 256 && sectors == 63 && block == 1024 * 256 * 63 - 1)
  {
    var track := Whole(block, sectors);
    var head, sector := Remainder(track, heads), Remainder(block, sectors) + 1;
    if Whole(track, heads) <= 1023 {
      PackedAllOnes(Whole(track, heads), head, sector);
      if heads == 256 && sectors == 63 {
        LastBlock(block, track);
      }
    }
  }

  /** An address is all ones exactly when the block has none, or is the very last that a full geometry can count. */
  lemma AllOnesExactly(block: nat, heads: nat, sectors: nat)
    requires Geometry(heads, sectors)
    ensures ChsOf(block, heads, sectors) == NOT_REPRESENTABLE <==>
            block >= 1024 * heads * sectors || (heads == 256 && sectors == 63 && block == 1024 * 256 * 63 - 1)
  {
    CylinderRange(block, heads, sectors);
    AllOnesByCylinder(block, heads, sectors);
  }

  /**
    The written MBR conforms exactly when the last block cannot be represented, whatever the geometry; but for the one
    size that fills a geometry of 256 heads and 63 sectors, whose last address is all ones.
   */
  lemma ConformsExactly(total: nat, heads: nat, sectors: nat)
    requires total > 0 && Geometry(heads, sectors)
    ensures MbrConforms(MbrBytes(total), total, heads, sectors) <==>
            total > 1024 * heads * sectors || (heads == 256 && sectors == 63 && total == 1024 * 256 * 63)
  {
    WrittenMbrProtects(total);
    WrittenEnding(total);
    AllOnesExactly(total - 1, heads, sectors);
  }

  /** With 255 heads and 63 sectors that is from 8033 MiB on: so the disk of the default size does not conform. */
  lemma ConformsFrom8033MiB(sizeMiB: int)
    requires ValidSize(sizeMiB)
    ensures ShellPlan(sizeMiB).totalBlocks > 0
    ensures var total := ShellPlan(sizeMiB).totalBlocks; MbrConforms(MbrBytes(total), total, 255, 63) <==> sizeMiB >= 8033
  {
    PlanWithoutOverflow(sizeMiB);
    ConformsExactly(ShellPlan(sizeMiB).totalBlocks, 255, 63);
  }

  lemma DefaultDoesNotConform()
    ensures ShellPlan(256).totalBlocks > 0
    ensures var total := ShellPlan(256).totalBlocks; !MbrConforms(MbrBytes(total), total, 255, 63)
  {
    ConformsFrom8033MiB(256);
  }
}

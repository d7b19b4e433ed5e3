/** The disk as one byte string, and that the writes of the script, in any order, leave exactly it. */
module DiskImage {
  import opened Bytes
  import opened Codecs
  import opened Layout
  import opened Gpt
  import opened Writes
  import Crc32

  /** What one creating run is given: the size in blocks, the two random GUIDs and the formatted ESP. */
  datatype Params = Params(total: nat, disk: Uuid, esp: Uuid, espImage: bytes)

  ghost predicate ValidParams(p: Params) {
    ValidTotal(p.total) && |p.espImage| == (p.total - 2081) * BLOCK
  }

  function Entries(p: Params): (r: bytes)
    requires ValidTotal(p.total)
    ensures |r| == ENTRY_BYTES
  {
    EntryArray(p.esp, ESP_FIRST, p.total - 34)
  }

  function Primary(p: Params): Header
    requires ValidTotal(p.total)
  {
    Header(1, p.total - 1, p.total - 34, p.disk, 2, Crc32.Field(Crc32.Crc(Entries(p))))
  }

  function Secondary(p: Params): Header
    requires ValidTotal(p.total)
  {
    Header(p.total - 1, 1, p.total - 34, p.disk, p.total - 33, Crc32.Field(Crc32.Crc(Entries(p))))
  }

  lemma HeadersAreValid(p: Params)
    requires ValidTotal(p.total)
    ensures ValidHeader(Primary(p)) && |HeaderBytes(Primary(p))| == HEADER_SIZE
    ensures ValidHeader(Secondary(p)) && |HeaderBytes(Secondary(p))| == HEADER_SIZE
  {
    CapacityFacts();
  }

  function PrimaryBlock(p: Params): (r: bytes)
    requires ValidTotal(p.total)
    ensures |r| == BLOCK
  {
    HeadersAreValid(p);
    HeaderBlock(HeaderBytes(Primary(p)))
  }

  function SecondaryBlock(p: Params): (r: bytes)
    requires ValidTotal(p.total)
    ensures |r| == BLOCK
  {
    HeadersAreValid(p);
    HeaderBlock(HeaderBytes(Secondary(p)))
  }

  // ---- the pieces, whatever they hold ----

  /** The six strings that are written, of which the entries go to two places. */
  datatype Pieces = Pieces(mbr: bytes, primary: bytes, entries: bytes, esp: bytes, secondary: bytes)

  predicate RightSizes(total: nat, q: Pieces) {
    && ValidTotal(total)
    && |q.mbr| == BLOCK && |q.primary| == BLOCK && |q.secondary| == BLOCK && |q.entries| == ENTRY_BYTES
    && |q.esp| == (total - 2081) * BLOCK
  }

  /** The disk they make, around whatever the gap holds. */
  function Assemble(q: Pieces, gap: bytes): bytes {
    (q.mbr + q.primary + q.entries + gap) + q.esp + (q.entries + q.secondary)
  }

  /** The writes, in the order of the script: the ESP is stamped last. */
  function PieceWrites(total: nat, q: Pieces): (r: seq<Write>)
    requires ValidTotal(total)
    ensures |r| == 6
  {
    [Write(0, q.mbr), Write(BLOCK, q.primary), Write(2 * BLOCK, q.entries),
     Write((total - 33) * BLOCK, q.entries), Write((total - 1) * BLOCK, q.secondary),
     Write(ESP_FIRST * BLOCK, q.esp)]
  }

  lemma PieceWritesFit(total: nat, q: Pieces)
    requires RightSizes(total, q)
    ensures AllFit(PieceWrites(total, q), total * BLOCK) && NoOverlap(PieceWrites(total, q))
  {
    var ws := PieceWrites(total, q);
    var up := [ws[0], ws[1], ws[2], ws[5], ws[3], ws[4]];
    assert Ascending(up);
    AscendingNoOverlap(up);
    assert forall w :: w in ws ==> w in up;
  }

  /** The disk by region. */
  predicate Holds(d: bytes, total: nat, q: Pieces, gap: bytes)
    requires ValidTotal(total) && |d| == total * BLOCK
  {
    && d[0..BLOCK] == q.mbr && d[BLOCK..2 * BLOCK] == q.primary && d[2 * BLOCK..34 * BLOCK] == q.entries
    && d[34 * BLOCK..ESP_FIRST * BLOCK] == gap && d[ESP_FIRST * BLOCK..(total - 33) * BLOCK] == q.esp
    && d[(total - 33) * BLOCK..(total - 1) * BLOCK] == q.entries
    && d[(total - 1) * BLOCK..total * BLOCK] == q.secondary
  }

  lemma CutFront(s: bytes)
    requires |s| >= ESP_FIRST * BLOCK
    ensures s[..ESP_FIRST * BLOCK]
         == s[0..BLOCK] + s[BLOCK..2 * BLOCK] + s[2 * BLOCK..34 * BLOCK] + s[34 * BLOCK..ESP_FIRST * BLOCK]
  {
  }

  lemma Cut(s: bytes, a: nat, b: nat, c: nat)
    requires a <= b <= c <= |s|
    ensures s == s[..a] + s[a..b] + (s[b..c] + s[c..|s|])
  {
  }

  lemma HoldsIsAssembled(d: bytes, total: nat, q: Pieces, gap: bytes)
    requires ValidTotal(total) && |d| == total * BLOCK && Holds(d, total, q, gap)
    ensures d == Assemble(q, gap)
  {
    CutFront(d);
    Cut(d, ESP_FIRST * BLOCK, (total - 33) * BLOCK, (total - 1) * BLOCK);
  }

  lemma WrittenAt(s: bytes, ws: seq<Write>, r: bytes, k: nat, lo: nat, hi: nat, data: bytes)
    requires AllFit(ws, |s|) && Overlay(s, ws, r)
    requires k < |ws| && ws[k] == Write(lo, data) && hi == lo + |data| <= |s|
    ensures r[lo..hi] == data
  {
    OverlaidRange(s, ws, r, k);
  }

  lemma OverlayHolds(s: bytes, total: nat, q: Pieces, r: bytes)
    requires RightSizes(total, q) && |s| == total * BLOCK && Overlay(s, PieceWrites(total, q), r)
    ensures Holds(r, total, q, s[34 * BLOCK..ESP_FIRST * BLOCK])
  {
    var ws := PieceWrites(total, q);
    assert AllFit(ws, |s|) by { PieceWritesFit(total, q); }
    WrittenAt(s, ws, r, 0, 0, BLOCK, q.mbr);
    WrittenAt(s, ws, r, 1, BLOCK, 2 * BLOCK, q.primary);
    WrittenAt(s, ws, r, 2, 2 * BLOCK, 34 * BLOCK, q.entries);
    WrittenAt(s, ws, r, 3, (total - 33) * BLOCK, (total - 1) * BLOCK, q.entries);
    WrittenAt(s, ws, r, 4, (total - 1) * BLOCK, total * BLOCK, q.secondary);
    WrittenAt(s, ws, r, 5, ESP_FIRST * BLOCK, (total - 33) * BLOCK, q.esp);
    OtherRange(s, ws, r, 34 * BLOCK, ESP_FIRST * BLOCK);
  }

  lemma WritesHold(s: bytes, total: nat, q: Pieces)
    requires RightSizes(total, q) && |s| == total * BLOCK
    ensures AllFit(PieceWrites(total, q), |s|)
    ensures Holds(Apply(s, PieceWrites(total, q)), total, q, s[34 * BLOCK..ESP_FIRST * BLOCK])
  {
    PieceWritesFit(total, q);
    ApplyOverlays(s, PieceWrites(total, q));
    OverlayHolds(s, total, q, Apply(s, PieceWrites(total, q)));
  }

  lemma FiveParts(a: bytes, b: bytes, c: bytes, d: bytes, e: bytes)
    ensures var s := (a + b + c + d) + e;
            var i, j, k, l := |a|, |a| + |b|, |a| + |b| + |c|, |a| + |b| + |c| + |d|;
            s[0..i] == a && s[i..j] == b && s[j..k] == c && s[k..l] == d && s[l..l + |e|] == e
  {
  }

  lemma AssembledHolds(total: nat, q: Pieces, gap: bytes)
    requires RightSizes(total, q) && |gap| == 2014 * BLOCK
    ensures |Assemble(q, gap)| == total * BLOCK && Holds(Assemble(q, gap), total, q, gap)
  {
    var d := Assemble(q, gap);
    FiveParts(q.mbr, q.primary, q.entries, gap, q.esp + (q.entries + q.secondary));
    assert d == (q.mbr + q.primary + q.entries + gap) + (q.esp + (q.entries + q.secondary));
    var front := q.mbr + q.primary + q.entries + gap;
    FiveParts([], front, q.esp, q.entries, q.secondary);
    assert d == ([] + front + q.esp + q.entries) + q.secondary;
  }

  // ---- the disk of a run ----

  function PiecesOf(p: Params): Pieces
    requires ValidTotal(p.total)
  {
    Pieces(MbrBytes(p.total), PrimaryBlock(p), Entries(p), p.espImage, SecondaryBlock(p))
  }

  /** The whole disk after a creating run. */
  function Image(p: Params, gap: bytes): bytes
    requires ValidTotal(p.total)
  {
    Assemble(PiecesOf(p), gap)
  }

  /** The writes of the script. */
  function ScriptWrites(p: Params): seq<Write>
    requires ValidTotal(p.total)
  {
    PieceWrites(p.total, PiecesOf(p))
  }

  /** The writes leave the image, around the bytes that were in the gap: nothing else of the old file survives. */
  lemma WritesMakeImage(s: bytes, p: Params)
    requires ValidParams(p) && |s| == p.total * BLOCK
    ensures AllFit(ScriptWrites(p), |s|)
    ensures Apply(s, ScriptWrites(p)) == Image(p, s[34 * BLOCK..ESP_FIRST * BLOCK])
  {
    var q := PiecesOf(p);
    WritesHold(s, p.total, q);
    HoldsIsAssembled(Apply(s, PieceWrites(p.total, q)), p.total, q, s[34 * BLOCK..ESP_FIRST * BLOCK]);
  }

  /** The order of the writes does not matter. */
  lemma WritesInAnyOrder(s: bytes, p: Params, ws: seq<Write>)
    requires ValidParams(p) && |s| == p.total * BLOCK
    requires multiset(ws) == multiset(ScriptWrites(p))
    ensures AllFit(ws, |s|) && Apply(s, ws) == Image(p, s[34 * BLOCK..ESP_FIRST * BLOCK])
  {
    var q := PiecesOf(p);
    PieceWritesFit(p.total, q);
    SameMembers(ws, PieceWrites(p.total, q));
    AnyOrder(s, PieceWrites(p.total, q), ws);
    WritesMakeImage(s, p);
  }

  lemma SameMembers(vs: seq<Write>, ws: seq<Write>)
    requires multiset(vs) == multiset(ws)
    ensures forall w :: w in vs <==> w in ws
  {
    forall w
      ensures w in vs <==> w in ws
    {
      assert w in vs <==> w in multiset(vs);
      assert w in ws <==> w in multiset(ws);
    }
  }

  // ---- reading the image ----

  /** Where the structures of the image are. */
  lemma ImageHolds(p: Params, gap: bytes)
    requires ValidParams(p) && |gap| == 2014 * BLOCK
    ensures |Image(p, gap)| == p.total * BLOCK && Holds(Image(p, gap), p.total, PiecesOf(p), gap)
  {
    AssembledHolds(p.total, PiecesOf(p), gap);
  }
}

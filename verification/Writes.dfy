/** Writes at fixed offsets: what they leave, and why the order of disjoint ones does not matter. */
module Writes {
  import opened Bytes

  datatype Write = Write(at: nat, data: bytes) {
    function End(): nat { at + |data| }
    predicate Covers(i: int) { at <= i < End() }
  }

  predicate AllFit(ws: seq<Write>, size: nat) {
    forall k :: 0 <= k < |ws| ==> ws[k].End() <= size
  }

  /** The bytes after the writes, first to last. */
  function Apply(s: bytes, ws: seq<Write>): (r: bytes)
    requires AllFit(ws, |s|)
    ensures |r| == |s|
    decreases |ws|
  {
    if ws == [] then s else Apply(Splice(s, ws[0].at, ws[0].data), ws[1..])
  }

  predicate Apart(v: Write, w: Write) {
    v.End() <= w.at || w.End() <= v.at
  }

  /** Different writes do not overlap. */
  predicate NoOverlap(ws: seq<Write>) {
    forall v, w {:trigger Apart(v, w)} :: v in ws && w in ws && v != w ==> Apart(v, w)
  }

  /** Each write ends before the next begins. */
  predicate Ascending(ws: seq<Write>) {
    forall k :: 0 < k < |ws| ==> ws[k - 1].End() <= ws[k].at
  }

  lemma {:induction false} AscendingApart(ws: seq<Write>, j: nat, k: nat)
    requires Ascending(ws) && j < k < |ws|
    ensures ws[j].End() <= ws[k].at
    decreases k
  {
    if j < k - 1 {
      AscendingApart(ws, j, k - 1);
    }
  }

  lemma AscendingNoOverlap(ws: seq<Write>)
    requires Ascending(ws)
    ensures NoOverlap(ws)
  {
    forall v, w | v in ws && w in ws && v != w
      ensures Apart(v, w)
    {
      var j :| 0 <= j < |ws| && ws[j] == v;
      var k :| 0 <= k < |ws| && ws[k] == w;
      if j < k {
        AscendingApart(ws, j, k);
      } else {
        AscendingApart(ws, k, j);
      }
    }
  }

  /** A byte that no write covers stays. */
  lemma {:induction false} Untouched(s: bytes, ws: seq<Write>, i: nat)
    requires AllFit(ws, |s|) && i < |s|
    requires forall k :: 0 <= k < |ws| ==> !ws[k].Covers(i)
    ensures Apply(s, ws)[i] == s[i]
    decreases |ws|
  {
    if ws != [] {
      Untouched(Splice(s, ws[0].at, ws[0].data), ws[1..], i);
    }
  }

  /** A byte that a write covers is the byte it writes there. */
  lemma {:induction false} Written(s: bytes, ws: seq<Write>, k: nat, i: nat)
    requires AllFit(ws, |s|) && NoOverlap(ws) && k < |ws| && ws[k].Covers(i)
    ensures Apply(s, ws)[i] == ws[k].data[i - ws[k].at]
    decreases |ws|
  {
    var t, rest := Splice(s, ws[0].at, ws[0].data), ws[1..];
    assert k > 0 ==> rest[k - 1] == ws[k];
    if j :| 0 <= j < |rest| && rest[j].Covers(i) {
      assert ws[j + 1] in ws && ws[k] in ws && ws[j + 1].Covers(i);
      assert ws[j + 1] == ws[k] || Apart(ws[j + 1], ws[k]);
      assert NoOverlap(rest);
      Written(t, rest, j, i);
    } else {
      Untouched(t, rest, i);
    }
  }

  /** `r` is `s` with the writes laid over it, byte by byte. */
  ghost predicate Overlay(s: bytes, ws: seq<Write>, r: bytes) {
    && |r| == |s|
    && (forall k, i {:trigger ws[k].Covers(i)} ::
          0 <= k < |ws| && 0 <= i < |s| && ws[k].Covers(i) ==> r[i] == ws[k].data[i - ws[k].at])
    && (forall i {:trigger Uncovered(ws, i)} :: 0 <= i < |s| && Uncovered(ws, i) ==> r[i] == s[i])
  }

  ghost predicate Uncovered(ws: seq<Write>, i: int) {
    forall k {:trigger ws[k].Covers(i)} :: 0 <= k < |ws| ==> !ws[k].Covers(i)
  }

  lemma ApplyOverlays(s: bytes, ws: seq<Write>)
    requires AllFit(ws, |s|) && NoOverlap(ws)
    ensures Overlay(s, ws, Apply(s, ws))
  {
    var r := Apply(s, ws);
    forall k, i | 0 <= k < |ws| && 0 <= i < |s| && ws[k].Covers(i)
      ensures r[i] == ws[k].data[i - ws[k].at]
    {
      Written(s, ws, k, i);
    }
    forall i | 0 <= i < |s| && Uncovered(ws, i)
      ensures r[i] == s[i]
    {
      Untouched(s, ws, i);
    }
  }

  lemma OverlaidRange(s: bytes, ws: seq<Write>, r: bytes, k: nat)
    requires AllFit(ws, |s|) && Overlay(s, ws, r) && k < |ws|
    ensures r[ws[k].at..ws[k].End()] == ws[k].data
  {
    forall i | 0 <= i < |ws[k].data|
      ensures r[ws[k].at + i] == ws[k].data[i]
    {
      assert ws[k].Covers(ws[k].at + i);
    }
  }

  lemma OtherRange(s: bytes, ws: seq<Write>, r: bytes, lo: nat, hi: nat)
    requires Overlay(s, ws, r) && lo <= hi <= |s|
    requires forall k :: 0 <= k < |ws| ==> ws[k].End() <= lo || hi <= ws[k].at
    ensures r[lo..hi] == s[lo..hi]
  {
    forall i | lo <= i < hi
      ensures r[i] == s[i]
    {
      assert Uncovered(ws, i);
    }
  }

  lemma OverlaysAgree(s: bytes, ws: seq<Write>, vs: seq<Write>, q: bytes, r: bytes)
    requires Overlay(s, ws, q) && Overlay(s, vs, r)
    requires forall w :: w in vs <==> w in ws
    ensures q == r
  {
    forall i | 0 <= i < |s|
      ensures q[i] == r[i]
    {
      if k :| 0 <= k < |ws| && ws[k].Covers(i) {
        assert ws[k] in vs;
        var j :| 0 <= j < |vs| && vs[j] == ws[k];
        assert vs[j].Covers(i);
      } else {
        forall j | 0 <= j < |vs|
          ensures !vs[j].Covers(i)
        {
          assert vs[j] in ws;
        }
        assert Uncovered(ws, i) && Uncovered(vs, i);
      }
    }
  }

  /** The same writes in any other order, repeated or not, leave the same bytes. */
  lemma AnyOrder(s: bytes, ws: seq<Write>, vs: seq<Write>)
    requires AllFit(ws, |s|) && NoOverlap(ws)
    requires forall w :: w in vs <==> w in ws
    ensures AllFit(vs, |s|) && Apply(s, vs) == Apply(s, ws)
  {
    assert forall k :: 0 <= k < |vs| ==> vs[k] in ws;
    ApplyOverlays(s, ws);
    ApplyOverlays(s, vs);
    OverlaysAgree(s, ws, vs, Apply(s, ws), Apply(s, vs));
  }
}

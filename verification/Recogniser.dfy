/** How the script decides that a file already is a cache disk: the name of the first entry, and nothing else. */
module Recogniser {
  import opened Bytes
  import opened Codecs
  import opened Layout
  import opened Gpt
  import opened DiskImage
  import opened RoundTrip
  import opened Redundancy
  import opened ShiftRegister
  import opened Wrappers

  /** Python's `rstrip` with a NUL. */
  function StripNuls(t: text): text {
    if t != [] && t[|t| - 1] == 0 then StripNuls(t[..|t| - 1]) else t
  }

  /** It takes NULs from the end, and all of them. */
  lemma {:induction false} StripNulsIs(t: text)
    ensures StripNuls(t) <= t && (forall i :: |StripNuls(t)| <= i < |t| ==> t[i] == 0)
    ensures StripNuls(t) != [] ==> StripNuls(t)[|StripNuls(t)| - 1] != 0
  {
    if t != [] && t[|t| - 1] == 0 {
      StripNulsIs(t[..|t| - 1]);
    }
  }

  /**
    What the Python check prints for a file: the name field of the first entry of the array that the header points to,
    all of it but its final NULs, or nothing. Reads may be short; a short field and one that does not decode are
    exceptions, which print nothing.
   */
  function PrintedName(d: bytes): text {
    var h := Read(d, 512, 92);
    if Read(h, 0, 8) != SIGNATURE then []
    else if |Read(h, 72, 8)| < 8 then []
    else
      var e := Read(d, Unpack(Read(h, 72, 8)) * 512, 128);
      if Read(e, 0, 16) == Zeros(16) then []
      else
        match Decode(Read(e, 56, 72))
        case None => []
        case Some(t) => StripNuls(t)
  }

  const NEWLINE: nat := 10

  function WithoutNuls(t: text): text {
    if t == [] then [] else if t[0] == 0 then WithoutNuls(t[1..]) else [t[0]] + WithoutNuls(t[1..])
  }

  function WithoutFinalNewlines(t: text): text {
    if t != [] && t[|t| - 1] == NEWLINE then WithoutFinalNewlines(t[..|t| - 1]) else t
  }

  /** What the shell's `$(...)` keeps of an output. */
  function Captured(output: text): text {
    WithoutFinalNewlines(WithoutNuls(output))
  }

  /** The test that leaves a file untouched. */
  predicate Recognised(d: bytes) {
    Captured(PrintedName(d) + [NEWLINE]) == CodePoints(PARTITION_NAME)
  }

  // ---- what the answer depends on ----

  /** The two files agree on the signature, on the place of the entries and on the first entry there. */
  predicate SameFootprint(d: bytes, e: bytes) {
    && Read(d, 512, 8) == Read(e, 512, 8)
    && Read(d, 584, 8) == Read(e, 584, 8)
    && Read(d, Unpack(Read(d, 584, 8)) * 512, 128) == Read(e, Unpack(Read(d, 584, 8)) * 512, 128)
  }

  lemma ReadOfRead(d: bytes, off: nat, n: nat, at: nat, k: nat)
    requires at + k <= n
    ensures Read(Read(d, off, n), at, k) == Read(d, off + at, k)
  {
    var p, q := Read(Read(d, off, n), at, k), Read(d, off + at, k);
    assert |p| == |q|;
    forall i | 0 <= i < |p|
      ensures p[i] == q[i]
    {
      assert Read(d, off, n)[at + i] == d[off + at + i];
    }
  }

  /** Files that agree there are treated alike, whatever their sizes and whatever else they hold. */
  lemma RecogniserFootprint(d: bytes, e: bytes)
    requires SameFootprint(d, e)
    ensures PrintedName(d) == PrintedName(e) && Recognised(d) == Recognised(e)
  {
    ReadOfRead(d, 512, 92, 0, 8);
    ReadOfRead(e, 512, 92, 0, 8);
    ReadOfRead(d, 512, 92, 72, 8);
    ReadOfRead(e, 512, 92, 72, 8);
  }

  // ---- which names are accepted ----

  function Newlines(n: nat): text {
    seq(n, _ => NEWLINE)
  }

  lemma {:induction false} WithoutNulsConcat(s: text, t: text)
    ensures WithoutNuls(s + t) == WithoutNuls(s) + WithoutNuls(t)
  {
    if s == [] {
      assert s + t == t;
    } else {
      WithoutNulsConcat(s[1..], t);
      assert (s + t)[1..] == s[1..] + t && (s + t)[0] == s[0];
      if s[0] != 0 {
        ConsAssoc(s[0], WithoutNuls(s[1..]), WithoutNuls(t));
      }
    }
  }

  lemma {:induction false} FinalNewlines(t: text)
    ensures exists n: nat {:trigger Newlines(n)} :: t == WithoutFinalNewlines(t) + Newlines(n)
  {
    if t != [] && t[|t| - 1] == NEWLINE {
      FinalNewlines(t[..|t| - 1]);
      var n: nat :| t[..|t| - 1] == WithoutFinalNewlines(t[..|t| - 1]) + Newlines(n);
      assert t == WithoutFinalNewlines(t) + Newlines(n + 1);
    } else {
      assert t == WithoutFinalNewlines(t) + Newlines(0);
    }
  }

  lemma {:induction false} DropNewlines(t: text, n: nat)
    requires t != [] && t[|t| - 1] != NEWLINE
    ensures WithoutFinalNewlines(t + Newlines(n)) == t
  {
    if n == 0 {
      assert t + Newlines(0) == t;
    } else {
      DropNewlines(t, n - 1);
      assert (t + Newlines(n))[..|t| + n - 1] == t + Newlines(n - 1);
    }
  }

  lemma CapturedExactly(printed: text, name: text)
    requires name != [] && name[|name| - 1] != NEWLINE
    ensures Captured(printed + [NEWLINE]) == name <==>
            exists n: nat {:trigger Newlines(n)} :: WithoutNuls(printed) == name + Newlines(n)
  {
    var t := WithoutNuls(printed);
    WithoutNulsConcat(printed, [NEWLINE]);
    assert WithoutNuls([NEWLINE]) == [NEWLINE];
    assert (t + [NEWLINE])[..|t|] == t;
    if Captured(printed + [NEWLINE]) == name {
      FinalNewlines(t);
    }
    if n: nat :| t == name + Newlines(n) {
      DropNewlines(name, n);
    }
  }

  /** A file is recognised exactly when the printed name is the partition name but for NULs and final newlines. */
  lemma RecognisedExactly(d: bytes)
    ensures Recognised(d) <==>
            exists n: nat {:trigger Newlines(n)} :: WithoutNuls(PrintedName(d)) == CodePoints(PARTITION_NAME) + Newlines(n)
  {
    CapturedExactly(PrintedName(d), CodePoints(PARTITION_NAME));
  }

  lemma NothingPrinted(d: bytes)
    requires PrintedName(d) == []
    ensures !Recognised(d)
  {
    RecognisedExactly(d);
    assert WithoutNuls([]) == [];
    assert forall n: nat {:trigger Newlines(n)} :: |CodePoints(PARTITION_NAME) + Newlines(n)| > 0;
  }

  // ---- valid disks are recognised, and more ----

  lemma {:induction false} NoNuls(t: text)
    requires 0 !in t
    ensures WithoutNuls(t) == t
  {
    if t != [] {
      assert forall c :: c in t[1..] ==> c in t;
      NoNuls(t[1..]);
      assert t == [t[0]] + t[1..];
    }
  }

  /** A used partition whose whole name field decodes to the name of the script, but for NULs and final newlines. */
  ghost predicate Accepted(p: Partition) {
    && p.kind != Zeros(16) && Decode(p.nameField).Some?
    && exists n: nat {:trigger Newlines(n)} ::
         WithoutNuls(Decode(p.nameField).value) == CodePoints(PARTITION_NAME) + Newlines(n)
  }

  lemma ReadFront(d: bytes, off: nat, n: nat, m: nat)
    requires m <= n && m <= |Read(d, off, n)|
    ensures Read(d, off, n)[..m] == Read(d, off, m)
  {
  }

  lemma FirstEntryRead(d: bytes)
    requires ReadTable(d, 1).Some?
    ensures var h := ReadHeader(d, 1); var e := Read(d, EntriesLba(h) * 512, 128);
            && |h| == HEADER_SIZE && |e| == ENTRY_SIZE && ReadTable(d, 1).value.partition == DecodeEntry(e)
            && Read(h, 0, 8) == SIGNATURE && Read(h, 72, 8) == h[72..80]
            && Read(e, 0, 16) == e[..16] && Read(e, 56, 72) == e[56..]
  {
    var h := ReadHeader(d, 1);
    var e := Read(d, EntriesLba(h) * 512, 128);
    ReadFront(d, EntriesLba(h) * BLOCK, EntryCount(h) * EntrySize(h), ENTRY_SIZE);
    ReadSlice(h, 0, 8);
    ReadSlice(h, 72, 8);
    ReadSlice(e, 0, 16);
    ReadSlice(e, 56, 72);
  }

  lemma KindIsZero(b: bytes)
    requires |b| == 16
    ensures FromBytesLe(b) == Zeros(16) <==> b == Zeros(16)
  {
    BytesLeInverts(b);
    assert BytesLe(Zeros(16)) == Zeros(16);
    assert FromBytesLe(Zeros(16)) == Zeros(16);
  }

  /** What is printed for a valid disk: the whole name field of its first partition, if that is used and decodes. */
  lemma PrintedNameIs(d: bytes)
    requires ReadTable(d, 1).Some?
    ensures var p := ReadTable(d, 1).value.partition;
            PrintedName(d) == if p.kind == Zeros(16) || Decode(p.nameField).None? then [] else StripNuls(Decode(p.nameField).value)
  {
    var h := ReadHeader(d, 1);
    var e := Read(d, EntriesLba(h) * 512, 128);
    FirstEntryRead(d);
    KindIsZero(e[..16]);
  }

  lemma {:induction false} StrippedWithoutNuls(t: text)
    ensures WithoutNuls(StripNuls(t)) == WithoutNuls(t)
  {
    if t != [] && t[|t| - 1] == 0 {
      var front := t[..|t| - 1];
      StrippedWithoutNuls(front);
      WithoutNulsConcat(front, [0]);
      assert t == front + [0];
      assert WithoutNuls([0]) == [];
    }
  }

  /** A disk with a valid primary GPT is recognised exactly when its first partition is accepted. */
  lemma RecognisedWhenAccepted(d: bytes)
    requires ReadTable(d, 1).Some?
    ensures Recognised(d) <==> Accepted(ReadTable(d, 1).value.partition)
  {
    PrintedNameIs(d);
    RecognisedExactly(d);
    var p := ReadTable(d, 1).value.partition;
    if p.kind == Zeros(16) || Decode(p.nameField).None? {
      NothingPrinted(d);
    } else {
      StrippedWithoutNuls(Decode(p.nameField).value);
    }
  }

  // ---- what may stand behind the name ----

  /** Bytes that the script overlooks: they decode, to NULs and newlines. */
  predicate Blank(b: bytes) {
    Decode(b).Some? && forall i :: 0 <= i < |Decode(b).value| ==> Decode(b).value[i] == 0 || Decode(b).value[i] == 10
  }

  lemma {:induction false} NewlinesAndNuls(t: text)
    ensures (forall i :: 0 <= i < |t| ==> t[i] == 0 || t[i] == NEWLINE) <==>
            exists n: nat {:trigger Newlines(n)} :: WithoutNuls(t) == Newlines(n)
  {
    if t == [] {
      assert WithoutNuls(t) == Newlines(0);
    } else {
      NewlinesAndNuls(t[1..]);
      assert (forall i :: 0 <= i < |t| ==> t[i] == 0 || t[i] == NEWLINE) <==>
             (t[0] == 0 || t[0] == NEWLINE) && forall i :: 0 <= i < |t[1..]| ==> t[1..][i] == 0 || t[1..][i] == NEWLINE;
      if t[0] != 0 {
        if n: nat :| WithoutNuls(t) == Newlines(n) {
          assert WithoutNuls(t[1..]) == WithoutNuls(t)[1..] == Newlines(n - 1);
          assert WithoutNuls(t)[0] == t[0];
        }
        if n: nat :| t[0] == NEWLINE && WithoutNuls(t[1..]) == Newlines(n) {
          assert WithoutNuls(t) == Newlines(n + 1);
        }
      }
    }
  }

  lemma AppendedNewlines(name: text, t: text)
    ensures (exists n: nat {:trigger Newlines(n)} :: name + t == name + Newlines(n)) <==>
            exists n: nat {:trigger Newlines(n)} :: t == Newlines(n)
  {
    if n: nat :| name + t == name + Newlines(n) {
      assert t == (name + t)[|name|..] == (name + Newlines(n))[|name|..] == Newlines(n);
    }
  }

  lemma BlankBehind(name: text, rest: bytes)
    requires Scalars(name) && 0 !in name && Decode(Encode(name) + rest).Some?
    ensures Blank(rest) <==>
            exists n: nat {:trigger Newlines(n)} :: WithoutNuls(Decode(Encode(name) + rest).value) == name + Newlines(n)
  {
    DecodeConcat(name, rest);
    var t := Decode(rest).value;
    WithoutNulsConcat(name, t);
    NoNuls(name);
    AppendedNewlines(name, WithoutNuls(t));
    NewlinesAndNuls(t);
  }

  /** With the name at the front of its field, a used partition is accepted exactly when the rest of the field is blank. */
  lemma AcceptedExactly(p: Partition, rest: bytes)
    requires p.kind != Zeros(16) && p.nameField == NameBytes() + rest
    ensures Accepted(p) <==> Blank(rest)
  {
    var name := CodePoints(PARTITION_NAME);
    DecodeConcat(name, rest);
    if Decode(rest).Some? {
      BlankBehind(name, rest);
    }
  }

  lemma {:induction false} ZerosAreBlank(n: nat)
    ensures Decode(Zeros(2 * n)) == Some(seq(n, _ => 0)) && Blank(Zeros(2 * n))
  {
    if n > 0 {
      ZerosAreBlank(n - 1);
      var b := Zeros(2 * n);
      assert b[..2] == [0, 0] && b[2..] == Zeros(2 * (n - 1));
      assert Unpack([0, 0]) == 0;
      assert [0] + seq(n - 1, _ => 0) == seq(n, _ => 0 as nat);
    }
  }

  /** Every disk that the script makes is recognised. */
  lemma ImageIsRecognised(d: bytes, p: Params, gap: bytes)
    requires IsDiskOf(d, p, gap)
    ensures Recognised(d)
  {
    ImageReadsBack(d, p, gap);
    assert ESP_TYPE[0] == 0xC1;
    ZerosAreBlank(20);
    AcceptedExactly(ReadTable(d, 1).value.partition, Zeros(40));
    RecognisedWhenAccepted(d);
  }

  lemma FirstEntryOfImage(d: bytes, p: Params, gap: bytes)
    requires IsDiskOf(d, p, gap)
    ensures |d| == p.total * BLOCK && Unpack(Read(d, 584, 8)) == 2
  {
    ImageHolds(p, gap);
    HeadersAreValid(p);
    PrimaryReadsBack(d, p, gap);
    EntriesFields(Primary(p));
    ReadOfRead(d, 512, 92, 72, 8);
    assert Read(HeaderBytes(Primary(p)), 72, 8) == HeaderBytes(Primary(p))[72..80];
  }

  lemma FootprintUndamaged(d: bytes, p: Params, gap: bytes, e: bytes, at: nat)
    requires IsDiskOf(d, p, gap) && SameOutside(d, e, at, 1)
    requires 520 <= at < 584 || 592 <= at < 604
    ensures SameFootprint(d, e)
  {
    FirstEntryOfImage(d, p, gap);
    ReadUnchanged(d, e, at, 1, 512, 8);
    ReadUnchanged(d, e, at, 1, 584, 8);
    ReadUnchanged(d, e, at, 1, 1024, 128);
  }

  lemma RecognisedBesideDamage(d: bytes, p: Params, gap: bytes, e: bytes, at: nat)
    requires IsDiskOf(d, p, gap) && SameOutside(d, e, at, 1)
    requires 520 <= at < 584 || 592 <= at < 604
    ensures Recognised(e)
  {
    FootprintUndamaged(d, p, gap, e, at);
    RecogniserFootprint(d, e);
    ImageIsRecognised(d, p, gap);
  }

  /**
    Recognised does not mean valid: damage to the primary header beside the two fields that the script reads
    makes the primary copy invalid, and the file is still recognised.
   */
  lemma RecognisedThoughInvalid(d: bytes, p: Params, gap: bytes, e: bytes, at: nat)
    requires IsDiskOf(d, p, gap) && SameOutside(d, e, at, 1) && d != e
    requires 520 <= at < 584 || 592 <= at < 604
    ensures Recognised(e) && !CopyValid(e, 1)
  {
    RecognisedBesideDamage(d, p, gap, e, at);
    PrimaryDamage(d, p, gap, e, at, 1);
  }
}

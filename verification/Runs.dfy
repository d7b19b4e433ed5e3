/** The life of a cache disk: runs of the script and writes of a guest to its ESP, in any order. */
module Runs {
  import opened Bytes
  import opened Layout
  import opened Gpt
  import opened DiskImage
  import opened RoundTrip
  import opened Recogniser
  import opened CacheDisk
  import opened Wrappers

  datatype Event = Script(input: Input) | GuestWrite(at: nat, data: bytes)

  /** A guest only writes inside the ESP of the disk it is given. */
  predicate Enabled(file: Option<bytes>, ev: Event) {
    match ev
    case Script(r) => ValidRun(file, r)
    case GuestWrite(at, data) =>
      file.Some? && ESP_FIRST * BLOCK <= at && at + |data| <= |file.value| - 33 * BLOCK
  }

  function Step(file: Option<bytes>, ev: Event): Option<bytes>
    requires Enabled(file, ev)
  {
    match ev
    case Script(r) => RunScript(file, r).0
    case GuestWrite(at, data) => Some(Splice(file.value, at, data))
  }

  predicate AllEnabled(file: Option<bytes>, evs: seq<Event>)
    decreases |evs|
  {
    evs == [] || (Enabled(file, evs[0]) && AllEnabled(Step(file, evs[0]), evs[1..]))
  }

  function After(file: Option<bytes>, evs: seq<Event>): Option<bytes>
    requires AllEnabled(file, evs)
    decreases |evs|
  {
    if evs == [] then file else After(Step(file, evs[0]), evs[1..])
  }

  /** The file is a disk as the script makes it, whatever is in its ESP and in its gap. */
  ghost predicate IsCacheDisk(file: Option<bytes>) {
    file.Some? && exists p, gap :: IsDiskOf(file.value, p, gap)
  }

  lemma SpliceIntoMiddle(a: bytes, b: bytes, c: bytes, at: nat, data: bytes)
    requires |a| <= at && at + |data| <= |a| + |b|
    ensures Splice(a + b + c, at, data) == a + Splice(b, at - |a|, data) + c
  {
    var s, t := Splice(a + b + c, at, data), a + Splice(b, at - |a|, data) + c;
    assert |s| == |t|;
    forall i | 0 <= i < |s|
      ensures s[i] == t[i]
    {
    }
  }

  lemma GuestWriteStaysInEsp(d: bytes, p: Params, gap: bytes, at: nat, data: bytes)
    requires IsDiskOf(d, p, gap) && Enabled(Some(d), GuestWrite(at, data))
    ensures IsDiskOf(Splice(d, at, data), p.(espImage := Splice(p.espImage, at - ESP_FIRST * BLOCK, data)), gap)
  {
    ImageHolds(p, gap);
    var q := PiecesOf(p);
    SpliceIntoMiddle(q.mbr + q.primary + q.entries + gap, q.esp, q.entries + q.secondary, at, data);
  }

  /** One event on a cache disk changes nothing outside its ESP. */
  lemma StepKeepsDisk(d: bytes, p: Params, gap: bytes, ev: Event) returns (esp: bytes)
    requires IsDiskOf(d, p, gap) && Enabled(Some(d), ev)
    ensures Step(Some(d), ev).Some? && IsDiskOf(Step(Some(d), ev).value, p.(espImage := esp), gap)
  {
    match ev
    case Script(r) =>
      ImageIsRecognised(d, p, gap);
      esp := p.espImage;
    case GuestWrite(at, data) =>
      GuestWriteStaysInEsp(d, p, gap, at, data);
      esp := Splice(p.espImage, at - ESP_FIRST * BLOCK, data);
  }

  /**
    Over every sequence of script runs, of any size and with any GUIDs, and of guest writes, a cache disk stays the
    disk of the same parameters and the same gap: only its ESP changes.
   */
  lemma {:induction false} EventsKeepDisk(d: bytes, p: Params, gap: bytes, evs: seq<Event>) returns (esp: bytes)
    requires IsDiskOf(d, p, gap) && AllEnabled(Some(d), evs)
    ensures After(Some(d), evs).Some? && IsDiskOf(After(Some(d), evs).value, p.(espImage := esp), gap)
    decreases |evs|
  {
    if evs == [] {
      esp := p.espImage;
    } else {
      var next := StepKeepsDisk(d, p, gap, evs[0]);
      esp := EventsKeepDisk(Step(Some(d), evs[0]).value, p.(espImage := next), gap, evs[1..]);
    }
  }

  /** The bytes outside the ESP. */
  function Outside(d: bytes): (bytes, bytes)
    requires |d| >= (ESP_FIRST + 33) * BLOCK
  {
    (d[..ESP_FIRST * BLOCK], d[|d| - 33 * BLOCK..])
  }

  lemma OutsideOfImage(d: bytes, p: Params, gap: bytes, e: bytes, esp: bytes)
    requires IsDiskOf(d, p, gap) && IsDiskOf(e, p.(espImage := esp), gap)
    ensures |d| == |e| == p.total * BLOCK && Outside(d) == Outside(e)
  {
    var p' := p.(espImage := esp);
    ImageHolds(p, gap);
    ImageHolds(p', gap);
    assert PiecesOf(p').(esp := p.espImage) == PiecesOf(p);
    CutFront(d);
    CutFront(e);
    var t := p.total;
    assert |d| - 33 * BLOCK == (t - 33) * BLOCK;
    assert d[(t - 33) * BLOCK..] == d[(t - 33) * BLOCK..(t - 1) * BLOCK] + d[(t - 1) * BLOCK..t * BLOCK];
    assert e[(t - 33) * BLOCK..] == e[(t - 33) * BLOCK..(t - 1) * BLOCK] + e[(t - 1) * BLOCK..t * BLOCK];
  }

  /** The disk of `p` as firmware and the script see it. */
  predicate Sound(d: bytes, p: Params)
    requires ValidTotal(p.total)
  {
    && Recognised(d)
    && |d| >= BLOCK && MbrProtects(d[..BLOCK], p.total)
    && CopyStrictlyValid(d, 1) && ReadTable(d, 1) == Some(TableOf(p, 1, p.total - 1, 2))
    && CopyStrictlyValid(d, p.total - 1) && ReadTable(d, p.total - 1) == Some(TableOf(p, p.total - 1, 1, p.total - 33))
  }

  lemma ImageIsSound(d: bytes, p: Params, gap: bytes)
    requires IsDiskOf(d, p, gap)
    ensures Sound(d, p)
  {
    ImageIsRecognised(d, p, gap);
    ImageReadsBack(d, p, gap);
    ImageHolds(p, gap);
    WrittenMbrProtects(p.total);
    assert d[..BLOCK] == d[0..BLOCK];
  }

  lemma SoundWhateverEsp(d: bytes, p: Params, esp: bytes)
    requires ValidTotal(p.total) && Sound(d, p.(espImage := esp))
    ensures Sound(d, p)
  {
  }

  lemma CreatedDisk(file: Option<bytes>, r: Input)
    requires ValidRun(file, r) && RunScript(file, r).1 == Created
    ensures ValidInput(r) && RunScript(file, r).0.Some? && r.espImage.Some?
    ensures IsDiskOf(RunScript(file, r).0.value, ParamsOf(r), OldGap(file, ParamsOf(r).total))
  {
  }

  /**
    After a run that creates the disk, over any contents of the file, every later sequence of runs and guest writes
    leaves the protective MBR, both headers and both entry arrays as that run wrote them and valid, both copies
    decoding to its parameters, and the file recognised.
   */
  lemma CreatedDiskLivesOn(file: Option<bytes>, r: Input, evs: seq<Event>)
    requires ValidRun(file, r) && RunScript(file, r).1 == Created && AllEnabled(RunScript(file, r).0, evs)
    ensures ValidInput(r) && r.espImage.Some?
    ensures var made, now, p := RunScript(file, r).0, After(RunScript(file, r).0, evs), ParamsOf(r);
            && made.Some? && now.Some? && |made.value| == |now.value| == p.total * BLOCK
            && Outside(now.value) == Outside(made.value)
            && Sound(now.value, p)
  {
    CreatedDisk(file, r);
    DiskLivesOn(RunScript(file, r).0.value, ParamsOf(r), OldGap(file, ParamsOf(r).total), evs);
  }

  lemma DiskLivesOn(d: bytes, p: Params, gap: bytes, evs: seq<Event>)
    requires IsDiskOf(d, p, gap) && AllEnabled(Some(d), evs)
    ensures var now := After(Some(d), evs);
            now.Some? && |now.value| == |d| == p.total * BLOCK && Outside(now.value) == Outside(d) && Sound(now.value, p)
  {
    var esp := EventsKeepDisk(d, p, gap, evs);
    var now := After(Some(d), evs).value;
    OutsideOfImage(d, p, gap, now, esp);
    ImageIsSound(now, p.(espImage := esp), gap);
    SoundWhateverEsp(now, p, esp);
  }

  /** After a run that completes, the file is a cache disk exactly when it already was or was not recognised before. */
  lemma FirstRunMakesDiskExactly(file: Option<bytes>, r: Input)
    requires ValidRun(file, r) && RunScript(file, r).1 != FormatFailed
    ensures IsCacheDisk(RunScript(file, r).0) <==> IsCacheDisk(file) || !(file.Some? && Recognised(file.value))
  {
    if file.Some? && Recognised(file.value) {
    } else {
      var p := ParamsOf(r);
      assert IsDiskOf(RunScript(file, r).0.value, p, OldGap(file, p.total));
    }
  }

  /** Running twice equals running once, over any file, whatever the second run is given, its size included. */
  lemma RunningTwiceIsRunningOnce(file: Option<bytes>, r: Input, again: Input)
    requires ValidRun(file, r) && RunScript(file, r).1 != FormatFailed
    ensures ValidRun(RunScript(file, r).0, again)
    ensures RunScript(RunScript(file, r).0, again) == (RunScript(file, r).0, LeftAlone)
  {
    if !(file.Some? && Recognised(file.value)) {
      var p := ParamsOf(r);
      ImageIsRecognised(RunScript(file, r).0.value, p, OldGap(file, p.total));
    }
  }

  /** A file that is recognised though it is no valid disk is never repaired: no run changes it. */
  lemma {:induction false} InvalidButRecognisedStays(d: bytes, evs: seq<Event>)
    requires Recognised(d) && AllEnabled(Some(d), evs) && (forall k :: 0 <= k < |evs| ==> evs[k].Script?)
    ensures After(Some(d), evs) == Some(d)
    decreases |evs|
  {
    if evs != [] {
      InvalidButRecognisedStays(d, evs[1..]);
    }
  }
}

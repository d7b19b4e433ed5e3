/** What `push index` leaves for a client, entry by entry, and when it succeeds. */
module DeliveredIndexes {
  import opened Artifact
  import opened Closure
  import opened Delivered
  import opened FlagLists
  import opened ImageIndex
  import opened Registry
  import opened Wrappers

  // ---- when a run succeeds ----

  /** What an entry of a run names in a world. */
  function Fetched(e: Env, w: World, p: Entry): Option<Doc> {
    match e.parse(p.value)
    case None => None
    case Some(ref) => Lookup(e, w, RepoId(ref.host, ref.repo), ref.reference)
  }

  /** The entry has a platform, and a reference under which the registry has a manifest. */
  predicate Describable(e: Env, w: World, p: Entry) {
    ParsePlatform(p.platform).Some? && Fetched(e, w, p).Some?
  }

  predicate AllDescribable(e: Env, w: World, ps: seq<Entry>) {
    forall i :: 0 <= i < |ps| ==> Describable(e, w, ps[i])
  }

  /** Why the first entry that cannot be described is refused. */
  function Refusal(e: Env, w: World, ps: seq<Entry>): Error
    requires !AllDescribable(e, w, ps)
  {
    if Describable(e, w, ps[0]) then
      assert !AllDescribable(e, w, ps[1..]) by {
        assert forall i :: 0 < i < |ps| ==> ps[i] == ps[1..][i - 1];
      }
      Refusal(e, w, ps[1..])
    else if ParsePlatform(ps[0].platform).None? then BadPlatform
    else if e.parse(ps[0].value).None? then BadReference
    else RequestFailed
  }

  lemma {:induction false} DescribeSucceedsExactly(e: Env, f: Schedule, s: State, ps: seq<Entry>)
    ensures var (t, r) := DescribeAll(e, f, s, ps);
            && t.world == s.world && s.calls <= t.calls
            && (r.Ok? <==> AllDescribable(e, s.world, ps) && AllServed(f, s.calls, t.calls))
            && (!AllDescribable(e, s.world, ps) && AllServed(f, s.calls, t.calls) ==> r == Err(Refusal(e, s.world, ps)))
            && (!AllServed(f, s.calls, t.calls) ==> r == Err(RequestFailed))
    decreases |ps|
  {
    if ps != [] {
      var (t, r) := DescribeOne(e, f, s, ps[0]);
      assert AllDescribable(e, s.world, ps) <==> Describable(e, s.world, ps[0]) && AllDescribable(e, s.world, ps[1..]) by {
        assert forall i :: 0 < i < |ps| ==> ps[i] == ps[1..][i - 1];
      }
      if r.Ok? {
        DescribeSucceedsExactly(e, f, t, ps[1..]);
      }
    }
  }

  lemma DescribableIsDescribed(e: Env, w: World, ps: seq<Entry>)
    ensures AllDescribable(e, w, ps) <==> AllDescribed(e, w, ps)
  {
    forall p: Entry
      ensures Describable(e, w, p) <==> Described(e, w, p).Some?
    {
    }
  }

  /**
    A run succeeds exactly when it is given entries that the registry can describe, its own reference fits and every
    request that it made was served. It is refused without a request when it is given no entry, or no reference.
   */
  lemma IndexSucceedsExactly(e: Env, f: Schedule, s: State, o: IndexOpts)
    ensures var (t, r) := RunIndex(e, f, s, o);
            && s.calls <= t.calls
            && (o.platforms == [] ==> (t, r) == (s, Err(NoPlatforms)))
            && (o.platforms != [] && e.parse(o.outRef).None? ==> (t, r) == (s, Err(BadReference)))
            && (o.platforms != [] && e.parse(o.outRef).Some? && AllServed(f, s.calls, t.calls) ==>
                  (!AllDescribable(e, s.world, o.platforms) ==> r == Err(Refusal(e, s.world, o.platforms))))
            && (r.Ok? ==> AllDescribed(e, s.world, o.platforms))
            && (r.Ok? <==>
                  && o.platforms != [] && e.parse(o.outRef).Some? && AllDescribable(e, s.world, o.platforms)
                  && (AllDescribed(e, s.world, o.platforms) ==>
                        Fits(e, e.parse(o.outRef).value.reference, NewIndex(e, s.world, o)))
                  && AllServed(f, s.calls, t.calls))
  {
    DescribeSucceedsExactly(e, f, s, o.platforms);
    DescribableIsDescribed(e, s.world, o.platforms);
    if o.platforms != [] && e.parse(o.outRef).Some? && DescribeAll(e, f, s, o.platforms).1.Ok? {
      DescribedByWorld(e, f, s, o.platforms);
      assert DescribeAll(e, f, s, o.platforms).1.value == NewIndex(e, s.world, o).entries;
    }
  }

  // ---- what a client finds ----

  /** An index entry is for the platform of an entry of the run, and declares the manifest that it names. */
  predicate EntryFor(e: Env, w: World, p: Entry, entry: IndexEntry) {
    && p.platform == entry.os + "/" + entry.arch && '/' !in entry.os
    && Fetched(e, w, p).Some? && Declares(e, entry.target, Fetched(e, w, p).value)
  }

  /** After a run that succeeds its index is under its reference and its digest, with one entry for each that it was given. */
  lemma IndexDelivered(e: Env, f: Schedule, s: State, o: IndexOpts)
    requires RunIndex(e, f, s, o).1.Ok?
    ensures e.parse(o.outRef).Some?
    ensures var (t, index) := (RunIndex(e, f, s, o).0, RunIndex(e, f, s, o).1.value);
            var out := e.parse(o.outRef).value; var home := RepoId(out.host, out.repo);
            && Lookup(e, t.world, home, out.reference) == Some(index)
            && Lookup(e, t.world, home, e.digest(e.encode(index))) == Some(index)
            && index.Index? && |index.entries| == |o.platforms|
            && forall i :: 0 <= i < |o.platforms| ==> EntryFor(e, s.world, o.platforms[i], index.entries[i])
  {
    SucceededRun(e, f, s, o);
    var index := NewIndex(e, s.world, o);
    forall i | 0 <= i < |o.platforms|
      ensures EntryFor(e, s.world, o.platforms[i], index.entries[i])
    {
      var p := o.platforms[i];
      assert Described(e, s.world, p) == Some(index.entries[i]);
      ParsePlatformExactly(p.platform, index.entries[i].os, index.entries[i].arch);
    }
  }
}

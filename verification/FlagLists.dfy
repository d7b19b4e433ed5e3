/** The repeatable `<os/arch>=<value>` flags of the push commands. */
module FlagLists {
  import opened Text
  import opened Wrappers

  datatype Entry = Entry(platform: string, value: string)

  /** `push multi` refuses empty parts, `push index` takes them. */
  datatype Kind = Paths | Refs

  function Parse(kind: Kind, v: string): Option<Entry> {
    match Cut(v, '=')
    case None => None
    case Some((a, b)) => if kind.Paths? && (a == "" || b == "") then None else Some(Entry(a, b))
  }

  function Render(e: Entry): string {
    e.platform + "=" + e.value
  }

  /** What `Set` can put into a list. */
  predicate WellFormed(kind: Kind, e: Entry) {
    '=' !in e.platform && (kind.Paths? ==> e.platform != "" && e.value != "")
  }

  predicate AllWellFormed(kind: Kind, es: seq<Entry>) {
    forall i :: 0 <= i < |es| ==> WellFormed(kind, es[i])
  }

  /** Parsing accepts exactly the rendered well-formed entries, and is the inverse of rendering, both ways. */
  lemma ParseRender(kind: Kind, v: string, e: Entry)
    ensures Parse(kind, v) == Some(e) <==> WellFormed(kind, e) && Render(e) == v
  {
    CutParts(v, '=');
    if WellFormed(kind, e) {
      CutJoined(e.platform, e.value, '=');
    }
  }

  /** How many of the values are accepted before the first that is not. */
  function Good(kind: Kind, vals: seq<string>): (k: nat)
    ensures k <= |vals|
    ensures forall i :: 0 <= i < k ==> Parse(kind, vals[i]).Some?
    ensures k < |vals| ==> Parse(kind, vals[k]).None?
  {
    if vals == [] || Parse(kind, vals[0]).None? then 0 else 1 + Good(kind, vals[1..])
  }

  function ParseAll(kind: Kind, vals: seq<string>): (r: seq<Entry>)
    requires forall i :: 0 <= i < |vals| ==> Parse(kind, vals[i]).Some?
    ensures |r| == |vals|
  {
    seq(|vals|, i requires 0 <= i < |vals| => Parse(kind, vals[i]).value)
  }

  function RenderAll(es: seq<Entry>): (r: seq<string>)
    ensures |r| == |es|
  {
    seq(|es|, i requires 0 <= i < |es| => Render(es[i]))
  }

  /** A list of such entries, filled in place by the flag library. */
  class FlagList {
    const kind: Kind
    var entries: seq<Entry>

    constructor (kind: Kind)
      ensures this.kind == kind && entries == []
    {
      this.kind := kind;
      entries := [];
    }

    method Set(v: string) returns (ok: bool)
      modifies this
      ensures ok == Parse(kind, v).Some?
      ensures entries == if ok then old(entries) + [Parse(kind, v).value] else old(entries)
    {
      match Parse(kind, v)
      case None => ok := false;
      case Some(e) =>
        entries := entries + [e];
        ok := true;
    }

    /** Empties the list and sets the values one by one, up to the first bad one. */
    method Replace(vals: seq<string>) returns (ok: bool)
      modifies this
      ensures ok == (Good(kind, vals) == |vals|)
      ensures entries == ParseAll(kind, vals[..Good(kind, vals)])
    {
      entries := [];
      for i := 0 to |vals|
        invariant i <= Good(kind, vals)
        invariant entries == ParseAll(kind, vals[..i])
      {
        ok := Set(vals[i]);
        if !ok {
          GoodIs(kind, vals, i);
          return;
        }
        GoodPast(kind, vals, i);
      }
      ok := true;
      assert vals[..|vals|] == vals;
    }

    method GetSlice() returns (out: seq<string>)
      ensures out == RenderAll(entries)
    {
      var cells := new string[|entries|](_ => "");
      for i := 0 to |entries|
        invariant cells.Length == |entries|
        invariant forall j :: 0 <= j < i ==> cells[j] == Render(entries[j])
      {
        cells[i] := Render(entries[i]);
      }
      out := cells[..];
    }
  }

  lemma {:induction false} GoodIs(kind: Kind, vals: seq<string>, i: nat)
    requires i < |vals| && i <= Good(kind, vals) && Parse(kind, vals[i]).None?
    ensures Good(kind, vals) == i
  {
  }

  lemma {:induction false} GoodPast(kind: Kind, vals: seq<string>, i: nat)
    requires i < |vals| && i <= Good(kind, vals) && Parse(kind, vals[i]).Some?
    ensures i < Good(kind, vals)
  {
  }

  /** After a `Replace` that succeeds, `GetSlice` gives the very strings back, `=` in their values or not. */
  lemma SliceOfReplaced(kind: Kind, vals: seq<string>)
    requires Good(kind, vals) == |vals|
    ensures RenderAll(ParseAll(kind, vals)) == vals && AllWellFormed(kind, ParseAll(kind, vals))
  {
    forall i | 0 <= i < |vals|
      ensures RenderAll(ParseAll(kind, vals))[i] == vals[i] && WellFormed(kind, ParseAll(kind, vals)[i])
    {
      ParseRender(kind, vals[i], Parse(kind, vals[i]).value);
    }
  }

  /** `Replace` with the `GetSlice` of a list that `Set` built succeeds and rebuilds that list. */
  lemma ReplacedBySlice(kind: Kind, es: seq<Entry>)
    requires AllWellFormed(kind, es)
    ensures Good(kind, RenderAll(es)) == |es| && ParseAll(kind, RenderAll(es)) == es
  {
    forall i | 0 <= i < |es|
      ensures Parse(kind, RenderAll(es)[i]) == Some(es[i])
    {
      ParseRender(kind, Render(es[i]), es[i]);
    }
  }

  // ---- searching a list ----

  /** The value of the first entry for the platform, or nothing. */
  function PathFor(es: seq<Entry>, platform: string): string {
    if es == [] then "" else if es[0].platform == platform then es[0].value else PathFor(es[1..], platform)
  }

  method FindPath(es: seq<Entry>, platform: string) returns (path: string)
    ensures path == PathFor(es, platform)
  {
    for i := 0 to |es|
      invariant PathFor(es, platform) == PathFor(es[i..], platform)
    {
      if es[i].platform == platform {
        return es[i].value;
      }
    }
    path := "";
  }

  predicate Mentions(es: seq<Entry>, platform: string) {
    exists i :: 0 <= i < |es| && es[i].platform == platform
  }

  /** A path is found exactly when there is an entry for the platform. */
  lemma {:induction false} PathFound(es: seq<Entry>, platform: string)
    requires AllWellFormed(Paths, es)
    ensures PathFor(es, platform) != "" <==> Mentions(es, platform)
  {
    if es != [] {
      PathFound(es[1..], platform);
      MentionsFirst(es);
    }
  }

  /** Of several entries for a platform, the first one wins. */
  lemma {:induction false} FirstEntryWins(es: seq<Entry>, i: nat)
    requires i < |es| && forall j :: 0 <= j < i ==> es[j].platform != es[i].platform
    ensures PathFor(es, es[i].platform) == es[i].value
  {
    if i > 0 {
      assert es[1..][i - 1] == es[i];
      FirstEntryWins(es[1..], i - 1);
    }
  }

  predicate NoRepeats(es: seq<Entry>) {
    forall i, j :: 0 <= i < j < |es| ==> es[i].platform != es[j].platform
  }

  lemma {:induction false} PathOfMember(es: seq<Entry>, e: Entry)
    requires NoRepeats(es) && e in es
    ensures PathFor(es, e.platform) == e.value
  {
    if es[0] != e {
      assert e in es[1..];
      var i :| 0 <= i < |es[1..]| && es[1..][i] == e;
      assert es[i + 1].platform == e.platform;
      PathOfMember(es[1..], e);
    }
  }

  lemma {:induction false} PathOfNone(es: seq<Entry>, platform: string)
    requires !Mentions(es, platform)
    ensures PathFor(es, platform) == ""
  {
    if es != [] {
      MentionsFirst(es);
      PathOfNone(es[1..], platform);
    }
  }

  /** In lists without repeats the order does not matter. */
  lemma PathInAnyOrder(es: seq<Entry>, fs: seq<Entry>, platform: string)
    requires NoRepeats(es) && NoRepeats(fs) && forall e :: e in es <==> e in fs
    ensures PathFor(es, platform) == PathFor(fs, platform)
  {
    if i :| 0 <= i < |es| && es[i].platform == platform {
      assert es[i] in fs;
      PathOfMember(es, es[i]);
      PathOfMember(fs, es[i]);
    } else {
      forall i | 0 <= i < |fs|
        ensures fs[i].platform != platform
      {
        assert fs[i] in es;
      }
      PathOfNone(es, platform);
      PathOfNone(fs, platform);
    }
  }

  // ---- the platforms of several lists ----

  function PlatformsOf(es: seq<Entry>, acc: seq<string>): (r: seq<string>)
    ensures forall x :: x in r <==> x in acc || Mentions(es, x)
    decreases |es|
  {
    if es == [] then acc
    else
      var r := PlatformsOf(es[1..], Insert(acc, es[0].platform));
      MentionsFirst(es);
      r
  }

  lemma MentionsFirst(es: seq<Entry>)
    requires es != []
    ensures forall x :: Mentions(es, x) <==> x == es[0].platform || Mentions(es[1..], x)
  {
    forall x
      ensures Mentions(es, x) <==> x == es[0].platform || Mentions(es[1..], x)
    {
      if i :| 0 <= i < |es[1..]| && es[1..][i].platform == x {
        assert es[i + 1].platform == x;
      }
      if i :| 0 <= i < |es| && es[i].platform == x {
        assert i > 0 ==> es[1..][i - 1].platform == x;
      }
      assert es[0].platform == x ==> Mentions(es, x);
    }
  }

  lemma {:induction false} PlatformsSorted(es: seq<Entry>, acc: seq<string>)
    requires Sorted(acc)
    ensures Sorted(PlatformsOf(es, acc))
    decreases |es|
  {
    if es != [] {
      InsertSorted(acc, es[0].platform);
      PlatformsSorted(es[1..], Insert(acc, es[0].platform));
    }
  }

  /** The platforms that the three lists mention. */
  function Platforms(a: seq<Entry>, b: seq<Entry>, c: seq<Entry>): seq<string> {
    PlatformsOf(c, PlatformsOf(b, PlatformsOf(a, [])))
  }

  /** They are the union, strictly sorted: which determines them. */
  lemma PlatformsExactly(a: seq<Entry>, b: seq<Entry>, c: seq<Entry>)
    ensures Sorted(Platforms(a, b, c))
    ensures forall x :: x in Platforms(a, b, c) <==> Mentions(a, x) || Mentions(b, x) || Mentions(c, x)
  {
    PlatformsSorted(a, []);
    PlatformsSorted(b, PlatformsOf(a, []));
    PlatformsSorted(c, PlatformsOf(b, PlatformsOf(a, [])));
  }

  /** `sort.Strings` on distinct strings. */
  function SortStrings(s: seq<string>): (r: seq<string>)
    ensures Sorted(r) && forall x :: x in r <==> x in s
  {
    if s == [] then []
    else
      var r := Insert(SortStrings(s[1..]), s[0]);
      InsertSorted(SortStrings(s[1..]), s[0]);
      assert s == [s[0]] + s[1..];
      r
  }

  /** The loop of the source: a set of what was seen, a slice in order of appearance, sorted at the end. */
  method UniquePlatforms(lists: seq<seq<Entry>>) returns (out: seq<string>)
    ensures Sorted(out)
    ensures forall x :: x in out <==> exists k :: 0 <= k < |lists| && Mentions(lists[k], x)
  {
    var seen: set<string> := {};
    out := [];
    for k := 0 to |lists|
      invariant forall x :: x in seen <==> x in out
      invariant forall x :: x in out <==> exists j :: 0 <= j < k && Mentions(lists[j], x)
    {
      var l := lists[k];
      for i := 0 to |l|
        invariant forall x :: x in seen <==> x in out
        invariant forall x :: x in out <==> Mentions(l[..i], x) || exists j :: 0 <= j < k && Mentions(lists[j], x)
      {
        MentionsNext(l, i);
        if l[i].platform !in seen {
          seen := seen + {l[i].platform};
          out := out + [l[i].platform];
        }
      }
      assert l[..|l|] == l;
    }
    out := SortStrings(out);
  }

  lemma MentionsNext(l: seq<Entry>, i: nat)
    requires i < |l|
    ensures forall x :: Mentions(l[..i + 1], x) <==> Mentions(l[..i], x) || l[i].platform == x
  {
    var m, n := l[..i], l[..i + 1];
    forall x
      ensures Mentions(n, x) <==> Mentions(m, x) || l[i].platform == x
    {
      if j :| 0 <= j < |m| && m[j].platform == x {
        assert n[j].platform == x;
      }
      if j :| 0 <= j < |n| && n[j].platform == x {
        assert j < i ==> m[j].platform == x;
      }
      assert l[i].platform == x ==> n[i].platform == x;
    }
  }

  /** The loop computes the platforms: being sorted and having these members leaves one answer. */
  lemma UniqueIsPlatforms(lists: seq<seq<Entry>>, out: seq<string>)
    requires |lists| == 3 && Sorted(out)
    requires forall x :: x in out <==> exists k :: 0 <= k < |lists| && Mentions(lists[k], x)
    ensures out == Platforms(lists[0], lists[1], lists[2])
  {
    PlatformsExactly(lists[0], lists[1], lists[2]);
    SortedUnique(out, Platforms(lists[0], lists[1], lists[2]));
  }

  /** Permuting the lists does not change their platforms. */
  lemma PlatformsInAnyOrder(a: seq<Entry>, b: seq<Entry>, c: seq<Entry>, a': seq<Entry>, b': seq<Entry>, c': seq<Entry>)
    requires (forall e :: e in a <==> e in a') && (forall e :: e in b <==> e in b') && (forall e :: e in c <==> e in c')
    ensures Platforms(a, b, c) == Platforms(a', b', c')
  {
    PlatformsExactly(a, b, c);
    PlatformsExactly(a', b', c');
    SameMentions(a, a');
    SameMentions(b, b');
    SameMentions(c, c');
    SortedUnique(Platforms(a, b, c), Platforms(a', b', c'));
  }

  lemma SameMentions(a: seq<Entry>, b: seq<Entry>)
    requires forall e :: e in a <==> e in b
    ensures forall x :: Mentions(a, x) <==> Mentions(b, x)
  {
    forall x
      ensures Mentions(a, x) <==> Mentions(b, x)
    {
      if i :| 0 <= i < |a| && a[i].platform == x {
        assert a[i] in b;
      }
      if i :| 0 <= i < |b| && b[i].platform == x {
        assert b[i] in a;
      }
    }
  }
}

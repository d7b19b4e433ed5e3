/** Slash-separated paths, as Go's path and filepath packages treat them. */
module Paths {
  function TrimSlashes(s: string): string {
    if s != "" && s[|s| - 1] == '/' then TrimSlashes(s[..|s| - 1]) else s
  }

  /** What follows the last slash. */
  function AfterLastSlash(s: string): (r: string)
    ensures '/' !in r
  {
    if s == "" then "" else if s[|s| - 1] == '/' then "" else AfterLastSlash(s[..|s| - 1]) + [s[|s| - 1]]
  }

  lemma {:induction false} Trimmed(s: string) returns (slashes: string)
    ensures s == TrimSlashes(s) + slashes && forall i :: 0 <= i < |slashes| ==> slashes[i] == '/'
  {
    slashes := "";
    if s != "" && s[|s| - 1] == '/' {
      var others := Trimmed(s[..|s| - 1]);
      slashes := others + "/";
      assert s == s[..|s| - 1] + "/";
    }
  }

  /** A string ends with what follows its last slash. */
  lemma {:induction false} LastSlash(s: string) returns (front: string)
    ensures s == front + AfterLastSlash(s) && (front == "" || front[|front| - 1] == '/')
  {
    if s == "" || s[|s| - 1] == '/' {
      front := s;
      assert s == s + "";
    } else {
      var t, last := s[..|s| - 1], [s[|s| - 1]];
      front := LastSlash(t);
      assert s == t + last == front + (AfterLastSlash(t) + last);
    }
  }

  /** `filepath.Base` */
  function Base(s: string): string {
    if s == "" then "."
    else
      var r := AfterLastSlash(TrimSlashes(s));
      if r == "" then "/" else r
  }

  lemma {:induction false} TrimmedHasNoLastSlash(s: string)
    ensures TrimSlashes(s) == "" || TrimSlashes(s)[|TrimSlashes(s)| - 1] != '/'
    ensures TrimSlashes(TrimSlashes(s)) == TrimSlashes(s)
  {
    if s != "" && s[|s| - 1] == '/' {
      TrimmedHasNoLastSlash(s[..|s| - 1]);
    }
  }

  predicate AllSlashes(s: string) {
    forall i :: 0 <= i < |s| ==> s[i] == '/'
  }

  lemma {:induction false} OnlySlashes(s: string)
    ensures TrimSlashes(s) == "" <==> AllSlashes(s)
  {
    if s != "" && s[|s| - 1] == '/' {
      OnlySlashes(s[..|s| - 1]);
      assert AllSlashes(s) <==> AllSlashes(s[..|s| - 1]);
    }
  }

  /** The base of a path is its last part, without the slashes behind it; of slashes only it is one slash. */
  lemma BaseIsLastPart(s: string) returns (front: string, slashes: string)
    ensures AllSlashes(slashes)
    ensures AllSlashes(s) ==> Base(s) == if s == "" then "." else "/"
    ensures !AllSlashes(s) ==>
              && s == front + Base(s) + slashes && (front == "" || front[|front| - 1] == '/')
              && Base(s) != "" && '/' !in Base(s)
  {
    slashes := Trimmed(s);
    TrimmedHasNoLastSlash(s);
    var t := TrimSlashes(s);
    front := LastSlash(t);
    OnlySlashes(s);
  }

  /** The parts between the slashes. */
  function Components(s: string): (r: seq<string>)
    ensures r != []
  {
    if s == "" then [""]
    else if s[0] == '/' then [""] + Components(s[1..])
    else [[s[0]] + Components(s[1..])[0]] + Components(s[1..])[1..]
  }

  function JoinNames(cs: seq<string>): string {
    if cs == [] then "" else if |cs| == 1 then cs[0] else cs[0] + "/" + JoinNames(cs[1..])
  }

  /** A part that names something in a directory. */
  predicate Proper(c: string) {
    c != "" && c != "." && c != ".." && '/' !in c
  }

  predicate AllProper(cs: seq<string>) {
    forall i :: 0 <= i < |cs| ==> Proper(cs[i])
  }

  /** `path.Clean` on the parts of a relative path, onto the parts before. */
  function CleanOnto(acc: seq<string>, cs: seq<string>): seq<string>
    decreases |cs|
  {
    if cs == [] then acc
    else if cs[0] == "" || cs[0] == "." then CleanOnto(acc, cs[1..])
    else if cs[0] == ".." && acc != [] && acc[|acc| - 1] != ".." then CleanOnto(acc[..|acc| - 1], cs[1..])
    else CleanOnto(acc + [cs[0]], cs[1..])
  }

  /** `path.Join` of two relative paths. */
  function PathJoin(a: string, b: string): string {
    var cs := CleanOnto([], Components(a) + Components(b));
    if cs == [] then (if a == "" && b == "" then "" else ".") else JoinNames(cs)
  }

  lemma {:induction false} ComponentsOfFirst(a: string, s: string)
    requires '/' !in a
    ensures Components(a + "/" + s) == [a] + Components(s)
  {
    var t := a + "/" + s;
    if a == "" {
      assert t[1..] == s;
    } else {
      ComponentsOfFirst(a[1..], s);
      assert t[1..] == a[1..] + "/" + s;
      assert a == [a[0]] + a[1..];
    }
  }

  lemma {:induction false} ComponentsOfOne(a: string)
    requires '/' !in a
    ensures Components(a) == [a]
  {
    if a != "" {
      ComponentsOfOne(a[1..]);
      assert a == [a[0]] + a[1..];
    }
  }

  /** Splitting a joined path gives its parts back. */
  lemma {:induction false} ComponentsOfJoin(cs: seq<string>)
    requires cs != [] && forall i :: 0 <= i < |cs| ==> '/' !in cs[i]
    ensures Components(JoinNames(cs)) == cs
  {
    if |cs| == 1 {
      ComponentsOfOne(cs[0]);
    } else {
      ComponentsOfJoin(cs[1..]);
      ComponentsOfFirst(cs[0], JoinNames(cs[1..]));
      assert cs == [cs[0]] + cs[1..];
    }
  }

  lemma {:induction false} CleanProper(acc: seq<string>, cs: seq<string>)
    requires AllProper(cs)
    ensures CleanOnto(acc, cs) == acc + cs
    decreases |cs|
  {
    if cs != [] {
      CleanProper(acc + [cs[0]], cs[1..]);
      assert acc + [cs[0]] + cs[1..] == acc + cs;
    } else {
      assert acc + cs == acc;
    }
  }

  lemma {:induction false} CleanConcat(acc: seq<string>, a: seq<string>, b: seq<string>)
    ensures CleanOnto(acc, a + b) == CleanOnto(CleanOnto(acc, a), b)
    decreases |a|
  {
    if a == [] {
      assert a + b == b;
    } else {
      assert (a + b)[1..] == a[1..] + b;
      if a[0] == "" || a[0] == "." {
        CleanConcat(acc, a[1..], b);
      } else if a[0] == ".." && acc != [] && acc[|acc| - 1] != ".." {
        CleanConcat(acc[..|acc| - 1], a[1..], b);
      } else {
        CleanConcat(acc + [a[0]], a[1..], b);
      }
    }
  }

  /** Joining the paths of proper parts joins the parts. */
  lemma JoinOfProper(a: seq<string>, b: seq<string>)
    requires a != [] && AllProper(a) && AllProper(b)
    ensures PathJoin(JoinNames(a), JoinNames(b)) == JoinNames(a + b)
  {
    ComponentsOfJoin(a);
    CleanProper([], a);
    assert [] + a == a;
    CleanConcat([], a, Components(JoinNames(b)));
    if b == [] {
      assert CleanOnto(a, [""]) == CleanOnto(a, [""][1..]);
      assert a + b == a;
    } else {
      ComponentsOfJoin(b);
      CleanProper(a, b);
    }
  }

  lemma {:induction false} JoinNext(cs: seq<string>, c: string)
    ensures JoinNames(cs + [c]) == if cs == [] then c else JoinNames(cs) + "/" + c
  {
    if cs == [] {
      assert cs + [c] == [c];
    } else if |cs| == 1 {
      assert (cs + [c])[1..] == [c];
    } else {
      JoinNext(cs[1..], c);
      assert (cs + [c])[1..] == cs[1..] + [c];
    }
  }

  predicate NoneEmpty(cs: seq<string>) {
    forall i :: 0 <= i < |cs| ==> cs[i] != ""
  }

  lemma {:induction false} CleanedNotEmpty(acc: seq<string>, cs: seq<string>)
    requires NoneEmpty(acc)
    ensures NoneEmpty(CleanOnto(acc, cs))
    decreases |cs|
  {
    if cs != [] {
      if cs[0] == "" || cs[0] == "." {
        CleanedNotEmpty(acc, cs[1..]);
      } else if cs[0] == ".." && acc != [] && acc[|acc| - 1] != ".." {
        CleanedNotEmpty(acc[..|acc| - 1], cs[1..]);
      } else {
        CleanedNotEmpty(acc + [cs[0]], cs[1..]);
      }
    }
  }

  /** A joined path is empty only when nothing was joined: where all is cleaned away, it is a dot. */
  lemma JoinIsEmptyExactly(a: string, b: string)
    ensures PathJoin(a, b) == "" <==> a == "" && b == ""
  {
    CleanedNotEmpty([], Components(a) + Components(b));
    if a == "" && b == "" {
      assert Components(a) + Components(b) == ["", ""];
      assert ["", ""][1..] == [""] && [""][1..] == [];
      assert CleanOnto([], ["", ""]) == CleanOnto([], [""]) == CleanOnto([], []) == [];
    }
  }
}

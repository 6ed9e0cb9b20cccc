/**
 * POSIX path handling as the monitors use it: `os.path.basename`,
 * `os.path.dirname` and `os.path.normpath`, with `/` as the only separator.
 */
module Paths {
  import opened Strings

  /** `p.rfind('/') + 1`: the index just after the last slash, 0 when there is none. */
  function SplitIndex(p: string): (i: nat)
    ensures i <= |p|
    ensures i > 0 ==> p[i - 1] == '/'
    ensures forall k :: i <= k < |p| ==> p[k] != '/'
  {
    if p == [] then 0
    else if p[|p| - 1] == '/' then |p|
    else SplitIndex(p[..|p| - 1])
  }

  /** `os.path.basename(p)`: everything after the last slash. */
  function BaseName(p: string): string
  {
    p[SplitIndex(p)..]
  }

  predicate AllSlashes(s: string)
  {
    forall k :: 0 <= k < |s| ==> s[k] == '/'
  }

  /** `s.rstrip('/')` */
  function TrimSlashes(s: string): (r: string)
    ensures |r| <= |s| && r == s[..|r|]
    ensures AllSlashes(s[|r|..])
    ensures r == [] || r[|r| - 1] != '/'
  {
    if s != [] && s[|s| - 1] == '/' then TrimSlashes(s[..|s| - 1]) else s
  }

  /**
   * `os.path.dirname(p)`: everything up to the last slash, with trailing
   * slashes removed unless the head consists of slashes only.
   */
  function DirName(p: string): string
  {
    var head := p[..SplitIndex(p)];
    if head != [] && !AllSlashes(head) then TrimSlashes(head) else head
  }

  /**
   * The base name is the part after the head and holds no slash; the head,
   * when not empty, ends in a slash.
   */
  lemma BaseNameSpec(p: string)
    ensures p == p[..SplitIndex(p)] + BaseName(p)
    ensures '/' !in BaseName(p)
    ensures SplitIndex(p) > 0 ==> p[SplitIndex(p) - 1] == '/'
  {
  }

  lemma {:induction false} SplitIndexAfterSlash(d: string, name: string)
    requires '/' !in name
    ensures SplitIndex(d + "/" + name) == |d| + 1
    decreases |name|
  {
    var p := d + "/" + name;
    if name == [] {
      assert p[|p| - 1] == '/';
    } else {
      var name' := name[..|name| - 1];
      assert p[..|p| - 1] == d + "/" + name';
      assert p[|p| - 1] == name[|name| - 1];
      SplitIndexAfterSlash(d, name');
    }
  }

  /**
   * `os.path.join(d, name)` undone: a file name without slashes placed under a
   * directory that does not end in a slash splits back into the two.
   */
  lemma BaseAndDirOfJoin(d: string, name: string)
    requires '/' !in name
    requires d != [] && d[|d| - 1] != '/'
    ensures BaseName(d + "/" + name) == name
    ensures DirName(d + "/" + name) == d
  {
    var p := d + "/" + name;
    SplitIndexAfterSlash(d, name);
    assert p[|d| + 1..] == name;
    var head := p[..|d| + 1];
    assert head == d + "/";
    assert head[|d| - 1] != '/';
    assert head[..|d|] == d;
    assert TrimSlashes(head) == TrimSlashes(head[..|head| - 1]);
  }

  /** `s.split('/')` */
  function Split(s: string): (parts: seq<string>)
    ensures |parts| >= 1
    ensures forall k :: 0 <= k < |parts| ==> '/' !in parts[k]
  {
    if s == [] then [""]
    else
      var rest := Split(s[1..]);
      if s[0] == '/' then [""] + rest
      else [[s[0]] + rest[0]] + rest[1..]
  }

  /** `'/'.join(parts)` */
  function Join(parts: seq<string>): string
  {
    if parts == [] then ""
    else if |parts| == 1 then parts[0]
    else parts[0] + "/" + Join(parts[1..])
  }

  /**
   * Joining the pieces of a split gives back the string: `Join` undoes
   * `Split`, as `SplitInvertsJoin` shows `Split` undoes `Join` on slash-free
   * pieces, so the two are inverse on the strings `normpath` takes apart.
   */
  lemma {:induction false} JoinOfSplit(s: string)
    ensures Join(Split(s)) == s
  {
    if s != [] {
      var rest := Split(s[1..]);
      JoinOfSplit(s[1..]);
      if s[0] == '/' {
        assert Split(s) == [""] + rest;
        assert (Split(s))[1..] == rest;
      } else {
        var parts := [[s[0]] + rest[0]] + rest[1..];
        assert parts[1..] == rest[1..];
        if |rest| > 1 {
          assert Join(rest) == rest[0] + "/" + Join(rest[1..]);
        }
      }
    }
  }

  lemma {:induction false} SplitAfterPlain(x: string, s: string)
    requires '/' !in x
    ensures Split(x + s) == [x + Split(s)[0]] + Split(s)[1..]
    decreases |x|
  {
    if x != [] {
      assert (x + s)[0] == x[0];
      assert (x + s)[1..] == x[1..] + s;
      SplitAfterPlain(x[1..], s);
      assert [x[0]] + (x[1..] + Split(s)[0]) == x + Split(s)[0];
    } else {
      assert x + s == s;
      assert x + Split(s)[0] == Split(s)[0];
      assert Split(s) == [Split(s)[0]] + Split(s)[1..];
    }
  }

  lemma SplitAfterSlash(s: string)
    ensures Split("/" + s) == [""] + Split(s)
  {
    assert ("/" + s)[1..] == s;
  }

  /** Splitting a join of slash-free pieces gives back the pieces. */
  lemma {:induction false} SplitInvertsJoin(parts: seq<string>)
    requires parts != []
    requires forall k :: 0 <= k < |parts| ==> '/' !in parts[k]
    ensures Split(Join(parts)) == parts
  {
    if |parts| == 1 {
      SplitAfterPlain(parts[0], "");
      assert parts[0] + "" == parts[0];
    } else {
      var j := Join(parts[1..]);
      SplitInvertsJoin(parts[1..]);
      assert Join(parts) == parts[0] + ("/" + j);
      SplitAfterPlain(parts[0], "/" + j);
      SplitAfterSlash(j);
      assert Split("/" + j)[0] == "" && Split("/" + j)[1..] == parts[1..];
      assert parts[0] + "" == parts[0];
      assert parts == [parts[0]] + parts[1..];
    }
  }

  /** How many of `p`'s leading slashes `normpath` keeps: 2 for exactly two, else at most 1. */
  function RootSlashes(p: string): nat
  {
    if StartsWith(p, "//") && !StartsWith(p, "///") then 2
    else if StartsWith(p, "/") then 1
    else 0
  }

  function RootPrefix(n: nat): string
  {
    if n == 2 then "//" else if n == 1 then "/" else ""
  }

  /**
   * `normpath`'s loop over the components: drop empty and `.` components,
   * let `..` cancel the previous kept component, keep a `..` that cannot
   * cancel anything in a relative path and drop it in a rooted one.
   */
  function Resolve(kept: seq<string>, comps: seq<string>, rooted: bool): seq<string>
    decreases |comps|
  {
    if comps == [] then kept
    else
      var c := comps[0];
      var kept' :=
        if c == "" || c == "." then kept
        else if c != ".." || (!rooted && kept == []) || (kept != [] && kept[|kept| - 1] == "..") then kept + [c]
        else if kept != [] then kept[..|kept| - 1]
        else kept;
      Resolve(kept', comps[1..], rooted)
  }

  /** `os.path.normpath(p)` for POSIX paths. */
  function NormPath(p: string): (r: string)
    ensures r != []
  {
    if p == [] then "."
    else
      var n := RootSlashes(p);
      var r := RootPrefix(n) + Join(Resolve([], Split(p), n > 0));
      if r == [] then "." else r
  }

  /** A component that normalisation keeps as it is. */
  predicate Segment(c: string)
  {
    c != "" && c != "." && '/' !in c
  }

  /** A normalised component list: only segments, and `..` only as the leading run of a relative path. */
  predicate Normalised(cs: seq<string>, rooted: bool)
  {
    forall k :: 0 <= k < |cs| ==>
      Segment(cs[k]) && (cs[k] == ".." ==> !rooted && forall j :: 0 <= j < k ==> cs[j] == "..")
  }

  lemma {:induction false} ResolveNormalises(kept: seq<string>, comps: seq<string>, rooted: bool)
    requires Normalised(kept, rooted)
    requires forall k :: 0 <= k < |comps| ==> '/' !in comps[k]
    ensures Normalised(Resolve(kept, comps, rooted), rooted)
    decreases |comps|
  {
    if comps != [] {
      var c := comps[0];
      var kept' :=
        if c == "" || c == "." then kept
        else if c != ".." || (!rooted && kept == []) || (kept != [] && kept[|kept| - 1] == "..") then kept + [c]
        else if kept != [] then kept[..|kept| - 1]
        else kept;
      assert Normalised(kept', rooted) by {
        if c == ".." && kept != [] && kept[|kept| - 1] == ".." {
          assert forall j :: 0 <= j < |kept| ==> kept[j] == "..";
        }
      }
      ResolveNormalises(kept', comps[1..], rooted);
    }
  }

  lemma {:induction false} ResolveOfNormalised(kept: seq<string>, cs: seq<string>, rooted: bool)
    requires Normalised(kept + cs, rooted)
    ensures Resolve(kept, cs, rooted) == kept + cs
    decreases |cs|
  {
    if cs != [] {
      var c := cs[0];
      assert (kept + cs)[|kept|] == c;
      if c == ".." && kept != [] {
        assert (kept + cs)[|kept| - 1] == kept[|kept| - 1];
      }
      assert (kept + [c]) + cs[1..] == kept + cs;
      ResolveOfNormalised(kept + [c], cs[1..], rooted);
    } else {
      assert kept + cs == kept;
    }
  }

  lemma JoinStartsWithSegment(cs: seq<string>)
    requires cs != [] && Segment(cs[0])
    ensures Join(cs) != [] && Join(cs)[0] == cs[0][0]
  {
  }

  /** The components of `prefix + Join(cs)` are, after the empty ones the root contributes, `cs`. */
  lemma ResolveAfterRoot(n: nat, cs: seq<string>, rooted: bool)
    requires n <= 2 && rooted == (n > 0)
    requires Normalised(cs, rooted)
    ensures Resolve([], Split(RootPrefix(n) + Join(cs)), rooted) == cs
  {
    var j := Join(cs);
    if cs != [] {
      SplitInvertsJoin(cs);
    }
    var comps := Split(j);
    assert Resolve([], comps, rooted) == cs by {
      if cs == [] {
        assert comps == [""];
      } else {
        ResolveOfNormalised([], cs, rooted);
        assert [] + cs == cs;
      }
    }
    if n == 1 {
      SplitAfterSlash(j);
    } else if n == 2 {
      SplitAfterSlash(j);
      SplitAfterSlash("/" + j);
      assert "//" + j == "/" + ("/" + j);
    } else {
      assert "" + j == j;
    }
  }

  /** `normpath` keeps the root of a path it has already normalised. */
  lemma RootSlashesOfNormalised(n: nat, cs: seq<string>)
    requires n <= 2
    requires Normalised(cs, n > 0)
    ensures RootSlashes(RootPrefix(n) + Join(cs)) == n
  {
    var p := RootPrefix(n) + Join(cs);
    if cs != [] {
      JoinStartsWithSegment(cs);
      assert p[n] == cs[0][0];
    } else {
      assert p == RootPrefix(n);
    }
    if n == 0 && cs != [] {
      assert p[0] != '/';
    }
    if n == 1 && cs != [] {
      assert p[..2] != "//";
    }
    if n == 2 && |p| >= 3 {
      assert p[..3] != "///";
    }
  }

  lemma DotSplit()
    ensures Split(".") == ["."]
  {
    var s := ".";
    assert s[0] == '.' && s[1..] == "";
    assert Split(s[1..]) == [""];
    assert [s[0]] + "" == s;
    assert Split(s) == [[s[0]] + Split(s[1..])[0]] + Split(s[1..])[1..];
  }

  /** Normalising a normalised path changes nothing. */
  lemma NormPathIdempotent(p: string)
    ensures NormPath(NormPath(p)) == NormPath(p)
  {
    if p != [] {
      var n := RootSlashes(p);
      var cs := Resolve([], Split(p), n > 0);
      ResolveNormalises([], Split(p), n > 0);
      var r := RootPrefix(n) + Join(cs);
      if r == [] {
        assert NormPath(p) == ".";
        DotSplit();
      } else {
        assert NormPath(p) == r;
        RootSlashesOfNormalised(n, cs);
        ResolveAfterRoot(n, cs, n > 0);
      }
    } else {
      DotSplit();
    }
  }

  /** An absolute path made of ordinary directory names is already normal. */
  lemma NormPathOfPlainPath(cs: seq<string>)
    requires forall k :: 0 <= k < |cs| ==> Segment(cs[k]) && cs[k] != ".."
    ensures NormPath("/" + Join(cs)) == "/" + Join(cs)
  {
    RootSlashesOfNormalised(1, cs);
    ResolveAfterRoot(1, cs, true);
  }

  lemma {:induction false} JoinEndsWithSegment(cs: seq<string>)
    requires cs != [] && Segment(cs[|cs| - 1])
    ensures Join(cs) != [] && Join(cs)[|Join(cs)| - 1] == cs[|cs| - 1][|cs[|cs| - 1]| - 1]
  {
    if |cs| > 1 {
      JoinEndsWithSegment(cs[1..]);
    }
  }

  /** A file name under an absolute path of segments splits back into the two. */
  lemma SplitOfPlainPath(cs: seq<string>, name: string)
    requires cs != [] && Segment(cs[|cs| - 1])
    requires '/' !in name
    ensures DirName("/" + Join(cs) + "/" + name) == "/" + Join(cs)
    ensures BaseName("/" + Join(cs) + "/" + name) == name
  {
    JoinEndsWithSegment(cs);
    BaseAndDirOfJoin("/" + Join(cs), name);
  }

  /** `os.path.join(a, b)` for POSIX paths: an absolute `b` replaces `a`; otherwise one `/` separates them. */
  function PathJoin(a: string, b: string): string
  {
    if StartsWith(b, "/") then b
    else if a == [] || EndsWith(a, "/") then a + b
    else a + "/" + b
  }

  /** Joining a name without `/` onto any folder gives a path whose base name is that name, under that folder. */
  lemma PathJoinOfName(a: string, name: string)
    requires '/' !in name
    ensures BaseName(PathJoin(a, name)) == name
    ensures EndsWith(PathJoin(a, name), name)
    ensures StartsWith(PathJoin(a, name), a)
  {
    var r := PathJoin(a, name);
    assert !StartsWith(name, "/") by {
      if name != [] {
        assert name[0] in name;
      }
    }
    if a == [] {
      assert SplitIndex(name) == 0;
    } else if EndsWith(a, "/") {
      var d := a[..|a| - 1];
      assert a == d + "/";
      SplitIndexAfterSlash(d, name);
    } else {
      SplitIndexAfterSlash(a, name);
    }
    assert r[|r| - |name|..] == name;
    assert r[..|a|] == a;
  }
}

/**
 * What both monitors share in `on_modified`: the file-modified event they
 * receive, and the excluded-folder test they run first. The event's
 * directory and each excluded folder are normalised and lowercased, and the
 * event is ignored when the directory starts with or contains the folder.
 */
module Exclusion {
  import opened Strings
  import opened Paths

  /** A file-system modification event: the path it is about and whether that is a directory. */
  datatype Event = Event(srcPath: string, isDirectory: bool)

  /** The form in which both sides of the folder test are compared. */
  function Canonical(p: string): string
  {
    Lower(NormPath(p))
  }

  /** The per-folder test as written: a prefix match or a containment match. */
  predicate FolderRuleHits(dir: string, folder: string)
  {
    StartsWith(dir, folder) || Contains(dir, folder)
  }

  /** The prefix disjunct adds nothing: the test is exactly containment. */
  lemma FolderRuleIsContainment(dir: string, folder: string)
    ensures FolderRuleHits(dir, folder) <==> Contains(dir, folder)
  {
    if StartsWith(dir, folder) {
      PrefixContained(dir, folder);
    }
  }

  /** Some excluded folder, in canonical form, occurs in the canonical form of `dir`. */
  predicate InExcludedFolder(dir: string, folders: seq<string>)
  {
    exists k :: 0 <= k < |folders| && Contains(Canonical(dir), Canonical(folders[k]))
  }

  /**
   * The loop over the excluded folders, returning as soon as one matches:
   * it reports a hit exactly when the directory lies in an excluded folder.
   */
  method ScanFolders(dir: string, folders: seq<string>) returns (hit: bool)
    ensures hit <==> InExcludedFolder(dir, folders)
  {
    var d := Canonical(dir);
    for i := 0 to |folders|
      invariant forall k :: 0 <= k < i ==> !Contains(d, Canonical(folders[k]))
    {
      var f := Canonical(folders[i]);
      if FolderRuleHits(d, f) {
        HitExcludes(dir, folders, i);
        return true;
      }
      assert !Contains(d, f);
    }
    NoHitExcludes(dir, folders);
    return false;
  }

  lemma HitExcludes(dir: string, folders: seq<string>, i: nat)
    requires i < |folders| && FolderRuleHits(Canonical(dir), Canonical(folders[i]))
    ensures InExcludedFolder(dir, folders)
  {
    FolderRuleIsContainment(Canonical(dir), Canonical(folders[i]));
  }

  lemma NoHitExcludes(dir: string, folders: seq<string>)
    requires forall k :: 0 <= k < |folders| ==> !Contains(Canonical(dir), Canonical(folders[k]))
    ensures !InExcludedFolder(dir, folders)
  {
  }

  /** Joining two non-empty lists puts one slash between their joins. */
  lemma {:induction false} JoinAppend(a: seq<string>, b: seq<string>)
    requires a != [] && b != []
    ensures Join(a + b) == Join(a) + "/" + Join(b)
    decreases |a|
  {
    if |a| == 1 {
      assert (a + b)[1..] == b;
    } else {
      assert (a + b)[1..] == a[1..] + b;
      JoinAppend(a[1..], b);
    }
  }

  lemma ContainsInLonger(a: string, s: string, b: string, sub: string)
    requires Contains(s, sub)
    ensures Contains(a + s + b, sub)
  {
    SliceContained(a, s, b);
    ContainsTransitive(a + s + b, s, sub);
  }

  /** The join of a path is the join of any run of it with something on either side. */
  lemma JoinAround(pre: seq<string>, run: seq<string>, post: seq<string>) returns (a: string, b: string)
    requires run != []
    ensures Join(pre + run + post) == a + Join(run) + b
  {
    var j := Join(run);
    if pre == [] && post == [] {
      assert pre + run + post == run;
      a, b := [], [];
    } else if pre == [] {
      assert pre + run + post == run + post;
      JoinAppend(run, post);
      a, b := [], "/" + Join(post);
    } else if post == [] {
      assert pre + run + post == pre + run;
      JoinAppend(pre, run);
      a, b := Join(pre) + "/", [];
    } else {
      assert pre + run + post == pre + (run + post);
      JoinAppend(pre, run + post);
      JoinAppend(run, post);
      a, b := Join(pre) + "/", "/" + Join(post);
    }
  }

  /** A run of consecutive folder names, joined, occurs in the join of the whole path. */
  lemma JoinContainsRun(pre: seq<string>, run: seq<string>, post: seq<string>)
    requires run != []
    ensures Contains(Join(pre + run + post), Join(run))
  {
    var a, b := JoinAround(pre, run, post);
    SliceContained(a, Join(run), b);
  }

  /** Lowercasing keeps containment. */
  lemma LowerKeepsContains(s: string, sub: string)
    requires Contains(s, sub)
    ensures Contains(Lower(s), Lower(sub))
  {
    var i :| 0 <= i <= |s| && StartsWith(s[i..], sub);
    assert s[i..i + |sub|] == sub;
    assert Lower(s)[i..i + |sub|] == Lower(sub);
    ContainsAt(Lower(s), Lower(sub), i);
  }

  /** A path component that is an ordinary directory name. */
  predicate DirectoryName(c: string)
  {
    Segment(c) && c != ".."
  }

  /**
   * A directory is excluded when a run of its folders, at any depth and in
   * any case, is spelt like an excluded folder.
   */
  lemma ExcludedAtAnyDepth(pre: seq<string>, run: seq<string>, post: seq<string>, folders: seq<string>, k: nat)
    requires forall j :: 0 <= j < |pre + run + post| ==> DirectoryName((pre + run + post)[j])
    requires run != [] && k < |folders|
    requires Lower(Join(run)) == Canonical(folders[k])
    ensures InExcludedFolder("/" + Join(pre + run + post), folders)
  {
    var cs := pre + run + post;
    var dir := "/" + Join(cs);
    NormPathOfPlainPath(cs);
    JoinContainsRun(pre, run, post);
    ContainsInLonger("/", Join(cs), [], Join(run));
    assert "/" + Join(cs) + [] == dir;
    LowerKeepsContains(dir, Join(run));
    assert Contains(Canonical(dir), Canonical(folders[k]));
  }

  /** Containment is transitive. */
  lemma ContainsTransitive(s: string, t: string, u: string)
    requires Contains(s, t) && Contains(t, u)
    ensures Contains(s, u)
  {
    var i :| 0 <= i <= |s| && StartsWith(s[i..], t);
    var j :| 0 <= j <= |t| && StartsWith(t[j..], u);
    assert s[i..i + |t|] == s[i..][..|t|] == t;
    assert t[j..j + |u|] == t[j..][..|u|] == u;
    assert s[i + j..i + j + |u|] == t[j..j + |u|];
    ContainsAt(s, u, i + j);
  }

  /** A relative path of lower-case ordinary directory names is its own canonical form. */
  lemma CanonicalOfPlainRelative(cs: seq<string>)
    requires cs != []
    requires forall j :: 0 <= j < |cs| ==> DirectoryName(cs[j])
    requires Lower(Join(cs)) == Join(cs)
    ensures Canonical(Join(cs)) == Join(cs)
  {
    JoinStartsWithSegment(cs);
    RootSlashesOfNormalised(0, cs);
    ResolveAfterRoot(0, cs, false);
    assert RootPrefix(0) + Join(cs) == Join(cs);
  }

  /** A lower-case ordinary folder name is its own canonical form. */
  lemma CanonicalOfPlainName(f: string)
    requires DirectoryName(f) && Lower(f) == f
    ensures Canonical(f) == f
  {
    CanonicalOfPlainRelative([f]);
    assert Join([f]) == f;
  }

  /** A lower-case absolute path of ordinary folder names is its own canonical form. */
  lemma CanonicalOfPlainAbsolute(cs: seq<string>)
    requires forall j :: 0 <= j < |cs| ==> DirectoryName(cs[j])
    requires Lower("/" + Join(cs)) == "/" + Join(cs)
    ensures Canonical("/" + Join(cs)) == "/" + Join(cs)
  {
    NormPathOfPlainPath(cs);
  }
}

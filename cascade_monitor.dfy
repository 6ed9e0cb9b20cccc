/**
 * The fixed-configuration monitor: a `FileChangeHandler` whose exclusion
 * lists and 60-second threshold are module constants, whose excluded file
 * names match anywhere inside a base name, and whose sound lookup falls back
 * to `jobs-done`.
 */
module CascadeMonitor {
  import opened Strings
  import opened Paths
  import opened Exclusion
  import opened Debounce
  import VibeMonitor

  /** Seconds of quiet after the last accepted change before the sound plays. */
  const Delay := 60

  const ExcludedFiles: seq<string> := [
    "debug.log",
    "wc-image-regeneration-2025-03-11-2d23918eaa6bf399fc1a4734d3e73c71.log"
  ]

  /** Folder rules, compared normalised and lower-cased. */
  const ExcludedFolders: seq<string> := [
    "wp-content/uploads",
    "wp-content/debug-logs",
    "wp-content/uploads/betheme/css",
    "wp-content/plugins/admin-columns-pro",
    "wp-content/plugins/autologin-links",
    "wp-content/plugins/svg-support",
    "wp-content/plugins/aryo-activity-log"
  ]

  // ---------------------------------------------------------------- file names

  /**
   * `any(excluded in name for excluded in excluded_files)`: some excluded
   * entry occurs somewhere inside the name.
   */
  function AnyContained(name: string, excluded: seq<string>): (r: bool)
    ensures r <==> exists k :: 0 <= k < |excluded| && Contains(name, excluded[k])
    decreases |excluded|
  {
    if excluded == [] then false
    else
      var rest := AnyContained(name, excluded[1..]);
      assert rest <==> exists k :: 1 <= k < |excluded| && Contains(name, excluded[k]) by {
        if rest {
          var j :| 0 <= j < |excluded[1..]| && Contains(name, excluded[1..][j]);
          assert excluded[j + 1] == excluded[1..][j];
        }
        if exists k :: 1 <= k < |excluded| && Contains(name, excluded[k]) {
          var k :| 1 <= k < |excluded| && Contains(name, excluded[k]);
          assert excluded[1..][k - 1] == excluded[k];
        }
      }
      Contains(name, excluded[0]) || rest
  }

  /** Whether the handler ignores the event. */
  predicate Ignored(event: Event)
  {
    event.isDirectory
    || InExcludedFolder(DirName(event.srcPath), ExcludedFolders)
    || AnyContained(BaseName(event.srcPath), ExcludedFiles)
  }

  // The example lemmas below take their strings as parameters fixed by a
  // `requires x == "..."`, and split each literal fact into a small helper:
  // a string literal in the verifier's context makes it unfold `Split`,
  // `Join` and `NormPath` on the literal, which is very costly.

  /** Rotated and prefixed copies of `debug.log` are ignored too, since the test is containment. */
  lemma DebugLogVariantsIgnored(rotated: string, prefixed: string)
    requires rotated == "debug.log.1" && prefixed == "old-debug.log"
    ensures AnyContained(rotated, ExcludedFiles)
    ensures AnyContained(prefixed, ExcludedFiles)
  {
    var f := ExcludedFiles[0];
    DebugLogSpelling(rotated, prefixed, f);
    ContainsAt(rotated, f, 0);
    ContainsAt(prefixed, f, 4);
  }

  lemma DebugLogSpelling(rotated: string, prefixed: string, f: string)
    requires rotated == "debug.log.1" && prefixed == "old-debug.log" && f == "debug.log"
    ensures |f| == 9 && rotated[0..9] == f && prefixed[4..13] == f
  {
  }

  /**
   * The two monitors' file policies differ: the rule `debug.log` ignores
   * `debug.log.1` here, but the configurable monitor, which compares whole
   * names, accepts it.
   */
  lemma PoliciesDiffer(rule: string, name: string)
    requires rule == "debug.log" && name == "debug.log.1"
    ensures AnyContained(name, [rule])
    ensures !VibeMonitor.FileExcluded(name, [rule])
  {
    ContainsAt(name, rule, 0);
    assert rule[0] != '*';
    assert |rule| != |name|;
    assert !VibeMonitor.PatternHits([rule][0], name);
  }

  /** A directory event is ignored. */
  lemma DirectoryEventIgnored(path: string)
    ensures Ignored(Event(path, true))
  {
  }

  /**
   * A directory of plain folder names is excluded when it holds a run of
   * folders that reads `wp-content/uploads` in any letter case, whatever
   * folders come before or after it.
   */
  lemma UploadsAtAnyDepth(pre: seq<string>, run: seq<string>, post: seq<string>)
    requires forall j :: 0 <= j < |pre + run + post| ==> DirectoryName((pre + run + post)[j])
    requires run != [] && Lower(Join(run)) == "wp-content/uploads"
    ensures InExcludedFolder("/" + Join(pre + run + post), ExcludedFolders)
  {
    var f := ExcludedFolders[0];
    assert f == "wp-content/uploads";
    UploadsCanonical(f);
    ExcludedAtAnyDepth(pre, run, post, ExcludedFolders, 0);
  }

  /** Example: `/site/wp-content/uploads/2024/img.png` is ignored. */
  lemma UploadsEventIgnored(path: string)
    requires path == "/site/wp-content/uploads/2024/img.png"
    ensures Ignored(Event(path, false))
  {
    var cs := ["site", "wp-content", "uploads", "2024"];
    UploadsJoin(cs);
    UploadsNames(cs);
    UploadsPath(path, Join(cs));
    SplitOfPlainPath(cs, "img.png");
    UploadsCanonical("wp-content/uploads");
    UploadsAtAnyDepth([cs[0]], cs[1..3], cs[3..]);
  }

  lemma UploadsPath(path: string, dir: string)
    requires path == "/site/wp-content/uploads/2024/img.png" && dir == "site/wp-content/uploads/2024"
    ensures path == "/" + dir + "/" + "img.png"
    ensures '/' !in "img.png"
  {
  }

  lemma UploadsJoin(cs: seq<string>)
    requires cs == ["site", "wp-content", "uploads", "2024"]
    ensures Join(cs) == "site/wp-content/uploads/2024"
    ensures Join(cs[1..3]) == "wp-content/uploads"
  {
    JoinOfFour(cs);
    UploadsSpelling(cs[0], cs[1], cs[2], cs[3]);
  }

  lemma JoinOfFour(cs: seq<string>)
    requires |cs| == 4
    ensures Join(cs) == cs[0] + "/" + cs[1] + "/" + cs[2] + "/" + cs[3]
    ensures Join(cs[1..3]) == cs[1] + "/" + cs[2]
  {
    assert cs[2..][1..] == cs[3..] && Join(cs[3..]) == cs[3];
    assert cs[1..][1..] == cs[2..] && Join(cs[2..]) == cs[2] + "/" + cs[3];
    assert Join(cs[1..]) == cs[1] + "/" + (cs[2] + "/" + cs[3]);
    assert cs[1..3][1..] == [cs[2]];
  }

  lemma UploadsSpelling(a: string, b: string, c: string, d: string)
    requires a == "site" && b == "wp-content" && c == "uploads" && d == "2024"
    ensures a + "/" + b + "/" + c + "/" + d == "site/wp-content/uploads/2024"
    ensures b + "/" + c == "wp-content/uploads"
  {
  }

  lemma UploadsNames(cs: seq<string>)
    requires cs == ["site", "wp-content", "uploads", "2024"]
    ensures forall j :: 0 <= j < |cs| ==> DirectoryName(cs[j])
    ensures cs == [cs[0]] + cs[1..3] + cs[3..]
  {
  }

  lemma UploadsCanonical(f: string)
    requires f == "wp-content/uploads"
    ensures Canonical(f) == f && Lower(f) == f
  {
    var cs := ["wp-content", "uploads"];
    assert Join(cs[1..]) == "uploads";
    assert Join(cs) == f;
    assert DirectoryName(cs[0]) && DirectoryName(cs[1]);
    assert Lower(f) == f;
    CanonicalOfPlainRelative(cs);
  }

  // ---------------------------------------------------------------- sounds

  /** The sound table: `<scriptDir>/sounds/<key>.mp3` for the three known keys. */
  function SoundFiles(scriptDir: string): map<string, string>
  {
    map[
      "jobs-done" := PathJoin(PathJoin(scriptDir, "sounds"), "jobs-done.mp3"),
      "dolphin" := PathJoin(PathJoin(scriptDir, "sounds"), "dolphin.mp3"),
      "wow" := PathJoin(PathJoin(scriptDir, "sounds"), "wow.mp3")
    ]
  }

  /** The lookup in `play_system_sound`: the key's own file, or the `jobs-done` file for an unknown key. */
  function SoundFile(scriptDir: string, key: string): string
  {
    var table := SoundFiles(scriptDir);
    if key in table then table[key] else table["jobs-done"]
  }

  /**
   * Every key finds a file in the `sounds` folder: a known key its own
   * `<key>.mp3`, any other key `jobs-done.mp3`.
   */
  lemma SoundFileSpec(scriptDir: string, key: string)
    ensures SoundFile(scriptDir, key) in SoundFiles(scriptDir).Values
    ensures key in {"jobs-done", "dolphin", "wow"} ==>
      BaseName(SoundFile(scriptDir, key)) == key + ".mp3"
    ensures key !in {"jobs-done", "dolphin", "wow"} ==>
      BaseName(SoundFile(scriptDir, key)) == "jobs-done.mp3"
    ensures StartsWith(SoundFile(scriptDir, key), PathJoin(scriptDir, "sounds"))
  {
    var dir := PathJoin(scriptDir, "sounds");
    var name := SoundFileName(scriptDir, key);
    SoundFileInTable(scriptDir, key);
    PathJoinOfName(dir, name);
  }

  /** The lookup as a join of the `sounds` folder and a file name without `/`. */
  lemma SoundFileName(scriptDir: string, key: string) returns (name: string)
    ensures name == if key in {"jobs-done", "dolphin", "wow"} then key + ".mp3" else "jobs-done.mp3"
    ensures '/' !in name
    ensures SoundFile(scriptDir, key) == PathJoin(PathJoin(scriptDir, "sounds"), name)
  {
    var table := SoundFiles(scriptDir);
    var dir := PathJoin(scriptDir, "sounds");
    if key == "dolphin" || key == "wow" {
      name := key + ".mp3";
      assert table[key] == PathJoin(dir, name);
    } else {
      name := "jobs-done.mp3";
      assert key !in table || key == "jobs-done";
      assert table["jobs-done"] == PathJoin(dir, name);
    }
  }

  lemma SoundFileInTable(scriptDir: string, key: string)
    ensures SoundFile(scriptDir, key) in SoundFiles(scriptDir).Values
  {
    var table := SoundFiles(scriptDir);
    if key in table {
      assert table[key] in table.Values;
    } else {
      assert "jobs-done" in table;
      assert table["jobs-done"] in table.Values;
    }
  }

  // ---------------------------------------------------------------- the handler

  class FileChangeHandler {
    var lastChange: int
    var hasAlerted: bool
    const soundKey: string

    /** The sound keys played so far, in order, in place of playing them. */
    ghost var fired: seq<string>
    /** How many sounds had been played at the last accepted change (or construction). */
    ghost var firedAtChange: nat
    /** The construction time. */
    ghost var createdAt: int
    /** The accepted changes and completion checks so far, in order. */
    ghost var history: seq<Step>

    /**
     * The fields are the latch reached by running the history from the start
     * state with the fixed threshold, one sound was played per notification
     * that run fires, the latch is set exactly when one was played since the
     * last accepted change, and every sound played is the handler's own.
     */
    ghost predicate Valid()
      reads this
    {
      State() == Run(Start(createdAt), history, Delay)
      && |fired| == FireCount(Start(createdAt), history, Delay)
      && |fired| == firedAtChange + (if hasAlerted then 1 else 0)
      && forall k :: 0 <= k < |fired| ==> fired[k] == soundKey
    }

    function State(): Latch
      reads this
    {
      Latch(lastChange, hasAlerted)
    }

    /** `__init__`: `now` is the construction time. */
    constructor (soundKey: string, now: int)
      ensures Valid()
      ensures State() == Start(now) && fired == [] && history == []
      ensures this.soundKey == soundKey
    {
      this.lastChange := now;
      this.hasAlerted := false;
      this.soundKey := soundKey;
      this.fired := [];
      this.firedAtChange := 0;
      this.createdAt := now;
      this.history := [];
    }

    /**
     * `on_modified`: an ignored event changes nothing; an accepted one
     * restarts the timer at `now` and clears the latch.
     */
    method OnModified(event: Event, now: int)
      requires Valid()
      modifies this`lastChange, this`hasAlerted, this`firedAtChange, this`history
      ensures Valid()
      ensures fired == old(fired)
      ensures Ignored(event) ==> unchanged(this)
      ensures !Ignored(event) ==> State() == Touch(now) && history == old(history) + [Change(now)]
    {
      if !event.isDirectory {
        var fileName := BaseName(event.srcPath);
        var fileDir := DirName(event.srcPath);
        var inFolder := ScanFolders(fileDir, ExcludedFolders);
        if inFolder {
          return;
        }
        if AnyContained(fileName, ExcludedFiles) {
          return;
        }
        lastChange := now;
        hasAlerted := false;
        firedAtChange := |fired|;
        RunAppend(Start(createdAt), history, [Change(now)], Delay);
        history := history + [Change(now)];
      }
    }

    /**
     * `check_completion`: plays the sound exactly when the latch is clear and
     * `Delay` or more has passed since the last change, and then sets the
     * latch; the timer is never moved.
     */
    method CheckCompletion(now: int)
      requires Valid()
      modifies this`hasAlerted, this`fired, this`history
      ensures Valid()
      ensures State() == Check(old(State()), now, Delay)
      ensures fired == old(fired) + if Due(old(State()), now, Delay) then [soundKey] else []
      ensures history == old(history) + [Poll(now)]
    {
      RunAppend(Start(createdAt), history, [Poll(now)], Delay);
      history := history + [Poll(now)];
      var timeSinceLastChange := now - lastChange;
      if !hasAlerted && timeSinceLastChange >= Delay {
        fired := fired + [soundKey];
        hasAlerted := true;
      }
    }
  }
}

/**
 * The configurable monitor: a `FileChangeHandler` whose exclusion lists,
 * threshold and sound come from its caller or, failing that, from the loaded
 * configuration; excluded file patterns are either `*suffix` wildcards or
 * exact names. Also the filter applied to the lines of an override file and
 * the sound lookup with its fallback.
 */
module VibeMonitor {
  import opened Wrappers
  import opened Strings
  import opened Paths
  import opened Exclusion
  import opened Debounce

  /**
   * The configuration values the handler and the sound lookup read: the
   * default exclusion lists, the sound table as configured (relative paths
   * are resolved against the script's folder by `ResolvedSounds`), the
   * default sound and the default threshold.
   */
  datatype Config = Config(
    excludedFiles: seq<string>,
    excludedFolders: seq<string>,
    soundFiles: map<string, string>,
    defaultSound: string,
    defaultDelay: int)

  /** The built-in configuration, used when no configuration file is read. */
  const DefaultConfig := Config(
    ["debug.log", ".DS_Store", "Thumbs.db", "*.tmp", "*.temp", "*.swp", "*.lock"],
    ["node_modules", ".git", "__pycache__", "logs", "tmp", "temp", "cache", "dist", "build"],
    map["jobs-done" := "sounds/jobs-done.mp3", "dolphin" := "sounds/dolphin.mp3", "wow" := "sounds/wow.mp3"],
    "jobs-done",
    60)

  // ---------------------------------------------------------------- file patterns

  /** One excluded-file pattern against a file name: a `*suffix` wildcard, or exact equality. */
  predicate PatternHits(pattern: string, name: string)
  {
    (StartsWith(pattern, "*") && EndsWith(name, pattern[1..])) || pattern == name
  }

  predicate FileExcluded(name: string, patterns: seq<string>)
  {
    exists k :: 0 <= k < |patterns| && PatternHits(patterns[k], name)
  }

  /** A pattern `*s` ignores exactly the names that end in `s`. */
  lemma WildcardPattern(s: string, name: string)
    ensures PatternHits("*" + s, name) <==> EndsWith(name, s)
  {
    var p := "*" + s;
    assert StartsWith(p, "*") && p[1..] == s;
    if p == name {
      assert name[|name| - |s|..] == s;
    }
  }

  /** Any other pattern ignores only the name equal to it. */
  lemma ExactPattern(pattern: string, name: string)
    requires !StartsWith(pattern, "*")
    ensures PatternHits(pattern, name) <==> pattern == name
  {
  }

  // The example lemmas below take their strings as parameters fixed by a
  // `requires x == "..."`, and split each literal fact into a small helper:
  // a string literal in the verifier's context makes it unfold `Split`,
  // `Join` and `NormPath` on the literal, which is very costly.

  /** `*.tmp` ignores `scratch.tmp` but not `scratch.tmp.bak`. */
  lemma TmpPatternExamples(pattern: string, hit: string, miss: string)
    requires pattern == "*.tmp" && hit == "scratch.tmp" && miss == "scratch.tmp.bak"
    ensures PatternHits(pattern, hit)
    ensures !PatternHits(pattern, miss)
  {
    assert pattern == "*" + ".tmp";
    WildcardPattern(".tmp", hit);
    WildcardPattern(".tmp", miss);
    assert hit[|hit| - 4..] == ".tmp";
    assert miss[|miss| - 4..] == ".bak";
  }

  /** `debug.log` ignores `debug.log` but not `readme.md`. */
  lemma ExactPatternExamples(pattern: string, hit: string, miss: string)
    requires pattern == "debug.log" && hit == "debug.log" && miss == "readme.md"
    ensures PatternHits(pattern, hit)
    ensures !PatternHits(pattern, miss)
  {
    assert pattern[0] == 'd';
    assert !StartsWith(pattern, "*");
    assert pattern[0] != miss[0];
  }

  /** A lone `*` has the empty suffix, so it ignores every file. */
  lemma LoneStarIgnoresEverything(name: string)
    ensures PatternHits("*", name)
  {
    assert "*"[1..] == [];
    assert name[|name|..] == [];
  }

  /**
   * The loop over the excluded-file patterns, returning as soon as one
   * matches: it reports a hit exactly when some pattern ignores the name.
   */
  method ScanFilePatterns(name: string, patterns: seq<string>) returns (hit: bool)
    ensures hit <==> FileExcluded(name, patterns)
  {
    for i := 0 to |patterns|
      invariant forall k :: 0 <= k < i ==> !PatternHits(patterns[k], name)
    {
      var pattern := patterns[i];
      if StartsWith(pattern, "*") && EndsWith(name, pattern[1..]) {
        return true;
      } else if pattern == name {
        return true;
      }
    }
    return false;
  }

  /** Whether a handler with these lists ignores the event. */
  predicate Ignored(event: Event, files: seq<string>, folders: seq<string>)
  {
    event.isDirectory
    || InExcludedFolder(DirName(event.srcPath), folders)
    || FileExcluded(BaseName(event.srcPath), files)
  }

  /** A directory event is ignored whatever the lists say. */
  lemma DirectoryEventIgnored(path: string, files: seq<string>, folders: seq<string>)
    ensures Ignored(Event(path, true), files, folders)
  {
  }

  /**
   * A file under a folder spelt `Node_Modules` is ignored by any folder list
   * holding `node_modules`, the built-in one among them, whatever the file
   * list says.
   */
  lemma NodeModulesEventIgnored(path: string, files: seq<string>, folders: seq<string>)
    requires path == "/project/Node_Modules/foo.js" && "node_modules" in folders
    ensures Ignored(Event(path, false), files, folders)
  {
    var cs := ["project", "Node_Modules"];
    NodeModulesPath(path, cs);
    SplitOfPlainPath(cs, "foo.js");
    var k :| 0 <= k < |folders| && folders[k] == "node_modules";
    FolderRuleCanonical(folders[k]);
    assert cs == [cs[0]] + cs[1..] + [];
    ExcludedAtAnyDepth([cs[0]], cs[1..], [], folders, k);
  }

  lemma DefaultFoldersHoldNodeModules()
    ensures "node_modules" in DefaultConfig.excludedFolders
  {
    assert DefaultConfig.excludedFolders[0] == "node_modules";
  }

  lemma NodeModulesPath(path: string, cs: seq<string>)
    requires path == "/project/Node_Modules/foo.js" && cs == ["project", "Node_Modules"]
    ensures path == "/" + Join(cs) + "/" + "foo.js"
    ensures DirectoryName(cs[0]) && DirectoryName(cs[1]) && '/' !in "foo.js"
    ensures Lower(Join(cs[1..])) == "node_modules"
  {
    NodeModulesJoin(cs);
    NodeModulesSpelling(path, Join(cs), Join(cs[1..]));
  }

  lemma NodeModulesJoin(cs: seq<string>)
    requires cs == ["project", "Node_Modules"]
    ensures Join(cs[1..]) == "Node_Modules" && Join(cs) == "project/Node_Modules"
    ensures DirectoryName(cs[0]) && DirectoryName(cs[1])
  {
    assert Join(cs[1..]) == "Node_Modules";
  }

  lemma NodeModulesSpelling(path: string, dir: string, run: string)
    requires path == "/project/Node_Modules/foo.js" && dir == "project/Node_Modules" && run == "Node_Modules"
    ensures path == "/" + dir + "/" + "foo.js" && '/' !in "foo.js"
    ensures Lower(run) == "node_modules"
  {
  }

  /** `/project/src/app.js` is a change that counts, with the folder rule `node_modules`. */
  lemma SourceEventAccepted(path: string, files: seq<string>, folders: seq<string>)
    requires path == "/project/src/app.js"
    requires files == DefaultConfig.excludedFiles && folders == ["node_modules"]
    ensures !Ignored(Event(path, false), files, folders)
  {
    var cs := ["project", "src"];
    SourcePath(path, cs);
    SplitOfPlainPath(cs, "app.js");
    CanonicalOfPlainAbsolute(cs);
    FolderRuleCanonical(folders[0]);
    NotContainedWithoutFirst("/" + Join(cs), folders[0]);
    AppNotExcluded(BaseName(path), files);
  }

  lemma SourcePath(path: string, cs: seq<string>)
    requires path == "/project/src/app.js" && cs == ["project", "src"]
    ensures path == "/" + Join(cs) + "/" + "app.js"
    ensures DirectoryName(cs[0]) && DirectoryName(cs[1]) && '/' !in "app.js"
    ensures Lower("/" + Join(cs)) == "/" + Join(cs)
    ensures forall k :: 0 <= k < |"/" + Join(cs)| ==> ("/" + Join(cs))[k] != 'n'
  {
    assert Join(cs[1..]) == "src";
  }

  /**
   * The folder rule is containment in the whole directory path, so the
   * rule `temp` also ignores every file in a folder named `templates`, at
   * any depth below a directory of plain folder names.
   */
  lemma TemplatesAtAnyDepth(pre: seq<string>, post: seq<string>, name: string, files: seq<string>, folders: seq<string>)
    requires forall j :: 0 <= j < |pre + ["templates"] + post| ==> DirectoryName((pre + ["templates"] + post)[j])
    requires '/' !in name && "temp" in folders
    ensures Ignored(Event("/" + Join(pre + ["templates"] + post) + "/" + name, false), files, folders)
  {
    var cs := pre + ["templates"] + post;
    var dir := "/" + Join(cs);
    SplitOfPlainPath(cs, name);
    NormPathOfPlainPath(cs);
    var t := ["templates"];
    TemplatesRun(t);
    JoinContainsRun(pre, t, post);
    ContainsInLonger("/", Join(cs), [], Join(t));
    assert "/" + Join(cs) + [] == dir;
    LowerKeepsContains(dir, Join(t));
    var k :| 0 <= k < |folders| && folders[k] == "temp";
    FolderRuleCanonical(folders[k]);
    TempInTemplates(Join(t), folders[k]);
    ContainsTransitive(Canonical(dir), Join(t), folders[k]);
  }

  lemma TemplatesRun(t: seq<string>)
    requires t == ["templates"]
    ensures Join(t) == "templates" && Lower(Join(t)) == Join(t)
  {
  }

  /** Example: `/project/templates/index.html` is ignored under the rule `temp`. */
  lemma TemplatesEventIgnored(path: string, files: seq<string>, folders: seq<string>)
    requires path == "/project/templates/index.html" && "temp" in folders
    ensures Ignored(Event(path, false), files, folders)
  {
    var cs := ["project", "templates"];
    TemplatesNames(cs);
    TemplatesPath(path, "/" + Join(cs));
    assert forall j :: 0 <= j < |cs| ==> DirectoryName(cs[j]) by {
      forall j | 0 <= j < |cs| ensures DirectoryName(cs[j]) {
        assert j == 0 || j == 1;
      }
    }
    TemplatesAtAnyDepth(cs[..1], [], "index.html", files, folders);
  }

  lemma TemplatesNames(cs: seq<string>)
    requires cs == ["project", "templates"]
    ensures DirectoryName(cs[0]) && DirectoryName(cs[1])
    ensures cs == cs[..1] + ["templates"] + []
    ensures Join(cs) == "project/templates"
  {
    assert Join(cs[1..]) == "templates";
  }

  lemma TemplatesPath(path: string, dir: string)
    requires path == "/project/templates/index.html" && dir == "/project/templates"
    ensures path == dir + "/" + "index.html"
    ensures '/' !in "index.html"
  {
  }

  lemma TempInTemplates(dir: string, f: string)
    requires dir == "templates" && f == "temp"
    ensures Contains(dir, f)
  {
    assert dir[0..4] == f;
    ContainsAt(dir, f, 0);
  }

  lemma FolderRuleCanonical(f: string)
    requires f == "node_modules" || f == "temp"
    ensures Canonical(f) == f
  {
    assert DirectoryName(f);
    assert Lower(f) == f;
    CanonicalOfPlainName(f);
  }

  lemma AppNotExcluded(name: string, files: seq<string>)
    requires name == "app.js" && files == DefaultConfig.excludedFiles
    ensures !FileExcluded(name, files)
  {
    forall k | 0 <= k < |files|
      ensures !PatternHits(files[k], name)
    {
      if k < 3 {
        assert |files[k]| != |name|;
      } else {
        var suffix := files[k][1..];
        assert k == 3 || k == 4 || k == 5 || k == 6;
        assert suffix[0] == '.' && 4 <= |suffix| <= 5;
        assert name[|name| - |suffix|..][0] != suffix[0];
      }
    }
  }

  // ---------------------------------------------------------------- construction

  /** Python's `given or fallback` for a list argument that may be `None`. */
  function OrDefault(given: Option<seq<string>>, fallback: seq<string>): seq<string>
  {
    if given.Some? && given.value != [] then given.value else fallback
  }

  /**
   * An absent or empty list falls back to the default, so passing an empty
   * list cannot switch exclusion off while the default is not empty; a
   * non-empty list is used as given.
   */
  lemma OrDefaultSpec(given: Option<seq<string>>, fallback: seq<string>)
    ensures given.Some? && given.value != [] ==> OrDefault(given, fallback) == given.value
    ensures given.None? || given.value == [] ==> OrDefault(given, fallback) == fallback
    ensures fallback != [] ==> OrDefault(given, fallback) != []
  {
  }

  // ---------------------------------------------------------------- the handler

  class FileChangeHandler {
    var lastChange: int
    var hasAlerted: bool
    const soundKey: string
    const excludedFiles: seq<string>
    const excludedFolders: seq<string>
    const delay: int

    /** The sound keys played so far, in order, in place of playing them. */
    ghost var fired: seq<string>
    /** How many sounds had been played at the last accepted change (or construction). */
    ghost var firedAtChange: nat
    /** The construction time. */
    ghost var createdAt: int
    /** The accepted changes and completion checks so far, in order. */
    ghost var history: seq<Step>

    /**
     * The fields are the latch reached by running the history from the start
     * state, and one sound was played per notification that run fires. The
     * latch is set exactly when a sound was played since the last accepted
     * change, and at most one was; every sound played is the handler's own.
     */
    ghost predicate Valid()
      reads this
    {
      State() == Run(Start(createdAt), history, delay)
      && |fired| == FireCount(Start(createdAt), history, delay)
      && |fired| == firedAtChange + (if hasAlerted then 1 else 0)
      && forall k :: 0 <= k < |fired| ==> fired[k] == soundKey
    }

    function State(): Latch
      reads this
    {
      Latch(lastChange, hasAlerted)
    }

    /**
     * `__init__`: `now` is the construction time; an absent `delay` is the
     * omitted argument, whose default is the configured default delay.
     */
    constructor (soundKey: string, excludedFiles: Option<seq<string>>, excludedFolders: Option<seq<string>>,
                 delay: Option<int>, config: Config, now: int)
      ensures Valid()
      ensures State() == Start(now) && fired == [] && history == []
      ensures this.soundKey == soundKey
      ensures this.delay == if delay.Some? then delay.value else config.defaultDelay
      ensures this.excludedFiles == OrDefault(excludedFiles, config.excludedFiles)
      ensures this.excludedFolders == OrDefault(excludedFolders, config.excludedFolders)
    {
      this.lastChange := now;
      this.hasAlerted := false;
      this.soundKey := soundKey;
      this.excludedFiles := OrDefault(excludedFiles, config.excludedFiles);
      this.excludedFolders := OrDefault(excludedFolders, config.excludedFolders);
      this.delay := if delay.Some? then delay.value else config.defaultDelay;
      this.fired := [];
      this.firedAtChange := 0;
      this.createdAt := now;
      this.history := [];
    }

    /**
     * `on_modified`: an ignored event changes nothing; an accepted one
     * restarts the timer at `now` and clears the latch.
     */
    method OnModified(event: Event, now: int)
      requires Valid()
      modifies this`lastChange, this`hasAlerted, this`firedAtChange, this`history
      ensures Valid()
      ensures fired == old(fired)
      ensures Ignored(event, excludedFiles, excludedFolders) ==> unchanged(this)
      ensures !Ignored(event, excludedFiles, excludedFolders) ==>
        State() == Touch(now) && history == old(history) + [Change(now)]
    {
      if !event.isDirectory {
        var fileName := BaseName(event.srcPath);
        var fileDir := DirName(event.srcPath);
        var inFolder := ScanFolders(fileDir, excludedFolders);
        if inFolder {
          return;
        }
        var matched := ScanFilePatterns(fileName, excludedFiles);
        if matched {
          return;
        }
        lastChange := now;
        hasAlerted := false;
        firedAtChange := |fired|;
        RunAppend(Start(createdAt), history, [Change(now)], delay);
        history := history + [Change(now)];
      }
    }

    /**
     * `check_completion`: plays the sound exactly when the latch is clear and
     * `delay` or more has passed since the last change, and then sets the
     * latch; the timer is never moved.
     */
    method CheckCompletion(now: int)
      requires Valid()
      modifies this`hasAlerted, this`fired, this`history
      ensures Valid()
      ensures State() == Check(old(State()), now, delay)
      ensures fired == old(fired) + if Due(old(State()), now, delay) then [soundKey] else []
      ensures history == old(history) + [Poll(now)]
    {
      RunAppend(Start(createdAt), history, [Poll(now)], delay);
      history := history + [Poll(now)];
      var timeSinceLastChange := now - lastChange;
      if !hasAlerted && timeSinceLastChange >= delay {
        fired := fired + [soundKey];
        hasAlerted := true;
      }
    }
  }

  // ---------------------------------------------------------------- override files and sounds

  /** Whether the override-file parser keeps a line. */
  predicate Kept(line: string)
  {
    Strip(line) != [] && !StartsWith(Strip(line), "#")
  }

  /**
   * An override file's lines as an exclusion list: the stripped form of each
   * line that is neither blank nor a `#` comment, in file order. Every entry
   * is non-empty, carries no surrounding whitespace and does not start
   * with `#`.
   */
  function ExclusionList(lines: seq<string>): (r: seq<string>)
    ensures |r| <= |lines|
    ensures forall k :: 0 <= k < |r| ==> r[k] != [] && r[k][0] != '#' && IsStripped(r[k])
  {
    if lines == [] then []
    else
      var rest := ExclusionList(lines[1..]);
      if Kept(lines[0]) then
        KeptEntry(lines[0]);
        [Strip(lines[0])] + rest
      else
        rest
  }

  /** A kept line contributes a non-empty stripped entry that does not start with `#`. */
  lemma KeptEntry(line: string)
    requires Kept(line)
    ensures Strip(line) != [] && Strip(line)[0] != '#' && IsStripped(Strip(line))
  {
    StripSpec(line);
  }

  /** The parser works line by line: the list for two files read one after the other is the two lists in order. */
  lemma {:induction false} ExclusionListAppend(a: seq<string>, b: seq<string>)
    ensures ExclusionList(a + b) == ExclusionList(a) + ExclusionList(b)
    decreases |a|
  {
    if a == [] {
      assert a + b == b;
    } else {
      assert (a + b)[0] == a[0];
      assert (a + b)[1..] == a[1..] + b;
      ExclusionListAppend(a[1..], b);
    }
  }

  /** Every line that is neither blank nor a comment contributes its stripped form, and nothing else appears. */
  lemma {:induction false} ExclusionListMembers(lines: seq<string>, x: string)
    ensures x in ExclusionList(lines) <==> exists i :: 0 <= i < |lines| && Kept(lines[i]) && Strip(lines[i]) == x
    decreases |lines|
  {
    if lines != [] {
      ExclusionListCons(lines, x);
      ExclusionListMembers(lines[1..], x);
      assert forall i :: 1 <= i < |lines| ==> lines[1..][i - 1] == lines[i];
    }
  }

  lemma ExclusionListCons(lines: seq<string>, x: string)
    requires lines != []
    ensures x in ExclusionList(lines) <==> (Kept(lines[0]) && Strip(lines[0]) == x) || x in ExclusionList(lines[1..])
  {
  }

  /** Blank lines and comment lines contribute nothing. */
  lemma SkippedLines(line: string)
    requires AllSpace(line) || StartsWith(Strip(line), "#")
    ensures ExclusionList([line]) == []
  {
    StripSpec(line);
  }

  /**
   * The sound file for a key: the key's own file when the table has it,
   * otherwise the default sound's file; nothing when neither is in the table.
   */
  function SoundFile(soundFiles: map<string, string>, key: string, defaultSound: string): Option<string>
  {
    if key in soundFiles then Some(soundFiles[key])
    else if defaultSound in soundFiles then Some(soundFiles[defaultSound])
    else None
  }

  lemma SoundFileSpec(soundFiles: map<string, string>, key: string, defaultSound: string)
    ensures key in soundFiles ==> SoundFile(soundFiles, key, defaultSound) == Some(soundFiles[key])
    ensures key !in soundFiles && defaultSound in soundFiles ==>
      SoundFile(soundFiles, key, defaultSound) == Some(soundFiles[defaultSound])
    ensures SoundFile(soundFiles, key, defaultSound).None? <==> key !in soundFiles && defaultSound !in soundFiles
    ensures SoundFile(soundFiles, key, defaultSound).Some? ==> SoundFile(soundFiles, key, defaultSound).value in soundFiles.Values
  {
  }

  /**
   * The table actually looked up: each configured path, made absolute by
   * joining it onto the script's folder unless it already starts with `/`
   * (POSIX `os.path.isabs`).
   */
  function ResolvedSounds(soundFiles: map<string, string>, scriptDir: string): map<string, string>
  {
    map name | name in soundFiles :: if StartsWith(soundFiles[name], "/") then soundFiles[name] else PathJoin(scriptDir, soundFiles[name])
  }

  /** Resolution keeps the keys, keeps absolute paths and joins relative ones onto the script's folder. */
  lemma ResolvedSoundsSpec(soundFiles: map<string, string>, scriptDir: string, name: string)
    ensures name in ResolvedSounds(soundFiles, scriptDir) <==> name in soundFiles
    ensures name in soundFiles && StartsWith(soundFiles[name], "/") ==>
      ResolvedSounds(soundFiles, scriptDir)[name] == soundFiles[name]
    ensures name in soundFiles && !StartsWith(soundFiles[name], "/") ==>
      ResolvedSounds(soundFiles, scriptDir)[name] == PathJoin(scriptDir, soundFiles[name])
    ensures name in soundFiles ==> EndsWith(ResolvedSounds(soundFiles, scriptDir)[name], soundFiles[name])
  {
    if name in soundFiles {
      var v := soundFiles[name];
      var r := PathJoin(scriptDir, v);
      if !StartsWith(v, "/") {
        assert r[|r| - |v|..] == v;
      } else {
        assert v[|v| - |v|..] == v;
      }
    }
  }

  /**
   * With the built-in configuration every key finds a file under the script's
   * folder: a known key its own, an unknown key `sounds/jobs-done.mp3`.
   */
  lemma DefaultSoundAlwaysFound(scriptDir: string, key: string)
    ensures SoundFile(ResolvedSounds(DefaultConfig.soundFiles, scriptDir), key, DefaultConfig.defaultSound).Some?
    ensures key in DefaultConfig.soundFiles ==>
      SoundFile(ResolvedSounds(DefaultConfig.soundFiles, scriptDir), key, DefaultConfig.defaultSound)
      == Some(PathJoin(scriptDir, DefaultConfig.soundFiles[key]))
    ensures key !in DefaultConfig.soundFiles ==>
      SoundFile(ResolvedSounds(DefaultConfig.soundFiles, scriptDir), key, DefaultConfig.defaultSound)
      == Some(PathJoin(scriptDir, "sounds/jobs-done.mp3"))
  {
    var table := DefaultConfig.soundFiles;
    assert "jobs-done" in table && table["jobs-done"] == "sounds/jobs-done.mp3";
    assert forall name :: name in table ==> !StartsWith(table[name], "/") by {
      forall name | name in table
        ensures !StartsWith(table[name], "/")
      {
        assert table[name][0] == 's';
      }
    }
  }
}

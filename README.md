# Activity monitors: the `FileChangeHandler` core

Two near-identical scripts watch a project folder. They play a sound once
file activity has stopped for a while: this is how they tell that a coding
assistant has finished its job. Each script has a `FileChangeHandler` with two
parts:

- An exclusion filter at the top of `on_modified`. It ignores directory
  events. It ignores files whose normalised, lower-cased directory contains an
  excluded folder. It ignores files whose base name matches an excluded file
  rule.
- A debounce latch, made of `last_change` and `has_alerted`. An accepted
  change restarts the timer and clears the latch. `check_completion` plays
  the sound once, when the latch is clear and `delay` seconds have passed, and
  then sets the latch.

The two scripts differ in their file rules:

- `vibe_monitor.py` reads its lists, threshold and sounds from a configuration
  or from override files. A file rule is either a `*suffix` wildcard or an
  exact name.
- `cascade_monitor.py` uses fixed lists and a fixed 60-second threshold. A
  file is ignored when a rule occurs anywhere inside its base name.

The modules are:

- `Strings`: `startswith`, `endswith` and `in`, ASCII `lower`, and `strip`.
  `strip` removes exactly the characters for which `str.isspace()` holds.
- `Paths`: POSIX `basename`, `dirname` and `join`. Also `normpath`, built from
  `split('/')` and `'/'.join`.
- `Exclusion`: the folder rule and its loop, which both scripts share.
- `Debounce`: the latch as a value. Also any sequence of changes and checks
  run over it.
- `VibeMonitor` and `CascadeMonitor`: each script's handler as a class, plus
  its file rule, its sound lookup and (for the first) the override-file filter.

Each handler class has the fields `lastChange` and `hasAlerted`, which its
methods update. It also has ghost state:

- `fired`: the sound keys played so far, which stand in for playing them;
- `history`: the changes and checks so far.

The predicate `Valid` ties the fields to running `history` through
`Debounce`, and ties `fired` to the number of notifications that run fires.
Every time is a whole number `now` passed in by the caller.

## Model

| member | source | states |
|---|---|---|
| `VibeMonitor.FileChangeHandler.constructor` | vibe_monitor.py:97-103 | The latch starts clear, with the timer at the construction time and nothing played. An absent or empty file or folder list is replaced by the configured default. The key is kept; an omitted delay takes the configured default delay, and a given one is kept. |
| `VibeMonitor.OrDefaultSpec` | vibe_monitor.py:101-102 | `x or default` on a list: a non-empty list is used as given. An absent or empty one gives the default, so a non-empty default can never be switched off. |
| `VibeMonitor.FileChangeHandler.OnModified` | vibe_monitor.py:105-128 | An ignored event (a directory, an excluded folder or an excluded file name) leaves the whole object unchanged. An accepted one sets the timer to `now`, clears the latch and records the change. Nothing is played either way, and `Valid` is kept. |
| `VibeMonitor.FileChangeHandler.CheckCompletion` | vibe_monitor.py:130-137 | Appends the handler's sound key to `fired` exactly when the latch is clear and `now - lastChange >= delay`. The new latch is `Check` of the old one: the timer never moves, and the latch ends set if it was set or the check fired. |
| `VibeMonitor.ScanFilePatterns` | vibe_monitor.py:119-124 | The early-return loop over the file rules reports a hit exactly when some rule ignores the base name. |
| `VibeMonitor.WildcardPattern` | vibe_monitor.py:121 | A rule `*s` ignores exactly the names that end in `s`. |
| `VibeMonitor.ExactPattern` | vibe_monitor.py:123 | A rule that does not start with `*` ignores only the name equal to it. |
| `VibeMonitor.TmpPatternExamples` | vibe_monitor.py:121 | `*.tmp` ignores `scratch.tmp` but not `scratch.tmp.bak`. |
| `VibeMonitor.ExactPatternExamples` | vibe_monitor.py:123 | `debug.log` ignores `debug.log` but not `readme.md`. |
| `VibeMonitor.LoneStarIgnoresEverything` | vibe_monitor.py:121 | The rule `*` has an empty suffix, so it ignores every file. |
| `VibeMonitor.DirectoryEventIgnored` | vibe_monitor.py:105-106 | A directory event is ignored, whatever the lists hold. |
| `VibeMonitor.NodeModulesEventIgnored` | vibe_monitor.py:111-116 | `/project/Node_Modules/foo.js` is ignored by any folder list holding `node_modules`, because both sides are lower-cased before comparing. |
| `VibeMonitor.DefaultFoldersHoldNodeModules` | vibe_monitor.py:37-38 | The built-in folder list holds `node_modules`. |
| `VibeMonitor.TemplatesAtAnyDepth` | vibe_monitor.py:111-116 | The folder test is containment in the whole directory path, so any folder list holding `temp` also ignores every file under a folder named `templates`, at any depth in an absolute path of plain folder names. |
| `VibeMonitor.TemplatesEventIgnored` | vibe_monitor.py:111-116 | Example: `/project/templates/index.html` is ignored by any folder list holding `temp`. |
| `VibeMonitor.SourceEventAccepted` | vibe_monitor.py:105-128 | `/project/src/app.js` passes both filters under the folder rule `node_modules` and the built-in file rules. |
| `VibeMonitor.ExclusionList` | vibe_monitor.py:170 | The exclusion list of an override file: each entry is non-empty, has no surrounding whitespace and does not start with `#`. There are no more entries than lines. |
| `VibeMonitor.ExclusionListMembers` | vibe_monitor.py:175 | A string is in the list exactly when some line, once stripped, is that string and is neither blank nor a comment. |
| `VibeMonitor.ExclusionListAppend` | vibe_monitor.py:170 | The filter works line by line and keeps file order: the list for `a + b` is the list for `a` followed by the list for `b`. |
| `VibeMonitor.SkippedLines` | vibe_monitor.py:170 | A blank line, or a line that starts with `#` after stripping, contributes nothing. |
| `VibeMonitor.SoundFileSpec` | vibe_monitor.py:141 | A known key gives its own file. An unknown key gives the default sound's file. The result is absent exactly when neither is in the table, and otherwise it is always one of the table's files. |
| `VibeMonitor.ResolvedSounds` | vibe_monitor.py:89-94 | Definition of the looked-up table: each configured path, joined onto the script's folder unless it starts with `/`. |
| `VibeMonitor.ResolvedSoundsSpec` | vibe_monitor.py:89-94 | Resolution keeps the keys, keeps absolute paths as they are and joins relative ones onto the script's folder; every resolved path ends in the configured one. |
| `VibeMonitor.DefaultSoundAlwaysFound` | vibe_monitor.py:141 | With the built-in table resolved against any script folder, every key finds a file. A known key finds its own path joined onto that folder, and an unknown key finds `sounds/jobs-done.mp3` joined onto it. |
| `CascadeMonitor.FileChangeHandler.constructor` | cascade_monitor.py:40-43 | The latch starts clear, with the timer at the construction time, nothing played and the key kept. |
| `CascadeMonitor.FileChangeHandler.OnModified` | cascade_monitor.py:45-63 | An ignored event leaves the object unchanged. An accepted one sets the timer to `now`, clears the latch and records the change. Nothing is played, and `Valid` is kept. |
| `CascadeMonitor.FileChangeHandler.CheckCompletion` | cascade_monitor.py:65-72 | Plays the key exactly when the latch is clear and 60 or more seconds have passed. The timer never moves, and the latch ends set if it was set or the check fired. |
| `CascadeMonitor.AnyContained` | cascade_monitor.py:58 | `any(e in name for e in rules)` holds exactly when some rule occurs inside the name. |
| `CascadeMonitor.DebugLogVariantsIgnored` | cascade_monitor.py:58-59 | `debug.log.1` and `old-debug.log` are ignored by the built-in rules. |
| `CascadeMonitor.PoliciesDiffer` | cascade_monitor.py:58 | The rule `debug.log` ignores `debug.log.1` here, while the configurable monitor's name comparison accepts it. |
| `CascadeMonitor.DirectoryEventIgnored` | cascade_monitor.py:45-46 | A directory event is ignored. |
| `CascadeMonitor.UploadsAtAnyDepth` | cascade_monitor.py:52-56 | A directory of plain folder names holding a run of folders that reads `wp-content/uploads` in any letter case is excluded, whatever folders come before or after the run. |
| `CascadeMonitor.UploadsEventIgnored` | cascade_monitor.py:52-56 | `/site/wp-content/uploads/2024/img.png` is ignored by the two-segment rule `wp-content/uploads`: folders before and after the matching run make no difference. |
| `CascadeMonitor.SoundFileSpec` | cascade_monitor.py:76 | A known key gets `<key>.mp3` and any other key gets `jobs-done.mp3`. Both lie under the script's `sounds` folder and are values of the table. |
| `Exclusion.FolderRuleIsContainment` | vibe_monitor.py:115 | "starts with or contains" is just "contains", since a prefix is a slice. The same guard appears at cascade_monitor.py:55. |
| `Exclusion.ScanFolders` | vibe_monitor.py:113-116 | The early-return loop over the folder rules reports a hit exactly when the canonical directory contains some canonical rule. The same loop appears at cascade_monitor.py:53-56. |
| `Exclusion.ExcludedAtAnyDepth` | vibe_monitor.py:112-116 | An absolute directory of plain folder names is excluded when some run of its folders, joined and lower-cased, is a rule's canonical form. Folders before and after the run make no difference. |
| `Paths.NormPathIdempotent` | vibe_monitor.py:112 | Normalising a normalised path changes nothing. |
| `Paths.NormPathOfPlainPath` | vibe_monitor.py:112 | An absolute path of plain folder names is already normal. |
| `Paths.BaseAndDirOfJoin` | vibe_monitor.py:107-109 | A name without a slash, placed under a directory that does not end in a slash, has `basename` equal to the name and `dirname` equal to the directory. |
| `Paths.BaseNameSpec` | vibe_monitor.py:108 | The path is its head followed by its base name. The base name holds no slash, and a non-empty head ends in one. |
| `Paths.PathJoinOfName` | cascade_monitor.py:34-36 | Joining a slash-free name onto a folder gives a path that starts with the folder and whose base name is that name. |
| `Strings.StripSpec` | vibe_monitor.py:170 | `strip` leaves no whitespace at either end, returns a slice of its input, and is empty exactly when the input is all whitespace. |
| `Strings.StripPadded` | vibe_monitor.py:170 | `strip` recovers the core of any whitespace-padded string, which with `StripSpec` fixes `strip` completely. |
| `Strings.StripIdempotent` | vibe_monitor.py:170 | Stripping twice is stripping once. |
| `Debounce.Check` | vibe_monitor.py:132-137 | A check never moves the timer. Afterwards the latch is set exactly when it was already set or `now - lastChange >= delay`. |
| `Debounce.CheckWhenAlerted` | vibe_monitor.py:134 | A check on a set latch fires nothing and changes nothing. |
| `Debounce.CheckFiresOnce` | vibe_monitor.py:134-137 | The state a firing check leaves cannot fire again, whenever the next check comes. |
| `Debounce.QuietPeriod` | cascade_monitor.py:65-72 | Over checks with no change between them, exactly one notification fires if the latch was clear and some check came `delay` or more after the last change, and none fires otherwise. The timer stays put. |
| `Debounce.AtMostOncePerQuietPeriod` | cascade_monitor.py:69-72 | Between two accepted changes at most one notification fires. |
| `Debounce.SilentOnceAlerted` | vibe_monitor.py:134-137 | Once alerted, any number of checks with no change between them fire nothing and leave the state as it was. |
| `Debounce.NothingBeforeThreshold` | cascade_monitor.py:69 | Checks that all come less than `delay` after the last change fire nothing. |
| `Debounce.FiresAgainAfterChange` | cascade_monitor.py:62-63 | After any history, an accepted change followed by a quiet period with a late enough check fires exactly one more notification. |
| `Debounce.LatchMeansFiredSinceChange` | vibe_monitor.py:127-137 | After an accepted change the latch is set exactly when a notification has fired since, and the count of notifications splits at the change. |
| `Debounce.RunAppend` | vibe_monitor.py:105-137 | Running two histories one after the other is running their concatenation, and their notifications add up. |
| `Debounce.ThresholdScenario` | cascade_monitor.py:13 | With a 60-second threshold, changes at 0, 10 and 20 and a check every second from 21: nothing fires before 80, the check at 80 fires, and no later check fires again. |
| `VibeMonitor.PatternHits` | vibe_monitor.py:121-124 | Definition: one file rule against a base name, a `*suffix` wildcard or else exact equality. |
| `VibeMonitor.FileExcluded` | vibe_monitor.py:119-124 | Definition: some file rule ignores the base name. |
| `VibeMonitor.Ignored` | vibe_monitor.py:105-124 | Definition: the event is a directory, its directory is in an excluded folder, or its base name is excluded. |
| `VibeMonitor.OrDefault` | vibe_monitor.py:101-102 | Definition of `x or default` on a list that may be absent. |
| `VibeMonitor.Kept` | vibe_monitor.py:170 | Definition of the comprehension's guard: the stripped line is non-empty and does not start with `#`. |
| `VibeMonitor.SoundFile` | vibe_monitor.py:141 | Definition of the nested `dict.get`: the key's file, else the default sound's file, else nothing. |
| `CascadeMonitor.Ignored` | cascade_monitor.py:45-59 | Definition: the event is a directory, its directory is in an excluded folder, or an excluded name occurs inside its base name. |
| `CascadeMonitor.SoundFiles` | cascade_monitor.py:33-37 | Definition of the sound table: `<scriptDir>/sounds/<key>.mp3` for the three keys. |
| `CascadeMonitor.SoundFile` | cascade_monitor.py:76 | Definition of the lookup with the `jobs-done` fallback. |
| `Exclusion.Canonical` | vibe_monitor.py:112-114 | Definition of `normpath(x).lower()`, applied to the directory and to each rule. |
| `Exclusion.InExcludedFolder` | vibe_monitor.py:113-116 | Definition: the canonical directory contains the canonical form of some rule. |
| `Paths.BaseName` | vibe_monitor.py:108 | Definition of POSIX `basename`: everything after the last `/`. |
| `Paths.DirName` | vibe_monitor.py:109 | Definition of POSIX `dirname`: everything before the last `/`, trailing slashes removed unless only slashes remain. |
| `Paths.NormPath` | vibe_monitor.py:112 | Definition of POSIX `normpath`: drops empty and `.` parts, resolves `..`, keeps one leading `/` (two for exactly two), and never returns the empty string. |
| `Paths.PathJoin` | cascade_monitor.py:34-36 | Definition of POSIX `join` of two parts: an absolute second part replaces the first, otherwise one `/` separates them. |
| `Strings.Strip` | vibe_monitor.py:170 | Definition of `str.strip()`: leading and trailing `isspace` characters removed. |
| `Strings.Lower` | vibe_monitor.py:112 | Definition of `str.lower()` on ASCII letters, character by character. |
| `Debounce.Start` | vibe_monitor.py:98-99 | Definition of the initial latch: clear, with the timer at the construction time. |
| `Debounce.Touch` | vibe_monitor.py:127-128 | Definition of an accepted change: the latch is back in its start state at `now`. |
| `Debounce.Run` | vibe_monitor.py:105-137 | Definition: the latch after a sequence of accepted changes and checks. |
| `Debounce.FireCount` | vibe_monitor.py:130-137 | Definition: the number of checks in a sequence that play the sound. |
| `Strings.StartsWith` | vibe_monitor.py:115 | Definition of `str.startswith`: the string's first characters are the prefix. |
| `Strings.EndsWith` | vibe_monitor.py:121 | Definition of `str.endswith`: the string's last characters are the suffix. |
| `Strings.Contains` | vibe_monitor.py:115 | Definition of `sub in s`: `sub` starts at some position of `s`. |
| `Strings.IsSpace` | vibe_monitor.py:170 | Definition of `str.isspace()` for one character: the code points Python counts as whitespace. |
| `Strings.LowerSpec` | vibe_monitor.py:112 | Lowercasing keeps the length, turns each ASCII upper-case letter into its lower-case letter (32 code points above), leaves no ASCII upper-case letter and changes no other character. |
| `Paths.SplitIndex` | vibe_monitor.py:108-109 | Definition of `rfind('/') + 1`; its contract says the character before it is `/` and none after it is. |
| `Paths.TrimSlashes` | vibe_monitor.py:109 | Definition of `rstrip('/')`, used by `dirname`; its contract says it removes only slashes and leaves none at the end. |
| `Paths.Split` | vibe_monitor.py:112 | Definition of `split('/')`, used by `normpath`; its contract says no piece holds a slash. |
| `Paths.Join` | vibe_monitor.py:112 | Definition of `'/'.join`, used by `normpath`. |
| `Exclusion.FolderRuleHits` | vibe_monitor.py:115 | Definition of the folder guard as written, `startswith(rule) or rule in dir`; the same guard appears at cascade_monitor.py:55. |
| `Debounce.Due` | vibe_monitor.py:134 | Definition of the firing test `not has_alerted and now - last_change >= delay`; the same test appears at cascade_monitor.py:69. |

## Configuration and events

The configuration values and the event, with the source lines they hold:

| declaration | source | holds |
|---|---|---|
| `VibeMonitor.Config` | vibe_monitor.py:83-86 | The values read from the configuration: default file and folder lists, the sound table, the default sound and the default delay. |
| `VibeMonitor.DefaultConfig` | vibe_monitor.py:27-58 | The built-in configuration: its seven file rules, nine folder rules, three sounds, default sound `jobs-done` and delay 60. |
| `CascadeMonitor.Delay` | cascade_monitor.py:13 | The fixed 60-second threshold. |
| `CascadeMonitor.ExcludedFiles` | cascade_monitor.py:16-19 | The two excluded file names. |
| `CascadeMonitor.ExcludedFolders` | cascade_monitor.py:22-30 | The seven excluded folders. |
| `Exclusion.Event` | vibe_monitor.py:105-107 | The watchdog event: its `src_path` and `is_directory`. |

## Left out

- The watchdog `Observer`, its `schedule`/`start`/`stop`/`join`, and the once-a-second poll loop. The model has events and checks as a sequence of method calls instead.
- Concurrency between the observer thread (`on_modified`) and the main loop (`check_completion`). Calls are treated as serialised.
- Sound playback through pygame or playsound, the volume setting, the busy-wait and the existence test on the sound file. A fired notification appends the sound key to the ghost sequence `fired`.
- Loading, writing and error handling of the JSON configuration, and reading override files from disk. The configuration is a `Config` value, and the override filter is applied to a given sequence of lines.
- Command-line parsing and `main`.
- Wall-clock time: `time.time()` is a float. `now` is an integer supplied by the caller.
- Computing `SCRIPT_DIR` from the script's own location. The script's folder is a parameter `scriptDir`.
- Log output.
- Windows path rules: separators, drive letters, and `\` in `normpath`. All paths are POSIX.
- `Strings.Lower`: lower-cases only ASCII letters. `str.lower` also folds non-ASCII letters.
- `Paths.NormPath`: follows POSIX `normpath`, including the special case of exactly two leading slashes. It works on the string alone, so nothing about symbolic links is modelled (the source does not resolve them either).
- `VibeMonitor.SoundFile`: returns `None` when neither the key nor the default sound is in the table. The source then hands `None` to `os.path.exists`, which raises an error outside its `try`; that crash is not modelled.

/**
 * Mapping paths under the configuration directory to buttons: the button
 * id a file or directory path belongs to, the button directories of a
 * listing, and the working directory of one button. Button `n` lives in a
 * directory directly below the configuration directory whose name starts
 * with the two digits of `n`.
 */
module ButtonPaths {

  import opened Wrappers
  import opened Text
  import opened Paths
  import opened Filesystem

  /**
   * The directory a path is attributed to: its parent when it is a file or
   * its last component contains a `.` (a file that may no longer exist),
   * otherwise the path itself.
   */
  function AttributedDir(fs: Fs, filePath: string): string
  {
    if IsFile(fs, filePath) || '.' in Basename(filePath) then Dirname(filePath) else filePath
  }

  /** The button id of a directory name inside the device's range, 0 when there is none. */
  function IdOfName(name: string, keyCount: nat): (id: nat)
    ensures id != 0 ==> HasTwoDigitPrefix(name) && id == TwoDigitValue(name) && 1 <= id <= keyCount
    ensures id == 0 ==> !HasTwoDigitPrefix(name) || TwoDigitValue(name) == 0 || TwoDigitValue(name) > keyCount
  {
    if HasTwoDigitPrefix(name) && 1 <= TwoDigitValue(name) <= keyCount then TwoDigitValue(name) else 0
  }

  /**
   * `extract_button_id_from_path`: the first component of the attributed
   * directory relative to the configuration directory names the button;
   * 0 when it does not start with two digits, when the id is outside
   * `1..keyCount`, or when `relpath` raises.
   */
  function ExtractButtonId(fs: Fs, filePath: string, configDir: string, keyCount: nat): (id: nat)
    ensures id == 0 || 1 <= id <= keyCount
    ensures id <= 99
    ensures filePath == [] ==> id == 0
  {
    match RelPath(AttributedDir(fs, filePath), configDir)
    case None => 0
    case Some(rel) => IdOfName(Split(rel, '/')[0], keyCount)
  }

  /** The first component of `dir/name` relative to `dir`, for a single name below it. */
  lemma RelativeFirstComponent(configDir: string, dir: string)
    requires configDir != [] && configDir[|configDir| - 1] != '/'
    requires dir != [] && '/' !in dir
    ensures RelPath(Join(configDir, dir), configDir).Some?
    ensures Split(RelPath(Join(configDir, dir), configDir).value, '/')[0] == dir
  {
    JoinParts(configDir, dir);
    var p := configDir + "/" + dir;
    ComponentsConcat(configDir, dir);
    ComponentsOfName(dir);
    RelPartsInside(p, configDir, [dir]);
    SplitRelPath(p, configDir);
  }

  /** A file `configDir/dir/file` (with a `.` in its name) belongs to the button `dir` names. */
  lemma ExtractButtonIdOfFile(fs: Fs, configDir: string, dir: string, file: string, keyCount: nat)
    requires configDir != [] && configDir[|configDir| - 1] != '/'
    requires dir != [] && '/' !in dir
    requires file != [] && '/' !in file && '.' in file
    ensures ExtractButtonId(fs, Join(Join(configDir, dir), file), configDir, keyCount) == IdOfName(dir, keyCount)
  {
    JoinParts(configDir, dir);
    var d := Join(configDir, dir);
    JoinParts(d, file);
    assert AttributedDir(fs, Join(d, file)) == d;
    RelativeFirstComponent(configDir, dir);
  }

  /** A directory `configDir/dir` without a `.` in its name is the button it names. */
  lemma ExtractButtonIdOfDirectory(fs: Fs, configDir: string, dir: string, keyCount: nat)
    requires configDir != [] && configDir[|configDir| - 1] != '/'
    requires dir != [] && '/' !in dir && '.' !in dir
    requires !IsFile(fs, Join(configDir, dir))
    ensures ExtractButtonId(fs, Join(configDir, dir), configDir, keyCount) == IdOfName(dir, keyCount)
  {
    JoinParts(configDir, dir);
    assert AttributedDir(fs, Join(configDir, dir)) == Join(configDir, dir);
    RelativeFirstComponent(configDir, dir);
  }

  /** A path whose attributed directory lies outside the configuration directory belongs to no button. */
  lemma ExtractButtonIdOutside(fs: Fs, filePath: string, configDir: string, keyCount: nat)
    requires AttributedDir(fs, filePath) != []
    requires !(Components(configDir) <= Components(AttributedDir(fs, filePath)))
    ensures ExtractButtonId(fs, filePath, configDir, keyCount) == 0
  {
    var d := AttributedDir(fs, filePath);
    RelPartsOutside(d, configDir);
    SplitRelPath(d, configDir);
    assert Split(RelPath(d, configDir).value, '/')[0] == "..";
  }

  /** The button id of a listing entry, when it is a button directory inside the device's range. */
  function DirectoryId(fs: Fs, configDir: string, name: string, keyCount: nat): (id: Option<nat>)
    ensures id.Some? <==> IsDir(fs, Join(configDir, name)) && IdOfName(name, keyCount) != 0
    ensures id.Some? ==> id.value == TwoDigitValue(name) && 1 <= id.value <= keyCount
  {
    if IsDir(fs, Join(configDir, name)) && IdOfName(name, keyCount) != 0 then Some(IdOfName(name, keyCount)) else None
  }

  /** The id-to-name map built from a listing, entry by entry; a later entry for the same id overwrites. */
  function ButtonDirectories(fs: Fs, configDir: string, entries: seq<Entry>, keyCount: nat): (m: map<nat, string>)
    ensures forall id | id in m :: 1 <= id <= keyCount && HasTwoDigitPrefix(m[id]) && TwoDigitValue(m[id]) == id && IsDir(fs, Join(configDir, m[id]))
    decreases |entries|
  {
    if entries == [] then map[]
    else
      var m := ButtonDirectories(fs, configDir, entries[..|entries| - 1], keyCount);
      var name := entries[|entries| - 1].name;
      match DirectoryId(fs, configDir, name, keyCount)
      case None => m
      case Some(id) => m[id := name]
  }

  /** An id is in the map exactly when some entry is its button directory. */
  lemma {:induction false} ButtonDirectoriesKeys(fs: Fs, configDir: string, entries: seq<Entry>, keyCount: nat, id: nat)
    ensures id in ButtonDirectories(fs, configDir, entries, keyCount) <==>
              exists k | 0 <= k < |entries| :: DirectoryId(fs, configDir, entries[k].name, keyCount) == Some(id)
    decreases |entries|
  {
    if entries != [] {
      var init := entries[..|entries| - 1];
      ButtonDirectoriesKeys(fs, configDir, init, keyCount, id);
      assert forall k | 0 <= k < |init| :: init[k] == entries[k];
    }
  }

  /** An id maps to the last entry that is its button directory: later entries overwrite earlier ones. */
  lemma {:induction false} ButtonDirectoriesLastWins(fs: Fs, configDir: string, entries: seq<Entry>, keyCount: nat, id: nat, k: nat)
    requires k < |entries| && DirectoryId(fs, configDir, entries[k].name, keyCount) == Some(id)
    requires forall j | k < j < |entries| :: DirectoryId(fs, configDir, entries[j].name, keyCount) != Some(id)
    ensures id in ButtonDirectories(fs, configDir, entries, keyCount)
    ensures ButtonDirectories(fs, configDir, entries, keyCount)[id] == entries[k].name
    decreases |entries|
  {
    var init := entries[..|entries| - 1];
    if k < |entries| - 1 {
      ButtonDirectoriesLastWins(fs, configDir, init, keyCount, id, k);
      var before := ButtonDirectories(fs, configDir, init, keyCount);
      assert DirectoryId(fs, configDir, entries[|entries| - 1].name, keyCount) != Some(id);
      assert init[k] == entries[k];
    }
  }

  /** `_find_button_directories`: the id-to-name map of the configuration directory's listing. */
  method FindButtonDirectories(fs: Fs, configDir: string, keyCount: nat) returns (buttonDirs: map<nat, string>)
    ensures !IsDir(fs, configDir) ==> buttonDirs == map[]
    ensures buttonDirs == ButtonDirectories(fs, configDir, Listing(fs, configDir), keyCount)
  {
    buttonDirs := map[];
    if !IsDir(fs, configDir) {
      return;
    }
    var entries := fs.dirs[configDir];
    var i := 0;
    while i < |entries|
      invariant 0 <= i <= |entries|
      invariant buttonDirs == ButtonDirectories(fs, configDir, entries[..i], keyCount)
    {
      assert entries[..i + 1][..i] == entries[..i];
      var item := entries[i].name;
      if IsDir(fs, Join(configDir, item)) && HasTwoDigitPrefix(item) {
        var buttonId := TwoDigitValue(item);
        if 1 <= buttonId <= keyCount {
          buttonDirs := buttonDirs[buttonId := item];
        }
      }
      i := i + 1;
    }
    assert entries[..i] == entries;
  }

  /** Whether a listing entry is the working directory of the button with prefix `prefix`. */
  predicate IsWorkingDirEntry(fs: Fs, configDir: string, name: string, prefix: string)
  {
    StartsWith(name, prefix) && IsDir(fs, Join(configDir, name))
  }

  /** The first listing entry that is the working directory for `prefix`, as a full path. */
  function FirstWorkingDir(fs: Fs, configDir: string, entries: seq<Entry>, prefix: string): (r: Option<string>)
    ensures r.Some? ==> exists k | 0 <= k < |entries| :: IsWorkingDirEntry(fs, configDir, entries[k].name, prefix) && r.value == Join(configDir, entries[k].name)
    ensures r.None? <==> forall k | 0 <= k < |entries| :: !IsWorkingDirEntry(fs, configDir, entries[k].name, prefix)
  {
    if entries == [] then None
    else if IsWorkingDirEntry(fs, configDir, entries[0].name, prefix) then Some(Join(configDir, entries[0].name))
    else
      var r := FirstWorkingDir(fs, configDir, entries[1..], prefix);
      assert forall k | 1 <= k < |entries| :: entries[k] == entries[1..][k - 1];
      r
  }

  /** The first match is the earliest matching entry. */
  lemma {:induction false} FirstWorkingDirIsFirst(fs: Fs, configDir: string, entries: seq<Entry>, prefix: string, k: nat)
    requires k < |entries| && IsWorkingDirEntry(fs, configDir, entries[k].name, prefix)
    requires forall j | 0 <= j < k :: !IsWorkingDirEntry(fs, configDir, entries[j].name, prefix)
    ensures FirstWorkingDir(fs, configDir, entries, prefix) == Some(Join(configDir, entries[k].name))
  {
    if k > 0 {
      FirstWorkingDirIsFirst(fs, configDir, entries[1..], prefix, k - 1);
    }
  }

  /** The working directory `find_button_working_dir` finds for a button, by its zero-padded id. */
  function WorkingDirFor(fs: Fs, configDir: string, buttonId: nat): (r: Option<string>)
    ensures !IsDir(fs, configDir) ==> r == None
  {
    FirstWorkingDir(fs, configDir, Listing(fs, configDir), ZeroPad2(buttonId))
  }

  /** A found working directory is a directory of the configuration directory's listing. */
  lemma WorkingDirIsDir(fs: Fs, configDir: string, buttonId: nat)
    requires WorkingDirFor(fs, configDir, buttonId).Some?
    ensures IsDir(fs, WorkingDirFor(fs, configDir, buttonId).value)
  {
    var entries := Listing(fs, configDir);
    var k :| 0 <= k < |entries| && IsWorkingDirEntry(fs, configDir, entries[k].name, ZeroPad2(buttonId)) &&
             WorkingDirFor(fs, configDir, buttonId).value == Join(configDir, entries[k].name);
  }

  /** A button below 100 finds exactly the first listed directory whose name starts with its two digits. */
  lemma WorkingDirForTwoDigits(fs: Fs, configDir: string, buttonId: nat, k: nat)
    requires buttonId < 100 && IsDir(fs, configDir) && k < |fs.dirs[configDir]|
    requires HasTwoDigitPrefix(fs.dirs[configDir][k].name) && TwoDigitValue(fs.dirs[configDir][k].name) == buttonId
    requires IsDir(fs, Join(configDir, fs.dirs[configDir][k].name))
    requires forall j | 0 <= j < k :: !IsWorkingDirEntry(fs, configDir, fs.dirs[configDir][j].name, ZeroPad2(buttonId))
    ensures WorkingDirFor(fs, configDir, buttonId) == Some(Join(configDir, fs.dirs[configDir][k].name))
  {
    var name := fs.dirs[configDir][k].name;
    var p := ZeroPad2(buttonId);
    assert p == name[..2] by {
      assert |p| == 2;
      DigitsDetermine(p, name[..2]);
    }
    FirstWorkingDirIsFirst(fs, configDir, fs.dirs[configDir], p, k);
  }

  /** Two two-character digit strings with the same value are equal. */
  lemma DigitsDetermine(a: string, b: string)
    requires |a| == 2 && |b| == 2 && HasTwoDigitPrefix(a) && HasTwoDigitPrefix(b)
    requires TwoDigitValue(a) == TwoDigitValue(b)
    ensures a == b
  {
    DigitOfValue(a[0]);
    DigitOfValue(a[1]);
    DigitOfValue(b[0]);
    DigitOfValue(b[1]);
  }

  /** A digit is determined by its value. */
  lemma DigitOfValue(c: char)
    requires IsDigit(c)
    ensures DigitChar(DigitValue(c)) == c
  {
  }

  /** `_find_button_working_dir`: the first listed directory whose name starts with the zero-padded id. */
  method FindButtonWorkingDir(fs: Fs, configDir: string, buttonId: nat) returns (workingDir: Option<string>)
    ensures workingDir == WorkingDirFor(fs, configDir, buttonId)
  {
    if !IsDir(fs, configDir) {
      return None;
    }
    var buttonPrefix := ZeroPad2(buttonId);
    var entries := fs.dirs[configDir];
    var i := 0;
    while i < |entries|
      invariant 0 <= i <= |entries|
      invariant FirstWorkingDir(fs, configDir, entries, buttonPrefix) == FirstWorkingDir(fs, configDir, entries[i..], buttonPrefix)
    {
      var item := entries[i].name;
      if StartsWith(item, buttonPrefix) && IsDir(fs, Join(configDir, item)) {
        return Some(Join(configDir, item));
      }
      assert entries[i..][1..] == entries[i + 1..];
      i := i + 1;
    }
    return None;
  }

  /** The event types whose single path is reloaded. */
  predicate IsSinglePathEvent(eventType: string)
  {
    eventType == "created" || eventType == "deleted" || eventType == "modified"
  }

  /**
   * The buttons a directory event affects, from the ids of its two paths:
   * both ids for a move, the source id for a create, delete or modify,
   * nothing otherwise; 0 (no button) is never included.
   */
  function AffectedIds(eventType: string, src: nat, dest: nat): (ids: set<nat>)
    ensures 0 !in ids && |ids| <= 2
    ensures eventType != "moved" && !IsSinglePathEvent(eventType) ==> ids == {}
    ensures eventType == "moved" ==> forall id :: id in ids <==> id != 0 && (id == src || id == dest)
    ensures IsSinglePathEvent(eventType) ==> forall id :: id in ids <==> id != 0 && id == src
  {
    if eventType == "moved" then (if src != 0 then {src} else {}) + (if dest != 0 && dest != src then {dest} else {})
    else if IsSinglePathEvent(eventType) then (if src != 0 then {src} else {})
    else {}
  }

  /** `_smart_reload_affected_buttons`' affected set: every id in it is a button of the device. */
  function AffectedButtons(fs: Fs, eventType: string, srcPath: string, destPath: string, configDir: string, keyCount: nat): (ids: set<nat>)
    ensures forall id | id in ids :: 1 <= id <= keyCount
  {
    AffectedIds(eventType, ExtractButtonId(fs, srcPath, configDir, keyCount), ExtractButtonId(fs, destPath, configDir, keyCount))
  }
}

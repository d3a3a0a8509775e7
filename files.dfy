/**
 * The filesystem watcher's decisions: which debounce key a changed file
 * belongs to, which directories are button directories, and how file,
 * configuration and directory events are routed onto the event bus.
 */
module FileWatch {

  import opened Wrappers
  import opened Text
  import opened Paths
  import opened EventBus

  /** A watchdog event; an absent `dest_path` is the empty string, as watchdog reports it. */
  datatype FsEvent = FsEvent(eventType: string, srcPath: string, destPath: string, isDirectory: bool)

  /** What the watcher puts on the bus for one event. */
  datatype Emission = Emission(eventType: string, data: map<string, string>, key: string)

  /** The file kinds that get a per-button debounce key, in the order they are tried. */
  const FileTypes: seq<string> := ["image", "background", "update", "action"]

  /** The debounce delay used for directory events, 1.0 s. */
  const DirectoryInterval: nat := 1000

  /** The delay the bus is left with after a directory event, 0.5 s. */
  const ResetInterval: nat := 500

  /** The first file type `t` with `name` starting with `t.`. */
  function FileTypeOf(name: string, types: seq<string>): (r: Option<string>)
    ensures r.Some? ==> r.value in types && StartsWith(name, r.value + ".")
    ensures r.None? <==> forall k | 0 <= k < |types| :: !StartsWith(name, types[k] + ".")
  {
    if types == [] then None
    else if StartsWith(name, types[0] + ".") then Some(types[0])
    else
      var r := FileTypeOf(name, types[1..]);
      assert forall k | 1 <= k < |types| :: types[k] == types[1..][k - 1];
      r
  }

  /** No name starts with two of the watched kinds followed by a dot, so the kind is the one it starts with. */
  lemma FileTypeUnique(name: string, t: string)
    requires t in FileTypes && StartsWith(name, t + ".")
    ensures FileTypeOf(name, FileTypes) == Some(t)
  {
    var r := FileTypeOf(name, FileTypes);
    assert r.Some?;
    var u := r.value;
    FirstDotAfter(name, u);
    FirstDotAfter(name, t);
    assert u == name[..|u|] && t == name[..|t|];
  }

  /** When `name` starts with `a.` for a dot-free `a`, its first dot is right after `a`. */
  lemma FirstDotAfter(name: string, a: string)
    requires '.' !in a && StartsWith(name, a + ".")
    ensures IndexOf(name, '.') == |a| && name[..|a|] == a
  {
    assert name[..|a| + 1] == a + ".";
    assert name[..|a|] == a;
    assert name[|a|] == '.';
  }

  /**
   * `_get_debounce_key`: `"<dir>:<type>"` for a file whose path below the
   * root starts with a directory named with two leading digits and a name
   * starting with `<type>.` for one of the watched kinds.
   */
  function DebounceKey(root: string, path: string): Option<string>
  {
    if Strip(path) == [] then None
    else
      match RelPath(path, root)
      case None => None
      case Some(rel) =>
        var parts := Split(rel, '/');
        if |parts| < 2 || !HasTwoDigitPrefix(parts[0]) then None
        else
          match FileTypeOf(parts[1], FileTypes)
          case Some(t) => Some(parts[0] + ":" + t)
          case None => None
  }

  /** The components below the root as the key computation sees them (`.` for the root itself). */
  lemma PartsBelow(root: string, path: string, below: seq<string>)
    requires path != [] && Components(path) == Components(root) + below
    ensures Split(RelPath(path, root).value, '/') == if below == [] then ["."] else below
  {
    RelPartsInside(path, root, below);
    SplitRelPath(path, root);
  }

  /** A file `<dir>/<name>` (or deeper) inside a button directory gets the key `<dir>:<type>`. */
  lemma KeyForButtonFile(root: string, path: string, dir: string, name: string, rest: seq<string>, t: string)
    requires Strip(path) != [] && Components(path) == Components(root) + [dir, name] + rest
    requires HasTwoDigitPrefix(dir) && t in FileTypes && StartsWith(name, t + ".")
    ensures DebounceKey(root, path) == Some(dir + ":" + t)
  {
    PartsBelow(root, path, [dir, name] + rest);
    FileTypeUnique(name, t);
    var parts := Split(RelPath(path, root).value, '/');
    assert parts[0] == dir && parts[1] == name;
  }

  /** A file directly in the root, or the root itself, has fewer than two parts: no key (so `config.yaml` gets none). */
  lemma NoKeyAtTopLevel(root: string, path: string, below: seq<string>)
    requires path != [] && Components(path) == Components(root) + below && |below| <= 1
    ensures DebounceKey(root, path) == None
  {
    PartsBelow(root, path, below);
  }

  /** A file under a directory without two leading digits gets no key. */
  lemma NoKeyOutsideButtonDirs(root: string, path: string, dir: string, rest: seq<string>)
    requires path != [] && Components(path) == Components(root) + [dir] + rest && !HasTwoDigitPrefix(dir)
    ensures DebounceKey(root, path) == None
  {
    PartsBelow(root, path, [dir] + rest);
  }

  /** A name that starts with none of the watched kinds (`draw.py`, `config.yaml`) gets no key. */
  lemma NoKeyForOtherNames(root: string, path: string, dir: string, name: string, rest: seq<string>)
    requires path != [] && Components(path) == Components(root) + [dir, name] + rest
    requires forall k | 0 <= k < |FileTypes| :: !StartsWith(name, FileTypes[k] + ".")
    ensures DebounceKey(root, path) == None
  {
    PartsBelow(root, path, [dir, name] + rest);
  }

  /** A path outside the root gets no key: its first relative part is `..`. */
  lemma NoKeyOutsideRoot(root: string, path: string)
    requires path != [] && !(Components(root) <= Components(path))
    ensures DebounceKey(root, path) == None
  {
    RelPartsOutside(path, root);
    SplitRelPath(path, root);
    assert !HasTwoDigitPrefix("..");
  }

  /** Empty and blank paths get no key. */
  lemma NoKeyForBlankPath(root: string, path: string)
    requires AllSpace(path)
    ensures DebounceKey(root, path) == None
  {
  }

  /** Directory names as the key and button-directory tests judge them. */
  lemma ButtonDirectoryNames()
    ensures HasTwoDigitPrefix("01_test") && HasTwoDigitPrefix("001_too_many") && HasTwoDigitPrefix("01-dash")
    ensures !HasTwoDigitPrefix("1_invalid") && !HasTwoDigitPrefix("ab_letters") && !HasTwoDigitPrefix("_01_prefix")
  {
  }

  /** `_is_button_directory_event`: the path is a direct child of the root named with two leading digits. */
  function IsButtonDirectoryEvent(root: string, dirPath: string): bool
  {
    match RelPath(dirPath, root)
    case None => false
    case Some(rel) => '/' !in rel && |rel| >= 2 && HasTwoDigitPrefix(rel)
  }

  lemma SlashInJoin(parts: seq<string>)
    requires |parts| >= 1 && forall k | 0 <= k < |parts| :: '/' !in parts[k]
    ensures '/' in JoinWith(parts, '/') <==> |parts| >= 2
  {
    if |parts| >= 2 {
      assert JoinWith(parts, '/')[|parts[0]|] == '/';
    }
  }

  /** A button directory event is exactly one for a direct child of the root whose name has two leading digits. */
  lemma IsButtonDirectoryEventExactly(root: string, dirPath: string)
    ensures IsButtonDirectoryEvent(root, dirPath) <==>
              dirPath != [] && Components(root) <= Components(dirPath) && |Components(dirPath)| == |Components(root)| + 1 &&
              HasTwoDigitPrefix(Components(dirPath)[|Components(root)|])
  {
    if dirPath != [] {
      var s, t := Components(root), Components(dirPath);
      var parts := RelParts(dirPath, root);
      var rel := RelPath(dirPath, root).value;
      if s <= t {
        assert t == s + t[|s|..];
        RelPartsInside(dirPath, root, t[|s|..]);
        if |parts| == 1 {
          assert rel == parts[0];
        } else if |parts| >= 2 {
          SlashInJoin(parts);
        }
      } else {
        RelPartsOutside(dirPath, root);
        if |parts| == 1 {
          assert rel == "..";
        } else {
          SlashInJoin(parts);
        }
      }
    }
  }

  /** watchdog's `dest_path or src_path`: the path a file event is about. */
  function RoutedPath(e: FsEvent): string
  {
    if e.destPath != [] then e.destPath else e.srcPath
  }

  /** The event data put on the bus for a file event. */
  function FileData(e: FsEvent): map<string, string>
  {
    map["path" := RoutedPath(e), "event_type" := e.eventType, "src_path" := e.srcPath]
  }

  /** The routing of a file (not directory) event by `on_any_event`. */
  function FileEmission(root: string, e: FsEvent): (r: Option<Emission>)
    ensures e.eventType == "opened" || e.eventType == "closed_no_write" || RoutedPath(e) == [] ==> r == None
    ensures r.Some? ==> r.value.data == FileData(e) && r.value.data["path"] == RoutedPath(e)
    ensures e.eventType != "opened" && e.eventType != "closed_no_write" && RoutedPath(e) == Join(root, "config.yaml") ==>
              r == Some(Emission("CONFIG_CHANGED", FileData(e), "config_yaml"))
    ensures r.Some? && r.value.eventType != "CONFIG_CHANGED" ==>
              r.value.eventType == "FILE_CHANGED" && Some(r.value.key) == DebounceKey(root, RoutedPath(e)) &&
              RoutedPath(e) != Join(root, "config.yaml")
    ensures e.eventType != "opened" && e.eventType != "closed_no_write" && RoutedPath(e) != Join(root, "config.yaml") &&
            DebounceKey(root, RoutedPath(e)).Some? ==>
              r == Some(Emission("FILE_CHANGED", FileData(e), DebounceKey(root, RoutedPath(e)).value))
    ensures RoutedPath(e) != Join(root, "config.yaml") && DebounceKey(root, RoutedPath(e)).None? ==> r == None
  {
    var path := RoutedPath(e);
    if path == [] || e.eventType == "opened" || e.eventType == "closed_no_write" then None
    else if path == Join(root, "config.yaml") then Some(Emission("CONFIG_CHANGED", FileData(e), "config_yaml"))
    else
      match DebounceKey(root, path)
      case Some(key) => Some(Emission("FILE_CHANGED", FileData(e), key))
      case None => None
  }

  /** The routing of a directory event by `_handle_directory_event`. */
  function DirectoryEmission(root: string, e: FsEvent): (r: Option<Emission>)
    ensures r.Some? <==> e.eventType != "modified" &&
                         (IsButtonDirectoryEvent(root, e.srcPath) || (e.destPath != [] && IsButtonDirectoryEvent(root, e.destPath)))
    ensures r.Some? ==> r.value.eventType == "BUTTON_DIRECTORIES_CHANGED" && r.value.key == "button_directories" &&
                        r.value.data == map["event_type" := e.eventType, "src_path" := e.srcPath, "dest_path" := e.destPath]
  {
    if e.eventType == "modified" then None
    else if IsButtonDirectoryEvent(root, e.srcPath) || (e.destPath != [] && IsButtonDirectoryEvent(root, e.destPath)) then
      Some(Emission("BUTTON_DIRECTORIES_CHANGED", map["event_type" := e.eventType, "src_path" := e.srcPath, "dest_path" := e.destPath], "button_directories"))
    else None
  }

  /** `on_any_event`: directory events go to the directory handler, the rest to the file routing. */
  function Classify(root: string, e: FsEvent): Option<Emission>
  {
    if e.isDirectory then DirectoryEmission(root, e) else FileEmission(root, e)
  }

  /** The watcher of one configuration directory, emitting on one bus. */
  class FileWatcher {

    const debouncer: Debouncer
    const configDir: string
    const configFile: string
    /** The running observer, by identity; `None` when not watching. */
    var observer: Option<nat>
    /** Number of observers created so far; the next one gets this identity. */
    var observersCreated: nat

    constructor(debouncer: Debouncer, configDir: string)
      ensures this.debouncer == debouncer && this.configDir == configDir
      ensures configFile == Join(configDir, "config.yaml")
      ensures observer == None && observersCreated == 0
    {
      this.debouncer := debouncer;
      this.configDir := configDir;
      configFile := Join(configDir, "config.yaml");
      observer := None;
      observersCreated := 0;
    }

    /** `start_watching`: keeps a running observer; otherwise starts a new one. */
    method StartWatching()
      modifies this`observer, this`observersCreated
      ensures old(observer).Some? ==> observer == old(observer) && observersCreated == old(observersCreated)
      ensures old(observer).None? ==> observer == Some(old(observersCreated)) && observersCreated == old(observersCreated) + 1
    {
      if observer.Some? {
        return;
      }
      observer := Some(observersCreated);
      observersCreated := observersCreated + 1;
    }

    /** `stop_watching`: stops and forgets the observer; nothing to do when not watching. */
    method StopWatching()
      modifies this`observer
      ensures observer == None
    {
      if observer.Some? {
        observer := None;
      }
    }

    /**
     * `_handle_directory_event`: a qualifying event is scheduled under
     * `button_directories` with a 1.0 s timer, after which the bus's
     * interval is set to 0.5 s whatever it was before.
     */
    method HandleDirectoryEvent(e: FsEvent, now: int)
      requires debouncer.Valid()
      modifies debouncer`pendingEvents, debouncer`debounceTimers, debouncer`cancelled, debouncer`timersScheduled, debouncer`debounceInterval, debouncer`deliveries
      ensures debouncer.Valid()
      ensures debouncer.deliveries == old(debouncer.deliveries)
      ensures DirectoryEmission(configDir, e).None? ==> unchanged(debouncer)
      ensures DirectoryEmission(configDir, e).Some? ==>
                var em := DirectoryEmission(configDir, e).value;
                debouncer.pendingEvents == old(debouncer.pendingEvents)[em.key := Event(em.eventType, em.data, now)] &&
                debouncer.debounceTimers == old(debouncer.debounceTimers)[em.key := Timer(DirectoryInterval, old(debouncer.timersScheduled))] &&
                debouncer.timersScheduled == old(debouncer.timersScheduled) + 1 &&
                debouncer.debounceInterval == ResetInterval &&
                debouncer.cancelled == (if em.key in old(debouncer.debounceTimers) then old(debouncer.cancelled) + {old(debouncer.debounceTimers)[em.key].serial} else old(debouncer.cancelled))
    {
      if e.eventType == "modified" {
        return;
      }
      if IsButtonDirectoryEvent(configDir, e.srcPath) || (e.destPath != [] && IsButtonDirectoryEvent(configDir, e.destPath)) {
        debouncer.debounceInterval := DirectoryInterval;
        debouncer.Emit("BUTTON_DIRECTORIES_CHANGED", map["event_type" := e.eventType, "src_path" := e.srcPath, "dest_path" := e.destPath], Some("button_directories"), now, {});
        debouncer.debounceInterval := ResetInterval;
      }
    }

    /** `on_any_event`: schedules what the routing asks for, with the bus's current interval for file events. */
    method OnAnyEvent(e: FsEvent, now: int)
      requires debouncer.Valid() && configFile == Join(configDir, "config.yaml")
      modifies debouncer`pendingEvents, debouncer`debounceTimers, debouncer`cancelled, debouncer`timersScheduled, debouncer`debounceInterval, debouncer`deliveries
      ensures debouncer.Valid()
      ensures Classify(configDir, e).None? ==> unchanged(debouncer)
      ensures Classify(configDir, e).Some? ==>
                var em := Classify(configDir, e).value;
                debouncer.pendingEvents == old(debouncer.pendingEvents)[em.key := Event(em.eventType, em.data, now)] &&
                debouncer.debounceTimers == old(debouncer.debounceTimers)[em.key := Timer(if e.isDirectory then DirectoryInterval else old(debouncer.debounceInterval), old(debouncer.timersScheduled))] &&
                debouncer.timersScheduled == old(debouncer.timersScheduled) + 1 &&
                debouncer.debounceInterval == (if e.isDirectory then ResetInterval else old(debouncer.debounceInterval)) &&
                debouncer.deliveries == old(debouncer.deliveries)
    {
      if e.isDirectory {
        HandleDirectoryEvent(e, now);
        return;
      }
      var path := RoutedPath(e);
      if path == [] {
        return;
      }
      if e.eventType == "opened" || e.eventType == "closed_no_write" {
        return;
      }
      if path == configFile {
        debouncer.Emit("CONFIG_CHANGED", FileData(e), Some("config_yaml"), now, {});
        return;
      }
      var key := DebounceKey(configDir, path);
      if key.Some? {
        debouncer.Emit("FILE_CHANGED", FileData(e), key, now, {});
      }
    }
  }
}

/**
 * The older per-configuration script manager: update scripts run once per
 * button directory, background scripts tracked by directory name, a
 * sliding crash window per directory, and image updates requested after a
 * successful update script.
 *
 * Every operation is specified by a function on the manager's whole state
 * (`Scripts`); the class's methods change the fields in place and promise
 * that the new state is that function of the old one.
 */
module ScriptManagement {

  import opened Wrappers
  import opened Text
  import opened Paths
  import opened Filesystem
  import opened FileUtils
  import opened Config
  import opened CrashWindow
  import opened Processes
  import opened Orders

  /** A request to the device manager: `update_key_image(key_index, button_dir)`. */
  datatype ImageUpdate = ImageUpdate(keyIndex: int, buttonDir: string)

  /** How each directory's script runs go, for update scripts and for background scripts. */
  datatype DirRuns = DirRuns(update: string -> RunOutcome, background: string -> RunOutcome)

  /** The manager's state, field by field. */
  datatype Scripts = Scripts(
    background: map<string, Proc>,
    crashes: map<string, seq<int>>,
    running: bool,
    launches: seq<Launch>,
    terminated: set<nat>,
    nextPid: nat,
    imageUpdates: seq<ImageUpdate>)

  /** Every tracked process has a pid already handed out, so a new pid is fresh. */
  ghost predicate PidsHandedOut(s: Scripts)
  {
    forall d | d in s.background :: s.background[d].pid < s.nextPid
  }

  /** The two filters of the listing loops: a subdirectory whose name starts with two digits. */
  predicate IsButtonDir(fs: Fs, configDir: string, item: string)
  {
    IsDir(fs, Join(configDir, item)) && HasTwoDigitPrefix(item)
  }

  /** The names of a listing that pass the filter. */
  function ButtonDirs(fs: Fs, configDir: string, entries: seq<Entry>): set<string>
    decreases |entries|
  {
    if entries == [] then {}
    else
      var item := entries[|entries| - 1].name;
      ButtonDirs(fs, configDir, entries[..|entries| - 1]) + (if IsButtonDir(fs, configDir, item) then {item} else {})
  }

  /** A name is visited by a listing loop exactly when it is listed and passes the filter. */
  lemma {:induction false} ButtonDirsExactly(fs: Fs, configDir: string, entries: seq<Entry>, name: string)
    ensures name in ButtonDirs(fs, configDir, entries) <==>
              IsButtonDir(fs, configDir, name) && exists k | 0 <= k < |entries| :: entries[k].name == name
    decreases |entries|
  {
    if entries != [] {
      var init := entries[..|entries| - 1];
      ButtonDirsExactly(fs, configDir, init, name);
      if exists k | 0 <= k < |entries| :: entries[k].name == name {
        var k :| 0 <= k < |entries| && entries[k].name == name;
        if k < |init| {
          assert init[k].name == name;
        }
      }
      if exists k | 0 <= k < |init| :: init[k].name == name {
        var k :| 0 <= k < |init| && init[k].name == name;
        assert entries[k].name == name;
      }
    }
  }

  /** The lookups of `execute_update_script` and `start_background_script` from extension `k` on. */
  function ScriptFrom(fs: Fs, folder: string, name: string, k: nat): Option<(string, string)>
    decreases |SupportedScripts| - k
  {
    if k >= |SupportedScripts| then None
    else if IsFile(fs, Candidate(folder, name, SupportedScripts[k].0)) then Some((SupportedScripts[k].1, Candidate(folder, name, SupportedScripts[k].0)))
    else ScriptFrom(fs, folder, name, k + 1)
  }

  /**
   * The first of `name.sh`, `name.py`, `name.js` in the folder, with its
   * interpreter: the loop over the supported scripts that both
   * `execute_update_script` and `start_background_script` run.
   */
  function FirstScript(fs: Fs, folder: string, name: string): Option<(string, string)>
  {
    ScriptFrom(fs, folder, name, 0)
  }

  lemma {:induction false} ScriptFromAgrees(fs: Fs, folder: string, name: string, k: nat)
    requires k <= |SupportedScripts|
    requires forall j | 0 <= j < k :: !IsFile(fs, Candidate(folder, name, ScriptExtensions()[j]))
    ensures ScriptFrom(fs, folder, name, k) == ScriptCommand(fs, folder, name)
    decreases |SupportedScripts| - k
  {
    if k == |SupportedScripts| {
      ScriptCommandNone(fs, folder, name);
    } else {
      assert SupportedScripts[k].0 == ScriptExtensions()[k];
      if IsFile(fs, Candidate(folder, name, ScriptExtensions()[k])) {
        ScriptCommandFirstExtension(fs, folder, name, k);
      } else {
        ScriptFromAgrees(fs, folder, name, k + 1);
      }
    }
  }

  /** The script manager's own lookup finds the same script, with the same interpreter, as the process manager's `start_script` would run. */
  lemma FirstScriptAgrees(fs: Fs, folder: string, name: string)
    ensures FirstScript(fs, folder, name) == ScriptCommand(fs, folder, name)
  {
    ScriptFromAgrees(fs, folder, name, 0);
  }

  /** The lookup loop, stopping at the first existing script. */
  method FindScript(fs: Fs, folder: string, name: string) returns (found: Option<(string, string)>)
    ensures found == FirstScript(fs, folder, name)
  {
    var k := 0;
    while k < |SupportedScripts|
      invariant 0 <= k <= |SupportedScripts|
      invariant ScriptFrom(fs, folder, name, k) == FirstScript(fs, folder, name)
    {
      var ext := SupportedScripts[k].0;
      var scriptPath := Candidate(folder, name, ext);
      if IsFile(fs, scriptPath) {
        return Some((SupportedScripts[k].1, scriptPath));
      }
      k := k + 1;
    }
    return None;
  }

  /**
   * `_trigger_image_update`: without a device manager nothing happens; a
   * name with two leading digits asks for key `int(name[:2]) - 1`; any
   * other name is skipped.
   */
  function ImageTrigger(hasDeviceManager: bool, dir: string): (r: seq<ImageUpdate>)
    ensures r != [] <==> hasDeviceManager && HasTwoDigitPrefix(dir)
    ensures r != [] ==> |r| == 1 && r[0].buttonDir == dir && -1 <= r[0].keyIndex < 99
    ensures r != [] ==> r[0].keyIndex == 10 * DigitValue(dir[0]) + DigitValue(dir[1]) - 1
  {
    if hasDeviceManager && HasTwoDigitPrefix(dir) then [ImageUpdate(TwoDigitValue(dir) - 1, dir)] else []
  }

  /** Directory `01_toggle_mute` is key 0 and `12_clock` key 11; `ab_notes` has no key. */
  lemma ImageTriggerExamples()
    ensures ImageTrigger(true, "01_toggle_mute") == [ImageUpdate(0, "01_toggle_mute")]
    ensures ImageTrigger(true, "12_clock") == [ImageUpdate(11, "12_clock")]
    ensures ImageTrigger(true, "ab_notes") == []
    ensures ImageTrigger(false, "01_toggle_mute") == []
  {
    assert DigitValue('0') == 0 && DigitValue('1') == 1 && DigitValue('2') == 2;
    assert !IsDigit('a');
  }

  /** The run `execute_update_script` makes, or none when the folder or the script is missing or the spawn fails. */
  function UpdateLaunch(fs: Fs, configDir: string, dir: string, outcome: RunOutcome): (r: seq<Launch>)
    ensures |r| <= 1
    ensures r != [] <==> IsDir(fs, Join(configDir, dir)) && FirstScript(fs, Join(configDir, dir), "update").Some? && !outcome.SpawnFails?
    ensures r != [] ==> r[0].cwd == Join(configDir, dir) && |r[0].argv| == 2
  {
    var folder := Join(configDir, dir);
    if !IsDir(fs, folder) then []
    else
      match FirstScript(fs, folder, "update")
      case None => []
      case Some((cmd, script)) => if outcome.SpawnFails? then [] else [Launch([cmd, script], folder)]
  }

  /** `execute_update_script`: runs the script and, on exit code 0 only, triggers the image update. */
  function ExecuteUpdate(configDir: string, hasDeviceManager: bool, fs: Fs, dir: string, outcome: RunOutcome, s: Scripts): (t: Scripts)
    ensures t == s.(launches := t.launches, imageUpdates := t.imageUpdates)
    ensures t.launches == s.launches + UpdateLaunch(fs, configDir, dir, outcome)
    ensures t.imageUpdates == s.imageUpdates || t.imageUpdates == s.imageUpdates + ImageTrigger(hasDeviceManager, dir)
    ensures |t.imageUpdates| > |s.imageUpdates| <==>
              IsDir(fs, Join(configDir, dir)) && FirstScript(fs, Join(configDir, dir), "update").Some? &&
              outcome == Finished(0) && hasDeviceManager && HasTwoDigitPrefix(dir)
  {
    var folder := Join(configDir, dir);
    if !IsDir(fs, folder) then s
    else
      match FirstScript(fs, folder, "update")
      case None => s
      case Some((cmd, script)) =>
        if outcome.SpawnFails? then s
        else
          var ran := s.(launches := s.launches + [Launch([cmd, script], folder)]);
          if outcome == Finished(0) then ran.(imageUpdates := ran.imageUpdates + ImageTrigger(hasDeviceManager, dir)) else ran
  }

  /** A failing, a timed-out or a missing update script never asks for an image update. */
  lemma UpdateTriggersOnlyOnSuccess(configDir: string, fs: Fs, dir: string, outcome: RunOutcome, s: Scripts)
    requires outcome != Finished(0)
    ensures ExecuteUpdate(configDir, true, fs, dir, outcome, s).imageUpdates == s.imageUpdates
  {
  }

  /** `stop_background_script`: the dir's process, exited or not, is asked to terminate and its record always goes. */
  function StopBackground(s: Scripts, dir: string): (t: Scripts)
    ensures t == s.(background := t.background, terminated := t.terminated)
    ensures t.background == s.background - {dir}
    ensures dir !in s.background ==> t == s
    ensures dir in s.background ==> t.terminated == s.terminated + {s.background[dir].pid}
  {
    if dir in s.background then
      s.(background := s.background - {dir}, terminated := s.terminated + {s.background[dir].pid})
    else s
  }

  /** Whether `start_background_script` ends with a process tracked for the dir. */
  predicate StartsBackground(fs: Fs, configDir: string, dir: string, outcome: RunOutcome)
  {
    IsDir(fs, Join(configDir, dir)) && FirstScript(fs, Join(configDir, dir), "background").Some? && !outcome.SpawnFails?
  }

  /**
   * `start_background_script`: nothing for a missing folder; otherwise the
   * old process is stopped first and at most one new process, from the
   * first existing extension, is tracked under a fresh pid.
   */
  function StartBackground(configDir: string, fs: Fs, dir: string, outcome: RunOutcome, s: Scripts): (t: Scripts)
    ensures t.crashes == s.crashes && t.running == s.running && t.imageUpdates == s.imageUpdates
    ensures !IsDir(fs, Join(configDir, dir)) ==> t == s
  {
    var folder := Join(configDir, dir);
    if !IsDir(fs, folder) then s
    else Track(StopBackground(s, dir), dir, folder, FirstScript(fs, folder, "background"), outcome)
  }

  /** The spawn step of `start_background_script`, given the script lookup's result. */
  function Track(s: Scripts, dir: string, folder: string, found: Option<(string, string)>, outcome: RunOutcome): (t: Scripts)
    ensures t.crashes == s.crashes && t.running == s.running && t.imageUpdates == s.imageUpdates && t.terminated == s.terminated
    ensures dir in t.background <==> dir in s.background || (found.Some? && !outcome.SpawnFails?)
  {
    match found
    case None => s
    case Some((cmd, script)) =>
      if outcome.SpawnFails? then s
      else
        s.(background := s.background[dir := Proc(s.nextPid, Running)],
           launches := s.launches + [Launch([cmd, script], folder)],
           nextPid := s.nextPid + 1)
  }

  /** The dir itself after `start_background_script`: tracked exactly when a script is found and spawns, under the next pid; its old process is asked to terminate. */
  lemma StartBackgroundTracks(configDir: string, fs: Fs, dir: string, outcome: RunOutcome, s: Scripts)
    requires IsDir(fs, Join(configDir, dir))
    ensures var t := StartBackground(configDir, fs, dir, outcome, s);
            (dir in t.background <==> StartsBackground(fs, configDir, dir, outcome)) &&
            (dir in t.background ==> t.background[dir] == Proc(s.nextPid, Running)) &&
            t.terminated == StopBackground(s, dir).terminated
  {
  }

  /** Every other dir keeps its record, and the pids stay handed out. */
  lemma StartBackgroundFrames(configDir: string, fs: Fs, dir: string, outcome: RunOutcome, s: Scripts)
    ensures var t := StartBackground(configDir, fs, dir, outcome, s);
            (forall d | d != dir :: (d in t.background <==> d in s.background) && (d in s.background ==> t.background[d] == s.background[d])) &&
            (PidsHandedOut(s) ==> PidsHandedOut(t))
  {
  }

  /** At most one launch is added, and the pid counter moves exactly when a process is tracked. */
  lemma StartBackgroundCounts(configDir: string, fs: Fs, dir: string, outcome: RunOutcome, s: Scripts)
    ensures var t := StartBackground(configDir, fs, dir, outcome, s);
            |s.launches| <= |t.launches| <= |s.launches| + 1 && t.launches[..|s.launches|] == s.launches &&
            t.nextPid == (if StartsBackground(fs, configDir, dir, outcome) then s.nextPid + 1 else s.nextPid)
  {
  }

  /**
   * What `start_background_script` does to the table: the dir is tracked
   * afterwards exactly when the folder exists, a script is found and the
   * spawn works, under the next pid; every other dir keeps its record; the
   * old process of the dir, if any, is asked to terminate; at most one
   * launch is added.
   */
  lemma StartBackgroundEffect(configDir: string, fs: Fs, dir: string, outcome: RunOutcome, s: Scripts)
    ensures var t := StartBackground(configDir, fs, dir, outcome, s);
            (IsDir(fs, Join(configDir, dir)) ==>
               (dir in t.background <==> StartsBackground(fs, configDir, dir, outcome)) &&
               t.terminated == StopBackground(s, dir).terminated) &&
            (dir in t.background && IsDir(fs, Join(configDir, dir)) ==> t.background[dir] == Proc(s.nextPid, Running)) &&
            (forall d | d != dir :: (d in t.background <==> d in s.background) && (d in s.background ==> t.background[d] == s.background[d])) &&
            |s.launches| <= |t.launches| <= |s.launches| + 1 && t.launches[..|s.launches|] == s.launches &&
            t.nextPid == (if StartsBackground(fs, configDir, dir, outcome) then s.nextPid + 1 else s.nextPid) &&
            (PidsHandedOut(s) ==> PidsHandedOut(t))
  {
    if IsDir(fs, Join(configDir, dir)) {
      StartBackgroundTracks(configDir, fs, dir, outcome, s);
    }
    StartBackgroundFrames(configDir, fs, dir, outcome, s);
    StartBackgroundCounts(configDir, fs, dir, outcome, s);
  }

  /** Starting a background script twice in a row leaves one process tracked, the second one; the first is asked to stop. */
  lemma StartBackgroundTwice(configDir: string, fs: Fs, dir: string, outcome: RunOutcome, s: Scripts)
    requires StartsBackground(fs, configDir, dir, outcome)
    ensures var twice := StartBackground(configDir, fs, dir, outcome, StartBackground(configDir, fs, dir, outcome, s));
            dir in twice.background && twice.background[dir] == Proc(s.nextPid + 1, Running) &&
            s.nextPid in twice.terminated
  {
    var once := StartBackground(configDir, fs, dir, outcome, s);
    StartBackgroundEffect(configDir, fs, dir, outcome, s);
    StartBackgroundEffect(configDir, fs, dir, outcome, once);
    assert once.background[dir] == Proc(s.nextPid, Running) && once.nextPid == s.nextPid + 1;
    assert StopBackground(once, dir).terminated == once.terminated + {s.nextPid};
  }

  /** The crash history a restart of the dir starts from. */
  function History(s: Scripts, dir: string): seq<int>
  {
    if dir in s.crashes then s.crashes[dir] else []
  }

  /**
   * `restart_background_script` at time `now`: keeps the timestamps younger
   * than 300 s, appends `now`, and gives up when that makes more than 5;
   * otherwise starts the script (the 2 s pause is not modelled).
   */
  function RestartBackground(configDir: string, fs: Fs, dir: string, now: int, outcome: RunOutcome, s: Scripts): (t: Scripts)
    ensures t.crashes == s.crashes[dir := Recorded(History(s, dir), now)]
    ensures !Allowed(History(s, dir), now) ==> t == s.(crashes := t.crashes)
    ensures Allowed(History(s, dir), now) ==> t == StartBackground(configDir, fs, dir, outcome, s.(crashes := t.crashes))
  {
    var recorded := s.(crashes := s.crashes[dir := Recent(History(s, dir), now) + [now]]);
    if |recorded.crashes[dir]| > RestartLimit then recorded
    else StartBackground(configDir, fs, dir, outcome, recorded)
  }

  /** Five restarts of one dir within the window all go ahead; a sixth is refused and starts nothing. */
  lemma RestartRefusedAfterFive(configDir: string, fs: Fs, dir: string, times: seq<int>, outcome: RunOutcome, s: Scripts)
    requires |times| == RestartLimit + 1
    requires forall i, j | 0 <= i < |times| && 0 <= j < |times| :: times[i] - times[j] < RestartWindow
    requires History(s, dir) == HistoryAfter([], times[..RestartLimit])
    ensures var t := RestartBackground(configDir, fs, dir, times[RestartLimit], outcome, s);
            t.background == s.background && t.launches == s.launches && t.nextPid == s.nextPid
  {
    BurstAllowsFive(times, RestartLimit);
  }

  /**
   * `handle_script_change`: a changed background script is stopped, its
   * crash history emptied and the script started again; a changed update
   * script is run; any other type is ignored.
   */
  function ScriptChange(configDir: string, hasDeviceManager: bool, fs: Fs, dir: string, scriptType: string, outcome: RunOutcome, s: Scripts): (t: Scripts)
    ensures scriptType == "background" ==> History(t, dir) == []
    ensures scriptType == "update" ==> t == ExecuteUpdate(configDir, hasDeviceManager, fs, dir, outcome, s)
    ensures scriptType != "background" && scriptType != "update" ==> t == s
  {
    if scriptType == "background" then
      var stopped := StopBackground(s, dir);
      StartBackground(configDir, fs, dir, outcome, stopped.(crashes := stopped.crashes[dir := []]))
    else if scriptType == "update" then ExecuteUpdate(configDir, hasDeviceManager, fs, dir, outcome, s)
    else s
  }

  /** After a manual change of the background script, the next crash restart always goes ahead. */
  lemma ManualRestartResetsWindow(configDir: string, hasDeviceManager: bool, fs: Fs, dir: string, outcome: RunOutcome, s: Scripts, now: int)
    ensures Allowed(History(ScriptChange(configDir, hasDeviceManager, fs, dir, "background", outcome, s), dir), now)
  {
    var t := ScriptChange(configDir, hasDeviceManager, fs, dir, "background", outcome, s);
    assert Recorded(History(t, dir), now) == [now];
  }

  /** Image update requests, each from a device manager, for one of `dirs`, for key `int(dir[:2]) - 1`. */
  predicate RequestsFor(hasDeviceManager: bool, dirs: set<string>, updates: seq<ImageUpdate>)
  {
    (hasDeviceManager || updates == []) &&
    forall i | 0 <= i < |updates| :: updates[i].buttonDir in dirs && KeyMatchesDir(updates[i])
  }

  /** The request names key `int(dir[:2]) - 1` of its directory. */
  predicate KeyMatchesDir(u: ImageUpdate)
  {
    HasTwoDigitPrefix(u.buttonDir) && u.keyIndex == TwoDigitValue(u.buttonDir) - 1
  }

  lemma RequestsForWider(hasDeviceManager: bool, dirs: set<string>, wider: set<string>, updates: seq<ImageUpdate>)
    requires dirs <= wider && RequestsFor(hasDeviceManager, dirs, updates)
    ensures RequestsFor(hasDeviceManager, wider, updates)
  {
  }

  lemma RequestsForConcat(hasDeviceManager: bool, dirs: set<string>, a: seq<ImageUpdate>, b: seq<ImageUpdate>)
    requires RequestsFor(hasDeviceManager, dirs, a) && RequestsFor(hasDeviceManager, dirs, b)
    ensures RequestsFor(hasDeviceManager, dirs, a + b)
  {
    forall i | 0 <= i < |a + b|
      ensures (a + b)[i].buttonDir in dirs && KeyMatchesDir((a + b)[i])
    {
      if i < |a| {
        assert (a + b)[i] == a[i];
      } else {
        assert (a + b)[i] == b[i - |a|];
      }
    }
  }

  /** One more update script run keeps the requests since `from` to requests for `dirs`, when its dir is one of them. */
  lemma UpdateKeepsRequests(configDir: string, hasDeviceManager: bool, fs: Fs, dir: string, outcome: RunOutcome, s: Scripts, from: nat, dirs: set<string>)
    requires dir in dirs && from <= |s.imageUpdates|
    requires RequestsFor(hasDeviceManager, dirs, s.imageUpdates[from..])
    ensures var t := ExecuteUpdate(configDir, hasDeviceManager, fs, dir, outcome, s);
            |t.imageUpdates| >= |s.imageUpdates| && RequestsFor(hasDeviceManager, dirs, t.imageUpdates[from..])
  {
    var t := ExecuteUpdate(configDir, hasDeviceManager, fs, dir, outcome, s);
    var added := t.imageUpdates[|s.imageUpdates|..];
    assert t.imageUpdates[from..] == s.imageUpdates[from..] + added;
    assert added == [] || added == ImageTrigger(hasDeviceManager, dir);
    RequestsForConcat(hasDeviceManager, dirs, s.imageUpdates[from..], added);
  }

  /** `_execute_update_scripts` over a listing: `execute_update_script` for each entry that passes the filter, in order. */
  function UpdateAll(configDir: string, hasDeviceManager: bool, fs: Fs, entries: seq<Entry>, outcomes: string -> RunOutcome, s: Scripts): (t: Scripts)
    ensures t == s.(launches := t.launches, imageUpdates := t.imageUpdates)
    ensures |t.launches| >= |s.launches| && t.launches[..|s.launches|] == s.launches
    ensures |t.imageUpdates| >= |s.imageUpdates| && t.imageUpdates[..|s.imageUpdates|] == s.imageUpdates
    ensures RequestsFor(hasDeviceManager, ButtonDirs(fs, configDir, entries), t.imageUpdates[|s.imageUpdates|..])
    decreases |entries|
  {
    if entries == [] then s
    else
      var before := UpdateAll(configDir, hasDeviceManager, fs, entries[..|entries| - 1], outcomes, s);
      var item := entries[|entries| - 1].name;
      var dirs := ButtonDirs(fs, configDir, entries);
      var earlier := before.imageUpdates[|s.imageUpdates|..];
      RequestsForWider(hasDeviceManager, ButtonDirs(fs, configDir, entries[..|entries| - 1]), dirs, earlier);
      if IsButtonDir(fs, configDir, item) then
        UpdateKeepsRequests(configDir, hasDeviceManager, fs, item, outcomes(item), before, |s.imageUpdates|, dirs);
        ExecuteUpdate(configDir, hasDeviceManager, fs, item, outcomes(item), before)
      else before
  }

  /** `_start_background_scripts` over a listing: `start_background_script` for each entry that passes the filter, in order. */
  function StartAll(configDir: string, fs: Fs, entries: seq<Entry>, outcomes: string -> RunOutcome, s: Scripts): (t: Scripts)
    ensures t.crashes == s.crashes && t.running == s.running && t.imageUpdates == s.imageUpdates
    ensures forall d | d !in ButtonDirs(fs, configDir, entries) ::
              (d in t.background <==> d in s.background) && (d in s.background ==> t.background[d] == s.background[d])
    ensures forall d | d in ButtonDirs(fs, configDir, entries) ::
              (d in t.background <==> StartsBackground(fs, configDir, d, outcomes(d))) &&
              (d in t.background ==> t.background[d].status == Running && t.background[d].pid >= s.nextPid)
    ensures t.nextPid >= s.nextPid
    ensures PidsHandedOut(s) ==> PidsHandedOut(t)
    decreases |entries|
  {
    if entries == [] then s
    else
      var before := StartAll(configDir, fs, entries[..|entries| - 1], outcomes, s);
      var item := entries[|entries| - 1].name;
      if IsButtonDir(fs, configDir, item) then
        StartBackgroundEffect(configDir, fs, item, outcomes(item), before);
        StartBackground(configDir, fs, item, outcomes(item), before)
      else before
  }

  /**
   * `start`: once running, nothing happens; otherwise the update scripts
   * run, then the background scripts start, over the configuration
   * directory's listing (the monitor thread is the separate `MonitorStep`).
   */
  function Started(configDir: string, hasDeviceManager: bool, fs: Fs, outcomes: DirRuns, s: Scripts): (t: Scripts)
    ensures s.running ==> t == s
    ensures t.running
    ensures !s.running ==> forall d | d in ButtonDirs(fs, configDir, Listing(fs, configDir)) ::
              d in t.background <==> StartsBackground(fs, configDir, d, outcomes.background(d))
  {
    if s.running then s
    else
      var entries := Listing(fs, configDir);
      var updated := UpdateAll(configDir, hasDeviceManager, fs, entries, outcomes.update, s.(running := true));
      StartAll(configDir, fs, entries, outcomes.background, updated)
  }

  /** `stop`: once stopped, nothing happens; otherwise every tracked process is asked to terminate and the table is cleared. */
  function Stopped(s: Scripts): (t: Scripts)
    ensures !s.running ==> t == s
    ensures !t.running
    ensures s.running ==> t.background == map[]
    ensures s.running ==> forall d | d in s.background :: s.background[d].pid in t.terminated
  {
    if !s.running then s
    else s.(running := false, background := map[], terminated := s.terminated + set d | d in s.background :: s.background[d].pid)
  }

  /** Starting twice is starting once, and so is stopping twice. */
  lemma StartStopIdempotent(configDir: string, hasDeviceManager: bool, fs: Fs, outcomes: DirRuns, s: Scripts)
    ensures var t := Started(configDir, hasDeviceManager, fs, outcomes, s);
            Started(configDir, hasDeviceManager, fs, outcomes, t) == t
    ensures Stopped(Stopped(s)) == Stopped(s)
  {
  }

  /** The directories a monitor pass finds exited. */
  function Crashed(s: Scripts): (crashed: set<string>)
    ensures forall d | d in crashed :: d in s.background && s.background[d].status.Exited?
    ensures forall d | d in s.background && s.background[d].status.Exited? :: d in crashed
  {
    set d | d in s.background && s.background[d].status.Exited?
  }

  /** One restart of the monitor loop: the exited record is removed, then the restart is attempted; nothing is asked to terminate. */
  function Reap(configDir: string, fs: Fs, dir: string, now: int, outcome: RunOutcome, s: Scripts): (t: Scripts)
    ensures t.running == s.running && t.imageUpdates == s.imageUpdates && t.terminated == s.terminated
    ensures t.nextPid >= s.nextPid
    ensures t.crashes == s.crashes[dir := Recorded(History(s, dir), now)]
    ensures forall d | d != dir :: (d in t.background <==> d in s.background) && (d in s.background ==> t.background[d] == s.background[d])
    ensures dir in t.background <==> Allowed(History(s, dir), now) && StartsBackground(fs, configDir, dir, outcome)
    ensures dir in t.background ==> t.background[dir] == Proc(s.nextPid, Running)
    ensures PidsHandedOut(s) ==> PidsHandedOut(t)
    ensures t.launches == s.launches + RestartLaunch(configDir, fs, dir, now, outcome, History(s, dir))
  {
    var reaped := s.(background := s.background - {dir});
    assert History(reaped, dir) == History(s, dir);
    assert StopBackground(reaped, dir).launches == s.launches;
    StartBackgroundEffect(configDir, fs, dir, outcome, reaped.(crashes := reaped.crashes[dir := Recorded(History(s, dir), now)]));
    RestartBackground(configDir, fs, dir, now, outcome, reaped)
  }

  /**
   * What a monitor pass at time `now` leaves, whatever order it visits the
   * crashed directories in: each crashed dir has its restart recorded and is
   * tracked again exactly when the window allows it and the script starts,
   * under a new pid; nothing is asked to terminate; every other record stays.
   */
  ghost predicate Monitored(configDir: string, fs: Fs, now: int, outcomes: string -> RunOutcome, s: Scripts, crashed: set<string>, t: Scripts)
  {
    MonitorKeeps(s, crashed, t) && MonitorRestarts(configDir, fs, now, outcomes, s, crashed, t)
  }

  /** The part of a monitor pass outside the crashed dirs: nothing there changes, nothing is terminated. */
  ghost predicate MonitorKeeps(s: Scripts, crashed: set<string>, t: Scripts)
  {
    t.running == s.running && t.imageUpdates == s.imageUpdates && t.terminated == s.terminated &&
    t.nextPid >= s.nextPid &&
    (forall d | d !in crashed :: (d in t.background <==> d in s.background) && (d in s.background ==> t.background[d] == s.background[d])) &&
    (forall d | d !in crashed :: (d in t.crashes <==> d in s.crashes) && (d in s.crashes ==> t.crashes[d] == s.crashes[d])) &&
    (PidsHandedOut(s) ==> PidsHandedOut(t))
  }

  /** The crashed dirs after a monitor pass: each restart recorded, and tracked again when allowed and started. */
  ghost predicate MonitorRestarts(configDir: string, fs: Fs, now: int, outcomes: string -> RunOutcome, s: Scripts, crashed: set<string>, t: Scripts)
  {
    (forall d | d in crashed :: d in t.crashes && t.crashes[d] == Recorded(History(s, d), now)) &&
    (forall d | d in crashed ::
       (d in t.background <==> Allowed(History(s, d), now) && StartsBackground(fs, configDir, d, outcomes(d))) &&
       (d in t.background ==> t.background[d].status == Running && t.background[d].pid >= s.nextPid))
  }

  /** Reaping one more crashed dir keeps `Monitored` for the dirs reaped so far plus that one. */
  lemma MonitoredStep(configDir: string, fs: Fs, now: int, outcomes: string -> RunOutcome, s: Scripts, done: set<string>, cur: Scripts, dir: string)
    requires dir !in done
    requires Monitored(configDir, fs, now, outcomes, s, done, cur)
    ensures Monitored(configDir, fs, now, outcomes, s, done + {dir}, Reap(configDir, fs, dir, now, outcomes(dir), cur))
  {
    var next := Reap(configDir, fs, dir, now, outcomes(dir), cur);
    assert History(cur, dir) == History(s, dir);
    assert MonitorKeeps(s, done + {dir}, next);
    assert MonitorRestarts(configDir, fs, now, outcomes, s, done + {dir}, next);
  }

  /** Moving one element from the pending half of a partition to the done half keeps the partition. */
  lemma MoveOne<T>(pending: set<T>, done: set<T>, all: set<T>, x: T)
    requires pending + done == all && pending !! done && x in pending
    ensures (pending - {x}) + (done + {x}) == all && (pending - {x}) !! (done + {x})
  {
  }

  /** A monitor pass with nothing crashed changes nothing. */
  lemma MonitoredNothing(configDir: string, fs: Fs, now: int, outcomes: string -> RunOutcome, s: Scripts)
    ensures Monitored(configDir, fs, now, outcomes, s, {}, s)
  {
  }

  /**
   * The launch a restart of `dir` adds to the log, given the dir's crash
   * history: the first background script of its folder, run in that folder,
   * when the window allows the restart and the script starts; nothing
   * otherwise.
   */
  function RestartLaunch(configDir: string, fs: Fs, dir: string, now: int, outcome: RunOutcome, history: seq<int>): (r: seq<Launch>)
    ensures r != [] <==> Allowed(history, now) && StartsBackground(fs, configDir, dir, outcome)
    ensures r != [] ==> |r| == 1 && r[0].cwd == Join(configDir, dir) && |r[0].argv| == 2 &&
                        FirstScript(fs, Join(configDir, dir), "background") == Some((r[0].argv[0], r[0].argv[1]))
  {
    var folder := Join(configDir, dir);
    if Allowed(history, now) && StartsBackground(fs, configDir, dir, outcome) then
      var script := FirstScript(fs, folder, "background").value;
      [Launch([script.0, script.1], folder)]
    else []
  }

  /** The launches of a monitor pass from state `s` that restarts the dirs of `order` in that order. */
  function MonitorLaunches(configDir: string, fs: Fs, now: int, outcomes: string -> RunOutcome, s: Scripts, order: seq<string>): (r: seq<Launch>)
    ensures |r| <= |order|
  {
    if order == [] then []
    else
      var dir := order[|order| - 1];
      MonitorLaunches(configDir, fs, now, outcomes, s, order[..|order| - 1]) + RestartLaunch(configDir, fs, dir, now, outcomes(dir), History(s, dir))
  }

  /** One more dir of the pass appends its restart launch to the launches of the pass so far. */
  lemma MonitorLaunchesStep(configDir: string, fs: Fs, now: int, outcomes: string -> RunOutcome, s: Scripts, order: seq<string>, dir: string,
                            log: seq<Launch>, next: seq<Launch>)
    requires log == s.launches + MonitorLaunches(configDir, fs, now, outcomes, s, order)
    requires next == log + RestartLaunch(configDir, fs, dir, now, outcomes(dir), History(s, dir))
    ensures next == s.launches + MonitorLaunches(configDir, fs, now, outcomes, s, order + [dir])
  {
    assert (order + [dir])[..|order|] == order;
  }

  /** Every launch of a monitor pass is the restart launch of one dir of its order. */
  lemma {:induction false} MonitorLaunchesOnlyRestarted(configDir: string, fs: Fs, now: int, outcomes: string -> RunOutcome, s: Scripts, order: seq<string>)
    ensures forall l | l in MonitorLaunches(configDir, fs, now, outcomes, s, order) ::
              exists k | 0 <= k < |order| :: RestartLaunch(configDir, fs, order[k], now, outcomes(order[k]), History(s, order[k])) == [l]
  {
    if order != [] {
      var front := order[..|order| - 1];
      var dir := order[|order| - 1];
      MonitorLaunchesOnlyRestarted(configDir, fs, now, outcomes, s, front);
      forall l | l in MonitorLaunches(configDir, fs, now, outcomes, s, order)
        ensures exists k | 0 <= k < |order| :: RestartLaunch(configDir, fs, order[k], now, outcomes(order[k]), History(s, order[k])) == [l]
      {
        if l in MonitorLaunches(configDir, fs, now, outcomes, s, front) {
          var k :| 0 <= k < |front| && RestartLaunch(configDir, fs, front[k], now, outcomes(front[k]), History(s, front[k])) == [l];
          assert order[k] == front[k];
        } else {
          assert RestartLaunch(configDir, fs, order[|order| - 1], now, outcomes(dir), History(s, dir)) == [l];
        }
      }
    }
  }

  /** Each dir of the order that is allowed a restart and whose script starts launches it during the pass. */
  lemma {:induction false} MonitorLaunchesEach(configDir: string, fs: Fs, now: int, outcomes: string -> RunOutcome, s: Scripts, order: seq<string>, k: nat)
    requires k < |order|
    requires Allowed(History(s, order[k]), now) && StartsBackground(fs, configDir, order[k], outcomes(order[k]))
    ensures RestartLaunch(configDir, fs, order[k], now, outcomes(order[k]), History(s, order[k]))[0] in MonitorLaunches(configDir, fs, now, outcomes, s, order)
  {
    var front := order[..|order| - 1];
    if k < |order| - 1 {
      assert front[k] == order[k];
      MonitorLaunchesEach(configDir, fs, now, outcomes, s, front, k);
    }
  }

  class ScriptManager {

    const configDir: string
    /** Whether a device manager was passed in. */
    const hasDeviceManager: bool
    /** Tracked background processes by button directory name. */
    var backgroundProcesses: map<string, Proc>
    /** Restart timestamps by button directory name. */
    var crashTimestamps: map<string, seq<int>>
    var running: bool
    /** Every process launched, in order. */
    var launches: seq<Launch>
    /** The pids asked to terminate. */
    var terminated: set<nat>
    /** The pid the next launched process gets. */
    var nextPid: nat
    /** The image updates requested from the device manager, in order. */
    var imageUpdates: seq<ImageUpdate>

    function State(): Scripts
      reads this
    {
      Scripts(backgroundProcesses, crashTimestamps, running, launches, terminated, nextPid, imageUpdates)
    }

    ghost predicate Valid()
      reads this
    {
      PidsHandedOut(State())
    }

    constructor (configDir: string, hasDeviceManager: bool)
      ensures Valid()
      ensures this.configDir == configDir && this.hasDeviceManager == hasDeviceManager
      ensures State() == Scripts(map[], map[], false, [], {}, 0, [])
    {
      this.configDir := configDir;
      this.hasDeviceManager := hasDeviceManager;
      backgroundProcesses := map[];
      crashTimestamps := map[];
      running := false;
      launches := [];
      terminated := {};
      nextPid := 0;
      imageUpdates := [];
    }

    /** `_trigger_image_update`. */
    method TriggerImageUpdate(dir: string)
      modifies this`imageUpdates
      ensures imageUpdates == old(imageUpdates) + ImageTrigger(hasDeviceManager, dir)
    {
      if !hasDeviceManager {
        return;
      }
      if |dir| >= 2 && IsDigit(dir[0]) && IsDigit(dir[1]) {
        var keyIndex := TwoDigitValue(dir) - 1;
        imageUpdates := imageUpdates + [ImageUpdate(keyIndex, dir)];
      }
    }

    /** `execute_update_script`, with the run's outcome given. */
    method ExecuteUpdateScript(dir: string, fs: Fs, outcome: RunOutcome)
      modifies this`launches, this`imageUpdates
      ensures State() == ExecuteUpdate(configDir, hasDeviceManager, fs, dir, outcome, old(State()))
    {
      var folder := Join(configDir, dir);
      if !IsDir(fs, folder) {
        return;
      }
      var found := FindScript(fs, folder, "update");
      if found.Some? {
        if outcome.SpawnFails? {
          return;
        }
        launches := launches + [Launch([found.value.0, found.value.1], folder)];
        if outcome == Finished(0) {
          TriggerImageUpdate(dir);
        }
      }
    }

    /** `stop_background_script`. */
    method StopBackgroundScript(dir: string)
      modifies this`backgroundProcesses, this`terminated
      ensures State() == StopBackground(old(State()), dir)
    {
      if dir in backgroundProcesses {
        var process := backgroundProcesses[dir];
        terminated := terminated + {process.pid};
        backgroundProcesses := backgroundProcesses - {dir};
      }
    }

    /** `start_background_script`, with the spawn's outcome given. */
    method StartBackgroundScript(dir: string, fs: Fs, outcome: RunOutcome)
      modifies this`backgroundProcesses, this`terminated, this`launches, this`nextPid
      ensures State() == StartBackground(configDir, fs, dir, outcome, old(State()))
    {
      var folder := Join(configDir, dir);
      if IsDir(fs, folder) {
        StopBackgroundScript(dir);
        LaunchBackground(dir, folder, fs, outcome);
      }
    }

    /** The lookup and `subprocess.Popen` of `start_background_script`: at most one launch, tracked under the next pid. */
    method LaunchBackground(dir: string, folder: string, fs: Fs, outcome: RunOutcome)
      modifies this`backgroundProcesses, this`launches, this`nextPid
      ensures State() == Track(old(State()), dir, folder, FirstScript(fs, folder, "background"), outcome)
    {
      ghost var s0 := State();
      var found := FindScript(fs, folder, "background");
      if found.Some? && !outcome.SpawnFails? {
        var cmd, script := found.value.0, found.value.1;
        launches, backgroundProcesses, nextPid := launches + [Launch([cmd, script], folder)], backgroundProcesses[dir := Proc(nextPid, Running)], nextPid + 1;
        assert State() == s0.(background := s0.background[dir := Proc(s0.nextPid, Running)],
                              launches := s0.launches + [Launch([cmd, script], folder)],
                              nextPid := s0.nextPid + 1);
      }
    }

    /** `restart_background_script` at time `now`. */
    method RestartBackgroundScript(dir: string, now: int, fs: Fs, outcome: RunOutcome)
      modifies this`crashTimestamps, this`backgroundProcesses, this`terminated, this`launches, this`nextPid
      ensures State() == RestartBackground(configDir, fs, dir, now, outcome, old(State()))
    {
      var history := if dir in crashTimestamps then crashTimestamps[dir] else [];
      history := Recent(history, now) + [now];
      crashTimestamps := crashTimestamps[dir := history];
      if |history| > RestartLimit {
        return;
      }
      StartBackgroundScript(dir, fs, outcome);
    }

    /** `handle_script_change`. */
    method HandleScriptChange(dir: string, scriptType: string, fs: Fs, outcome: RunOutcome)
      modifies this
      ensures State() == ScriptChange(configDir, hasDeviceManager, fs, dir, scriptType, outcome, old(State()))
    {
      if scriptType == "background" {
        StopBackgroundScript(dir);
        crashTimestamps := crashTimestamps[dir := []];
        StartBackgroundScript(dir, fs, outcome);
      } else if scriptType == "update" {
        ExecuteUpdateScript(dir, fs, outcome);
      }
    }

    /** `_execute_update_scripts`. */
    method ExecuteUpdateScripts(fs: Fs, outcomes: string -> RunOutcome)
      modifies this`launches, this`imageUpdates
      ensures State() == UpdateAll(configDir, hasDeviceManager, fs, Listing(fs, configDir), outcomes, old(State()))
    {
      if !IsDir(fs, configDir) {
        return;
      }
      var entries := Listing(fs, configDir);
      var i := 0;
      while i < |entries|
        invariant 0 <= i <= |entries|
        invariant State() == UpdateAll(configDir, hasDeviceManager, fs, entries[..i], outcomes, old(State()))
      {
        var item := entries[i].name;
        assert entries[..i + 1][..i] == entries[..i];
        if IsDir(fs, Join(configDir, item)) && |item| >= 2 && IsDigit(item[0]) && IsDigit(item[1]) {
          ExecuteUpdateScript(item, fs, outcomes(item));
        }
        i := i + 1;
      }
      assert entries[..i] == entries;
    }

    /** `_start_background_scripts`. */
    method StartBackgroundScripts(fs: Fs, outcomes: string -> RunOutcome)
      modifies this`backgroundProcesses, this`terminated, this`launches, this`nextPid
      ensures State() == StartAll(configDir, fs, Listing(fs, configDir), outcomes, old(State()))
    {
      if !IsDir(fs, configDir) {
        return;
      }
      var entries := Listing(fs, configDir);
      var i := 0;
      while i < |entries|
        invariant 0 <= i <= |entries|
        invariant State() == StartAll(configDir, fs, entries[..i], outcomes, old(State()))
      {
        var item := entries[i].name;
        assert entries[..i + 1][..i] == entries[..i];
        if IsDir(fs, Join(configDir, item)) && |item| >= 2 && IsDigit(item[0]) && IsDigit(item[1]) {
          StartBackgroundScript(item, fs, outcomes(item));
        }
        i := i + 1;
      }
      assert entries[..i] == entries;
    }

    /** `start`, with the outcome of every script run given; the monitor thread is `MonitorStep`. */
    method Start(fs: Fs, outcomes: DirRuns)
      modifies this
      ensures State() == Started(configDir, hasDeviceManager, fs, outcomes, old(State()))
    {
      if running {
        return;
      }
      running := true;
      ExecuteUpdateScripts(fs, outcomes.update);
      StartBackgroundScripts(fs, outcomes.background);
    }

    /** `stop`: terminates every tracked process, in whatever order, then clears the table. */
    method Stop()
      modifies this`running, this`backgroundProcesses, this`terminated
      ensures State() == Stopped(old(State()))
    {
      if !running {
        return;
      }
      running := false;
      var table := backgroundProcesses;
      var remaining := table.Keys;
      ghost var asked: set<string> := {};
      while remaining != {}
        invariant remaining + asked == table.Keys && remaining !! asked
        invariant terminated == old(terminated) + set d | d in asked :: table[d].pid
        invariant backgroundProcesses == table && !running
        decreases |remaining|
      {
        var dir :| dir in remaining;
        terminated := terminated + {table[dir].pid};
        remaining := remaining - {dir};
        asked := asked + {dir};
      }
      assert asked == table.Keys;
      assert (set d | d in asked :: table[d].pid) == set d | d in old(backgroundProcesses) :: old(backgroundProcesses)[d].pid;
      backgroundProcesses := map[];
    }

    /** A tracked process is found exited by `poll()`. */
    method ScriptExits(dir: string, code: int)
      requires dir in backgroundProcesses
      modifies this`backgroundProcesses
      ensures backgroundProcesses == old(backgroundProcesses)[dir := Proc(old(backgroundProcesses)[dir].pid, Exited(code))]
    {
      backgroundProcesses := backgroundProcesses[dir := Proc(backgroundProcesses[dir].pid, Exited(code))];
    }

    /** The body of the restart loop of `_monitor_processes` for one crashed dir. */
    method ReapCrashed(dir: string, now: int, fs: Fs, outcome: RunOutcome)
      modifies this`crashTimestamps, this`backgroundProcesses, this`terminated, this`launches, this`nextPid
      ensures State() == Reap(configDir, fs, dir, now, outcome, old(State()))
    {
      ghost var reaped := State().(background := backgroundProcesses - {dir});
      if dir in backgroundProcesses {
        backgroundProcesses := backgroundProcesses - {dir};
      } else {
        assert backgroundProcesses == backgroundProcesses - {dir};
      }
      assert State() == reaped;
      RestartBackgroundScript(dir, now, fs, outcome);
      assert State() == RestartBackground(configDir, fs, dir, now, outcome, reaped);
    }

    /**
     * One pass of `_monitor_processes` at time `now` while running: the
     * exited processes are collected first, then each is removed from the
     * table and restarted with crash protection.
     */
    method MonitorStep(now: int, fs: Fs, outcomes: string -> RunOutcome) returns (ghost order: seq<string>)
      modifies this`crashTimestamps, this`backgroundProcesses, this`terminated, this`launches, this`nextPid
      ensures !old(running) ==> State() == old(State()) && order == []
      ensures old(running) ==> Monitored(configDir, fs, now, outcomes, old(State()), Crashed(old(State())), State())
      ensures old(running) ==> Enumerates(order, {}, Crashed(old(State())))
      ensures old(running) ==> launches == old(launches) + MonitorLaunches(configDir, fs, now, outcomes, old(State()), order)
    {
      order := [];
      if !running {
        return;
      }
      ghost var start := State();
      var crashed := set d | d in backgroundProcesses && backgroundProcesses[d].status.Exited?;
      ghost var all := crashed;
      ghost var done: set<string> := {};
      MonitoredNothing(configDir, fs, now, outcomes, start);
      while crashed != {}
        invariant crashed + done == all && crashed !! done
        invariant Monitored(configDir, fs, now, outcomes, start, done, State())
        invariant Enumerates(order, crashed, all)
        invariant launches == start.launches + MonitorLaunches(configDir, fs, now, outcomes, start, order)
        decreases |crashed|
      {
        var dir :| dir in crashed;
        ghost var cur := State();
        ReapCrashed(dir, now, fs, outcomes(dir));
        MonitoredStep(configDir, fs, now, outcomes, start, done, cur, dir);
        MonitorLaunchesStep(configDir, fs, now, outcomes, start, order, dir, cur.launches, launches);
        EnumeratesStep(order, crashed, all, dir);
        MoveOne(crashed, done, all, dir);
        order := order + [dir];
        crashed := crashed - {dir};
        done := done + {dir};
      }
      assert all == Crashed(start);
    }
  }
}

/**
 * The per-button process manager: the table of tracked processes by
 * script type, script lookup by extension priority, the three start modes
 * (action: fire and forget, update: run and wait, background: tracked),
 * stopping, the crash-protected restart and the status queries.
 */
module Processes {

  import opened Wrappers
  import opened Text
  import opened Paths
  import opened Filesystem
  import opened FileUtils
  import opened Config
  import opened CrashWindow

  /** The last `.`-separated piece of a path, `path.split('.')[-1]`. */
  function Extension(path: string): string
  {
    var pieces := Split(path, '.');
    pieces[|pieces| - 1]
  }

  /** A candidate script path ends in its extension. */
  lemma ExtensionOfCandidate(dir: string, name: string, ext: string)
    requires '.' !in ext
    ensures Extension(Candidate(dir, name, ext)) == ext
  {
    var b := name + "." + ext;
    var p := Candidate(dir, name, ext);
    var head := if StartsWith(b, "/") then name else if dir == [] || EndsWith(dir, "/") then dir + name else dir + "/" + name;
    assert p == head + "." + ext;
    SplitConcat(head, ext, '.');
    SplitNoSep(ext, '.');
  }

  /** The interpreter and path `start_script` would run for a script name, if its file is found. */
  function ScriptCommand(fs: Fs, workingDir: string, scriptName: string): Option<(string, string)>
  {
    match FirstFile(fs, workingDir, scriptName, ScriptExtensions())
    case None => None
    case Some(path) =>
      match Interpreter(Extension(path))
      case None => None
      case Some(cmd) => Some((cmd, path))
  }

  /**
   * A script is found exactly when one of `name.sh`, `name.py`, `name.js`
   * exists; the first of them in that order is run with its interpreter.
   */
  lemma ScriptCommandFirstExtension(fs: Fs, workingDir: string, scriptName: string, k: nat)
    requires k < |SupportedScripts|
    requires IsFile(fs, Candidate(workingDir, scriptName, ScriptExtensions()[k]))
    requires forall j | 0 <= j < k :: !IsFile(fs, Candidate(workingDir, scriptName, ScriptExtensions()[j]))
    ensures ScriptCommand(fs, workingDir, scriptName) == Some((SupportedScripts[k].1, Candidate(workingDir, scriptName, SupportedScripts[k].0)))
  {
    var exts := ScriptExtensions();
    var ext := exts[k];
    var path := Candidate(workingDir, scriptName, ext);
    assert FirstFile(fs, workingDir, scriptName, exts) == Some(path) by {
      FirstFileIndex(fs, workingDir, scriptName, exts, k);
    }
    assert Extension(path) == ext by {
      ExtensionOfCandidate(workingDir, scriptName, ext);
    }
    assert Interpreter(ext) == Some(SupportedScripts[k].1) by {
      assert ext == SupportedScripts[k].0;
    }
  }

  /** With none of the supported extensions present (say only `action.rb`), nothing is run. */
  lemma ScriptCommandNone(fs: Fs, workingDir: string, scriptName: string)
    requires forall j | 0 <= j < |SupportedScripts| :: !IsFile(fs, Candidate(workingDir, scriptName, ScriptExtensions()[j]))
    ensures ScriptCommand(fs, workingDir, scriptName) == None
  {
    FirstFileNone(fs, workingDir, scriptName, ScriptExtensions());
  }

  /** The crash-history key of a script, `"<type>:<name>"`. */
  function CrashKey(scriptType: string, scriptName: string): string
  {
    scriptType + ":" + scriptName
  }

  class ProcessManager {

    const workingDir: string
    /** Tracked processes by script type. */
    var processes: map<string, Proc>
    /** Restart timestamps by crash key. */
    var crashTimestamps: map<string, seq<int>>
    /** Every process launched, in order. */
    var launches: seq<Launch>
    /** The pids asked to terminate. */
    var terminated: set<nat>
    /** The pid the next launched process gets. */
    var nextPid: nat

    /** Only background scripts are ever tracked, each under a pid already handed out. */
    ghost predicate Valid()
      reads this
    {
      processes.Keys <= {"background"} && forall t | t in processes :: processes[t].pid < nextPid
    }

    constructor(workingDir: string)
      ensures Valid() && this.workingDir == workingDir
      ensures processes == map[] && crashTimestamps == map[] && launches == [] && terminated == {} && nextPid == 0
    {
      this.workingDir := workingDir;
      processes := map[];
      crashTimestamps := map[];
      launches := [];
      terminated := {};
      nextPid := 0;
    }

    /** `is_running`: the type is tracked and its process has not exited. */
    function IsRunning(scriptType: string): (r: bool)
      reads this
      ensures r <==> scriptType in processes && processes[scriptType].status.Running?
    {
      scriptType in processes && processes[scriptType].status == Running
    }

    /** `get_exit_code`: the exit code of a tracked process that has exited; `None` otherwise. */
    function GetExitCode(scriptType: string): (r: Option<int>)
      reads this
      ensures scriptType !in processes ==> r == None
      ensures scriptType in processes ==> (r == None <==> IsRunning(scriptType))
      ensures r.Some? ==> processes[scriptType].status == Exited(r.value)
    {
      if scriptType !in processes then None
      else match processes[scriptType].status
        case Running => None
        case Exited(code) => Some(code)
    }

    /** No script type both runs and has an exit code. */
    lemma RunningHasNoExitCode(scriptType: string)
      ensures !(IsRunning(scriptType) && GetExitCode(scriptType).Some?)
    {
    }

    /** `_find_script_file`: the first of `name.sh`, `name.py`, `name.js` that is a file. */
    method FindScriptFile(scriptName: string, fs: Fs) returns (path: Option<string>)
      ensures path == FirstFile(fs, workingDir, scriptName, ScriptExtensions())
    {
      var exts := ScriptExtensions();
      var i := 0;
      while i < |exts|
        invariant 0 <= i <= |exts|
        invariant FirstFile(fs, workingDir, scriptName, exts[i..]) == FirstFile(fs, workingDir, scriptName, exts)
      {
        var candidate := Join(workingDir, scriptName + "." + exts[i]);
        if IsFile(fs, candidate) {
          return Some(candidate);
        }
        assert exts[i..][1..] == exts[i + 1..];
        i := i + 1;
      }
      return None;
    }

    /** The lookup half of `start_script`: the script file and the interpreter for its extension. */
    method FindCommand(scriptName: string, fs: Fs) returns (command: Option<(string, string)>)
      ensures command == ScriptCommand(fs, workingDir, scriptName)
    {
      var scriptPath := FindScriptFile(scriptName, fs);
      if scriptPath.None? {
        return None;
      }
      var cmd := Interpreter(Extension(scriptPath.value));
      if cmd.None? {
        return None;
      }
      return Some((cmd.value, scriptPath.value));
    }

    /** `stop_script`: terminates the type's process if it still runs; the record is removed in any case. */
    method StopScript(scriptType: string)
      requires Valid()
      modifies this`processes, this`terminated
      ensures Valid()
      ensures processes == old(processes) - {scriptType}
      ensures terminated == if old(IsRunning(scriptType)) then old(terminated) + {old(processes)[scriptType].pid} else old(terminated)
    {
      if scriptType in processes {
        var process := processes[scriptType];
        if process.status == Running {
          terminated := terminated + {process.pid};
        }
        processes := processes - {scriptType};
      }
    }

    /** Whether `start_script` reports success, given whether the script was a running background one. */
    function StartSucceeds(scriptType: string, scriptName: string, fs: Fs, outcome: RunOutcome, keptRunning: bool): bool
    {
      keptRunning ||
      (ScriptCommand(fs, workingDir, scriptName).Some? &&
       (scriptType == "update" ==> outcome == Finished(0)) &&
       (scriptType == "action" || scriptType == "background" ==> !outcome.SpawnFails?))
    }

    /** Whether `start_script` launches a process (it does not when it keeps a running one). */
    function Launches(scriptType: string, scriptName: string, fs: Fs, outcome: RunOutcome): bool
    {
      ScriptCommand(fs, workingDir, scriptName).Some? && scriptType in {"action", "update", "background"} && !outcome.SpawnFails?
    }

    /** Every field holds what it held before. */
    twostate predicate Kept()
      reads this
    {
      processes == old(processes) && crashTimestamps == old(crashTimestamps) && launches == old(launches) &&
      terminated == old(terminated) && nextPid == old(nextPid)
    }

    /** What `start_script` adds to the launch log: the interpreter and the script, run in the working directory, when it launches. */
    function LaunchLog(scriptType: string, scriptName: string, fs: Fs, outcome: RunOutcome): (l: seq<Launch>)
      ensures |l| <= 1 && (l != [] <==> Launches(scriptType, scriptName, fs, outcome))
      ensures l != [] ==> l[0].cwd == workingDir && |l[0].argv| == 2 &&
                          l[0].argv[1] == ScriptCommand(fs, workingDir, scriptName).value.1
    {
      if Launches(scriptType, scriptName, fs, outcome) then
        var command := ScriptCommand(fs, workingDir, scriptName).value;
        [Launch([command.0, command.1], workingDir)]
      else []
    }

    /** The effect of `start_script` on the table, the launches and the pids. */
    twostate predicate StartEffect(scriptType: string, scriptName: string, fs: Fs, outcome: RunOutcome)
      reads this
    {
      if old(scriptType == "background" && IsRunning(scriptType)) then
        processes == old(processes) && launches == old(launches) && terminated == old(terminated) && nextPid == old(nextPid)
      else
        var command := ScriptCommand(fs, workingDir, scriptName);
        var launched := Launches(scriptType, scriptName, fs, outcome);
        terminated == (if old(IsRunning(scriptType)) then old(terminated) + {old(processes)[scriptType].pid} else old(terminated)) &&
        processes == (if launched && scriptType == "background" then (old(processes) - {scriptType})[scriptType := Proc(old(nextPid), Running)]
                      else old(processes) - {scriptType}) &&
        launches == (if launched then old(launches) + [Launch([command.value.0, command.value.1], workingDir)] else old(launches)) &&
        nextPid == (if launched && scriptType == "background" then old(nextPid) + 1 else old(nextPid))
    }

    /**
     * The effect of `stop_script("background")` followed by
     * `start_script("background", name)`: the old process is asked to
     * terminate if it still runs, and the script is launched afresh.
     */
    twostate predicate StopStartEffect(scriptName: string, fs: Fs, outcome: RunOutcome)
      reads this
    {
      terminated == (if old(IsRunning("background")) then old(terminated) + {old(processes)["background"].pid} else old(terminated)) &&
      processes == (if Launches("background", scriptName, fs, outcome) then old(processes)["background" := Proc(old(nextPid), Running)]
                    else old(processes) - {"background"}) &&
      launches == old(launches) + LaunchLog("background", scriptName, fs, outcome) &&
      nextPid == old(nextPid) + |LaunchLog("background", scriptName, fs, outcome)|
    }

    /** `stop_script("background")` then `start_script("background", name)`, as a button does when its background script changes. */
    method StopStart(scriptName: string, fs: Fs, outcome: RunOutcome)
      requires Valid()
      modifies this`processes, this`launches, this`terminated, this`nextPid
      ensures Valid() && StopStartEffect(scriptName, fs, outcome)
    {
      ghost var launched := Launches("background", scriptName, fs, outcome);
      StopScript("background");
      var _ := StartScript("background", scriptName, fs, outcome);
      RestartTable(old(processes), old(nextPid), launched);
    }

    /** Dropping the background record twice and re-adding it is one update of the old table. */
    static lemma RestartTable(table: map<string, Proc>, pid: nat, launched: bool)
      ensures (if launched then (table - {"background"} - {"background"})["background" := Proc(pid, Running)] else table - {"background"} - {"background"}) ==
              (if launched then table["background" := Proc(pid, Running)] else table - {"background"})
    {
      if launched {
        assert (table - {"background"} - {"background"})["background" := Proc(pid, Running)] == table["background" := Proc(pid, Running)];
      } else {
        assert table - {"background"} - {"background"} == table - {"background"};
      }
    }

    /**
     * `start_script`: a running background script is left alone and counts
     * as started. Otherwise the type's old record is stopped, the script is
     * looked up and run in its mode: `action` untracked, `update` waited for
     * (success is exit code 0), `background` tracked as running.
     */
    method StartScript(scriptType: string, scriptName: string, fs: Fs, outcome: RunOutcome) returns (ok: bool)
      requires Valid()
      modifies this`processes, this`launches, this`terminated, this`nextPid
      ensures Valid()
      ensures StartEffect(scriptType, scriptName, fs, outcome)
      ensures scriptType == "background" && old(!IsRunning(scriptType)) ==>
                terminated == old(terminated) && launches == old(launches) + LaunchLog(scriptType, scriptName, fs, outcome) &&
                nextPid == old(nextPid) + |LaunchLog(scriptType, scriptName, fs, outcome)| &&
                processes == if Launches(scriptType, scriptName, fs, outcome) then (old(processes) - {scriptType})[scriptType := Proc(old(nextPid), Running)]
                             else old(processes) - {scriptType}
      ensures ok == StartSucceeds(scriptType, scriptName, fs, outcome, old(scriptType == "background" && IsRunning(scriptType)))
    {
      if scriptType == "background" && IsRunning(scriptType) {
        return true;
      }
      StopScript(scriptType);
      var command := FindCommand(scriptName, fs);
      if command.None? {
        return false;
      }
      var argv := [command.value.0, command.value.1];
      if scriptType == "action" {
        if outcome.SpawnFails? {
          return false;
        }
        launches := launches + [Launch(argv, workingDir)];
      } else if scriptType == "update" {
        if outcome.SpawnFails? {
          return false;
        }
        launches := launches + [Launch(argv, workingDir)];
        return outcome == Finished(0);
      } else if scriptType == "background" {
        if outcome.SpawnFails? {
          return false;
        }
        launches := launches + [Launch(argv, workingDir)];
        processes := processes[scriptType := Proc(nextPid, Running)];
        nextPid := nextPid + 1;
      }
      return true;
    }

    /** The crash history a restart of this script would start from. */
    function CrashHistory(key: string): seq<int>
      reads this
    {
      if key in crashTimestamps then crashTimestamps[key] else []
    }

    /**
     * `restart_script` at time `now`: records the restart in the script's
     * window and gives up when that leaves more than 5 entries; otherwise
     * starts the script (the 2 s pause before it is not modelled).
     */
    method RestartScript(scriptType: string, scriptName: string, now: int, fs: Fs, outcome: RunOutcome) returns (ok: bool)
      requires Valid()
      modifies this`crashTimestamps, this`processes, this`launches, this`terminated, this`nextPid
      ensures Valid()
      ensures crashTimestamps == old(crashTimestamps)[CrashKey(scriptType, scriptName) := Recorded(old(CrashHistory(CrashKey(scriptType, scriptName))), now)]
      ensures !Allowed(old(CrashHistory(CrashKey(scriptType, scriptName))), now) ==>
                !ok && processes == old(processes) && launches == old(launches) && terminated == old(terminated) && nextPid == old(nextPid)
      ensures Allowed(old(CrashHistory(CrashKey(scriptType, scriptName))), now) ==>
                StartEffect(scriptType, scriptName, fs, outcome) &&
                ok == StartSucceeds(scriptType, scriptName, fs, outcome, old(scriptType == "background" && IsRunning(scriptType)))
    {
      var key := CrashKey(scriptType, scriptName);
      var history := Recent(CrashHistory(key), now) + [now];
      crashTimestamps := crashTimestamps[key := history];
      if |history| > RestartLimit {
        return false;
      }
      ok := StartScript(scriptType, scriptName, fs, outcome);
    }

    /** `cleanup`: stops every tracked type, leaving the table empty. */
    method Cleanup()
      requires Valid()
      modifies this`processes, this`terminated
      ensures Valid() && processes == map[]
      ensures terminated == old(terminated) + set t | t in old(processes) && old(processes)[t].status.Running? :: old(processes)[t].pid
    {
      var types := processes.Keys;
      while types != {}
        invariant Valid() && types == processes.Keys && processes.Keys <= old(processes).Keys
        invariant forall t | t in processes :: processes[t] == old(processes)[t]
        invariant terminated == old(terminated) + set t | t in old(processes) && t !in processes && old(processes)[t].status.Running? :: old(processes)[t].pid
        decreases |types|
      {
        var t :| t in types;
        StopScript(t);
        types := types - {t};
      }
    }

    /** A tracked process ends on its own with an exit code (the environment's step). */
    method ProcessExits(scriptType: string, code: int)
      requires Valid()
      modifies this`processes
      ensures Valid()
      ensures processes == if old(IsRunning(scriptType)) then old(processes)[scriptType := Proc(old(processes)[scriptType].pid, Exited(code))] else old(processes)
    {
      if IsRunning(scriptType) {
        processes := processes[scriptType := Proc(processes[scriptType].pid, Exited(code))];
      }
    }
  }
}

/**
 * One button: its working directory, its process manager and the running
 * flag, with the lifecycle operations and one step of the background
 * monitor. Each step that may launch a script takes the filesystem
 * snapshot and the outcome of that launch as inputs.
 */
module Buttons {

  import opened Wrappers
  import opened Paths
  import opened Filesystem
  import opened FileUtils
  import opened CrashWindow
  import opened Processes

  class Button {

    const workingDir: string
    var processManager: ProcessManager
    var running: bool

    ghost predicate Valid()
      reads this, processManager
    {
      processManager.Valid() && processManager.workingDir == workingDir
    }

    constructor(workingDir: string)
      ensures Valid() && this.workingDir == workingDir && !running && fresh(processManager)
      ensures processManager.processes == map[] && processManager.crashTimestamps == map[] && processManager.launches == []
      ensures processManager.terminated == {} && processManager.nextPid == 0
    {
      this.workingDir := workingDir;
      processManager := new ProcessManager(workingDir);
      running := false;
    }

    /** `load_config`: fails for a missing directory; otherwise runs the update script and succeeds whatever it returns. */
    method LoadConfig(fs: Fs, outcome: RunOutcome) returns (loaded: bool)
      requires Valid()
      modifies processManager`processes, processManager`launches, processManager`terminated, processManager`nextPid
      ensures Valid() && loaded == IsDir(fs, workingDir)
      ensures !loaded ==> unchanged(processManager)
      ensures loaded ==> processManager.StartEffect("update", "update", fs, outcome)
    {
      if !IsDir(fs, workingDir) {
        return false;
      }
      var _ := processManager.StartScript("update", "update", fs, outcome);
      return true;
    }

    /** What `load_config` does to the process manager: `start_script("update")` when the directory exists, nothing otherwise. */
    twostate predicate LoadConfigEffect(fs: Fs, outcome: RunOutcome)
      reads this, processManager
    {
      processManager == old(processManager) &&
      if IsDir(fs, workingDir) then processManager.StartEffect("update", "update", fs, outcome) else processManager.Kept()
    }

    /** `start`: nothing when running; otherwise sets the flag and starts the background script unless it runs. */
    method Start(fs: Fs, outcome: RunOutcome)
      requires Valid()
      modifies this`running, processManager`processes, processManager`launches, processManager`terminated, processManager`nextPid
      ensures Valid() && running
      ensures old(running) || old(processManager.IsRunning("background")) ==> unchanged(processManager)
      ensures !old(running) && !old(processManager.IsRunning("background")) ==> processManager.StartEffect("background", "background", fs, outcome)
    {
      if running {
        return;
      }
      running := true;
      if !processManager.IsRunning("background") {
        var _ := processManager.StartScript("background", "background", fs, outcome);
      }
    }

    /**
     * What `stop` has done since the previous state: the button is stopped
     * with the same process manager; a running button had its table
     * emptied and the pid of each running process terminated, and a
     * stopped one kept its table and terminations.
     */
    twostate predicate StoppedSince()
      reads this, processManager
    {
      !running && processManager == old(processManager) &&
      if old(running) then
        processManager.processes == map[] &&
        processManager.terminated == old(processManager.terminated) +
          set t | t in old(processManager.processes) && old(processManager.processes)[t].status.Running? :: old(processManager.processes)[t].pid
      else
        processManager.processes == old(processManager.processes) && processManager.terminated == old(processManager.terminated)
    }

    /** `stop`: nothing when stopped; otherwise clears the flag and stops every tracked process once. */
    method Stop()
      requires Valid()
      modifies this`running, processManager`processes, processManager`terminated
      ensures Valid() && !running
      ensures !old(running) ==> unchanged(processManager)
      ensures old(running) ==> processManager.processes == map[]
      ensures old(running) ==>
                processManager.terminated == old(processManager.terminated) +
                  set t | t in old(processManager.processes) && old(processManager.processes)[t].status.Running? :: old(processManager.processes)[t].pid
      ensures StoppedSince()
    {
      if !running {
        return;
      }
      running := false;
      processManager.Cleanup();
    }

    /**
     * What a button holds once `load_config` and `start` have run on a
     * fresh process manager whose log was `log`: it is running, its manager
     * has launched the update script (when the directory exists) and then
     * the background script, each exactly when it could, and tracks the
     * background script under the first pid.
     */
    ghost predicate StartedAfter(log: seq<Launch>, fs: Fs, updateOutcome: RunOutcome, backgroundOutcome: RunOutcome)
      reads this, processManager
    {
      var launched := processManager.Launches("background", "background", fs, backgroundOutcome);
      running && processManager.crashTimestamps == map[] && processManager.terminated == {} &&
      processManager.processes == (if launched then map["background" := Proc(0, Running)] else map[]) &&
      processManager.launches ==
        log + (if IsDir(fs, workingDir) then processManager.LaunchLog("update", "update", fs, updateOutcome) else []) +
        processManager.LaunchLog("background", "background", fs, backgroundOutcome) &&
      processManager.nextPid == (if launched then 1 else 0)
    }

    /** A new button on an existing directory after `load_config` and `start`: `StartedAfter` an empty log. */
    ghost predicate NewlyStarted(fs: Fs, updateOutcome: RunOutcome, backgroundOutcome: RunOutcome)
      reads this, processManager
    {
      IsDir(fs, workingDir) && StartedAfter([], fs, updateOutcome, backgroundOutcome)
    }

    /** `reload`: stop, a fresh process manager, load the configuration, start. */
    method Reload(fs: Fs, updateOutcome: RunOutcome, backgroundOutcome: RunOutcome)
      requires Valid()
      modifies this, processManager
      ensures Valid() && fresh(processManager)
      ensures old(running) ==> old(processManager).processes == map[]
      ensures old(running) ==>
                old(processManager).terminated == old(processManager.terminated) +
                  set t | t in old(processManager.processes) && old(processManager.processes)[t].status.Running? :: old(processManager.processes)[t].pid
      ensures !old(running) ==> old(processManager).processes == old(processManager.processes) && old(processManager).terminated == old(processManager.terminated)
      ensures StartedAfter([], fs, updateOutcome, backgroundOutcome)
    {
      Stop();
      ghost var stopped, table, killed := processManager, processManager.processes, processManager.terminated;
      processManager := new ProcessManager(workingDir);
      LoadAndStart(fs, updateOutcome, backgroundOutcome);
      assert stopped.processes == table && stopped.terminated == killed;
    }

    /** The second half of `reload`, on a stopped button with a new process manager. */
    method LoadAndStart(fs: Fs, updateOutcome: RunOutcome, backgroundOutcome: RunOutcome)
      requires Valid() && !running
      requires processManager.processes == map[] && processManager.crashTimestamps == map[]
      requires processManager.terminated == {} && processManager.nextPid == 0
      modifies this`running, processManager`processes, processManager`launches, processManager`terminated, processManager`nextPid
      ensures Valid() && StartedAfter(old(processManager.launches), fs, updateOutcome, backgroundOutcome)
    {
      ghost var none: map<string, Proc> := map[];
      ghost var update := if IsDir(fs, workingDir) then processManager.LaunchLog("update", "update", fs, updateOutcome) else [];
      var _ := LoadConfig(fs, updateOutcome);
      assert none - {"update"} == none;
      assert processManager.processes == none && processManager.terminated == {} && processManager.nextPid == 0;
      assert processManager.launches == old(processManager.launches) + update;
      ghost var loaded := processManager.launches;
      Start(fs, backgroundOutcome);
      assert none - {"background"} == none;
      assert processManager.launches == loaded + processManager.LaunchLog("background", "background", fs, backgroundOutcome);
    }

    /** `handle_press`: runs the action script once. */
    method HandlePress(fs: Fs, outcome: RunOutcome)
      requires Valid()
      modifies processManager`processes, processManager`launches, processManager`terminated, processManager`nextPid
      ensures Valid()
      ensures processManager.StartEffect("action", "action", fs, outcome)
    {
      var _ := processManager.StartScript("action", "action", fs, outcome);
    }

    /** `_find_image_file`: the first `image.*` file or link in the working directory. */
    function FindImageFile(fs: Fs): (r: Option<string>)
      ensures r.Some? <==> IsDir(fs, workingDir) && exists j | 0 <= j < |fs.dirs[workingDir]| :: AnyFileMatch(fs.dirs[workingDir][j], "image")
      ensures r.Some? ==> exists i | 0 <= i < |fs.dirs[workingDir]| ::
                            r.value == Join(workingDir, fs.dirs[workingDir][i].name) && AnyFileMatch(fs.dirs[workingDir][i], "image")
    {
      FindAnyFile(fs, workingDir, "image")
    }

    /** `handle_script_change`: `background` is stopped then started, `update` is run, anything else is ignored. */
    method HandleScriptChange(scriptType: string, fs: Fs, outcome: RunOutcome)
      requires Valid()
      modifies processManager`processes, processManager`launches, processManager`terminated, processManager`nextPid
      ensures Valid()
      ensures scriptType != "background" && scriptType != "update" ==> unchanged(processManager)
      ensures scriptType == "update" ==> processManager.StartEffect("update", "update", fs, outcome)
      ensures scriptType == "background" ==> processManager.StopStartEffect("background", fs, outcome)
    {
      if scriptType == "background" {
        processManager.StopStart("background", fs, outcome);
      } else if scriptType == "update" {
        var _ := processManager.StartScript("update", "update", fs, outcome);
      }
    }

    /** The monitor's restart test as written: the background script is running and has an exit code. */
    predicate RestartTestAsWritten()
      reads this, processManager
    {
      processManager.IsRunning("background") && processManager.GetExitCode("background").Some?
    }

    /** The test as written never holds: a running script has no exit code, so a crash is never restarted. */
    lemma RestartTestAsWrittenNeverHolds()
      ensures !RestartTestAsWritten()
    {
      processManager.RunningHasNoExitCode("background");
    }

    /** The intended test: the tracked background script has exited. */
    predicate RestartTest()
      reads this, processManager
    {
      !processManager.IsRunning("background") && processManager.GetExitCode("background").Some?
    }

    /** The intended test holds exactly when the background script is tracked and has exited. */
    lemma RestartTestExactlyExited()
      ensures RestartTest() <==> "background" in processManager.processes && processManager.processes["background"].status.Exited?
    {
    }

    /** One pass of `_monitor_background` as written: it never restarts anything. */
    method MonitorStepAsWritten(now: int, fs: Fs, outcome: RunOutcome)
      requires Valid()
      modifies processManager`crashTimestamps, processManager`processes, processManager`launches, processManager`terminated, processManager`nextPid
      ensures Valid() && unchanged(processManager)
    {
      if running && processManager.IsRunning("background") {
        var exitCode := processManager.GetExitCode("background");
        if exitCode.Some? {
          RestartTestAsWrittenNeverHolds();
          assert false;
        }
      }
    }

    /** One pass of the monitor with the intended test: an exited background script is restarted under the crash window. */
    method MonitorStep(now: int, fs: Fs, outcome: RunOutcome)
      requires Valid()
      modifies processManager`crashTimestamps, processManager`processes, processManager`launches, processManager`terminated, processManager`nextPid
      ensures Valid()
      ensures !old(running && RestartTest()) ==> unchanged(processManager)
      ensures old(running && RestartTest()) ==>
                var key := CrashKey("background", "background");
                processManager.crashTimestamps == old(processManager.crashTimestamps)[key := Recorded(old(processManager.CrashHistory(key)), now)] &&
                (Allowed(old(processManager.CrashHistory(key)), now) ==> processManager.StartEffect("background", "background", fs, outcome)) &&
                (!Allowed(old(processManager.CrashHistory(key)), now) ==>
                   processManager.processes == old(processManager.processes) && processManager.launches == old(processManager.launches) &&
                   processManager.terminated == old(processManager.terminated) && processManager.nextPid == old(processManager.nextPid))
    {
      if running && !processManager.IsRunning("background") {
        var exitCode := processManager.GetExitCode("background");
        if exitCode.Some? {
          var _ := processManager.RestartScript("background", "background", now, fs, outcome);
        }
      }
    }
  }
}

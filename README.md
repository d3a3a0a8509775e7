# deckfs, modelled in Dafny

deckfs is a daemon that drives a Stream Deck from a configuration directory. Each key `n` has a folder directly below that directory whose name starts with the two digits of `n` (`01_light`, `12_clock`). The folder may hold an `image.*` file and `action`, `update` and `background` scripts (`.sh`, `.py` or `.js`, tried in that order). A press runs the action script. The update script runs when the button loads. The background script is kept running and is restarted after a crash, at most 5 times in 300 seconds.

This project models the daemon's decision logic, one module per part of it:

- **`EventBus`**: the event bus with subscriber lists per event type and debouncing by key. A timer's firing is an explicit step.
- **`FileWatch`**: the file watcher's classification of paths into debounce keys, button directories and configuration events.
- **`FileUtils`**: the two lookup helpers: the first file by extension priority, and the first entry in listing order.
- **`CrashWindow` and `Processes`**: the per-button process manager, with its table of tracked processes by script type and its crash window.
- **`Buttons`**: one button's lifecycle: running flag, start, stop, reload, key press, script change and one step of the background monitor.
- **`ButtonMaps`, `ButtonPaths`, `Coordination` and `Devices`**: the id-to-button map kept by the coordinator and by the older deck manager.
  - It changes on connect, disconnect, reload and directory changes.
  - It relies on mapping a path to a button id and on finding a button's working directory.
- **`Hardware`**: the device session: the optional deck, its health test, one pass of the monitor loop, connect, disconnect, the key callback and USB event classification.
- **`Config`**: the `config.yaml` merge with its cache, the brightness clamp, the `env.local` parser and the shared configuration instance.
- **`ScriptManagement`**: the older configuration-wide script manager. The manager's whole state is a value, and each method is proved to produce a specification function of the old state.
- **`ImageEvents`**: the older image change handler.
- **`ImageFrames`**: the frame protocol of the load-average example, with a frame reader written as its partner and a round-trip proof.

Supporting modules:

- `Wrappers` gives `Option`.
- `Text` gives digits, stripping and decimal rendering.
- `Paths` gives `posixpath` semantics on strings: `split`, `join`, `relpath`, `basename` and `dirname`.
- `Filesystem` gives a read-only snapshot of directory listings in `os.listdir` order.

Every outside fact is an input:

- the filesystem snapshot;
- the clock, as integer seconds;
- how a launched script turns out (`RunOutcome`);
- the devices enumeration finds, and the deck's answers to `connected()` and `is_open()`;
- the prepared images.

What the code does to the world is appended to logs: deliveries, launches, terminations, device writes and notices.

## Model

| member | source | states |
|---|---|---|
| EventBus.Calls | src/utils/debouncer.py:82-86 | one delivery per handler, in list order, each with the event and marked raised exactly when that handler raises; a raising handler does not stop the ones after it |
| EventBus.FirstIndex | src/utils/debouncer.py:52 | the first position holding the handler, and the list's length exactly when the handler is absent |
| EventBus.RemoveFirst | src/utils/debouncer.py:51-53 | `list.remove` behind the `in` test: an absent handler leaves the list alone; otherwise exactly the first occurrence goes, the multiset losing one copy |
| EventBus.EmitKeys | src/utils/debouncer.py:97-101 | the keys of a series of keyed emits are exactly the keys used |
| EventBus.PendingAfter | src/utils/debouncer.py:100-101 | after a series of keyed emits the pending keys are the old ones plus those used |
| EventBus.PendingLastWins | src/utils/debouncer.py:100-101 | the pending event for a key is the last one emitted with it |
| EventBus.PendingOtherKeys | src/utils/debouncer.py:95-110 | a key no emit used keeps its pending event, or stays without one |
| EventBus.RescheduleKeepsTimersValid | src/utils/debouncer.py:96-110 | cancelling the key's timer and scheduling a fresh one keeps every live timer uncancelled and their serials distinct |
| EventBus.Debouncer.constructor | src/utils/debouncer.py:22-32 | the given interval; no subscribers, pending events or timers |
| EventBus.Debouncer.Subscribe | src/utils/debouncer.py:34-42 | the handler is appended to the end of its event type's list; nothing else changes |
| EventBus.Debouncer.Unsubscribe | src/utils/debouncer.py:44-53 | the first occurrence of the handler is removed from its type's list; an absent handler changes nothing |
| EventBus.Debouncer.EmitEvent | src/utils/debouncer.py:72-86 | the deliveries grow by one call per current subscriber of the event's type, in order, whether or not some raise |
| EventBus.Debouncer.DebounceEvent | src/utils/debouncer.py:88-110 | the key's pending event is replaced by this one; its old timer, if any, is cancelled; exactly one new timer with the bus interval is scheduled for it |
| EventBus.Debouncer.Emit | src/utils/debouncer.py:55-70 | without a key the event is delivered now to every subscriber; with a key it is only made pending, nothing delivered |
| EventBus.Debouncer.Fire | src/utils/debouncer.py:112-124 | the key loses its pending event and its timer; the popped event, if there was one, is delivered to its subscribers, and nothing is delivered otherwise |
| EventBus.Debouncer.CancelAll | src/utils/debouncer.py:129-130 | every given timer ends up cancelled |
| EventBus.Debouncer.Shutdown | src/utils/debouncer.py:126-133 | every live timer is cancelled; timers, pending events and subscribers are all empty afterwards |
| FileWatch.FileTypeOf | src/core/files.py:182-186 | a kind is found only when the name starts with it and a dot, and none is found exactly when the name starts with no watched kind and a dot |
| FileWatch.FileTypeUnique | src/core/files.py:166-184 | a name starting with `<kind>.` for a watched kind gets that kind, so the order of the kinds cannot matter |
| FileWatch.KeyForButtonFile | src/core/files.py:166-184 | a file at `<dir>/<name>` or deeper below the root, with two leading digits on `dir` and `name` starting with `<kind>.`, gets the key `<dir>:<kind>` |
| FileWatch.NoKeyAtTopLevel | src/core/files.py:167-171 | the root itself and a file directly in it (`config.yaml` among them) have fewer than two parts and get no key |
| FileWatch.NoKeyOutsideButtonDirs | src/core/files.py:177-179 | a file under a directory without two leading digits gets no key |
| FileWatch.NoKeyForOtherNames | src/core/files.py:182-186 | a file whose name starts with none of the watched kinds and a dot (`draw.py`, `config.yaml`) gets no key |
| FileWatch.NoKeyOutsideRoot | src/core/files.py:167-179 | a path outside the root gets no key, its first relative part being `..` |
| FileWatch.NoKeyForBlankPath | src/core/files.py:162-164 | an empty or all-whitespace path gets no key |
| FileWatch.ButtonDirectoryNames | src/core/files.py:144-184 | `01_test`, `001_too_many` and `01-dash` pass the two-digit test; `1_invalid`, `ab_letters` and `_01_prefix` do not |
| FileWatch.IsButtonDirectoryEventExactly | src/core/files.py:133-154 | a directory path is a button directory exactly when it is a direct child of the root whose name has two leading digits |
| FileWatch.FileEmission | src/core/files.py:57-94 | `opened`, `closed_no_write` and empty paths give nothing; the configuration file gives only CONFIG_CHANGED under `config_yaml`; any other path gives FILE_CHANGED exactly under its debounce key, and nothing when it has none, with data `path`, `event_type` and `src_path`, the path being `dest_path` when present |
| FileWatch.DirectoryEmission | src/core/files.py:96-131 | an emission exactly when the event is not `modified` and its source, or its non-empty destination, is a button directory; then BUTTON_DIRECTORIES_CHANGED under `button_directories` with the event's type and paths |
| FileWatch.FileWatcher.constructor | src/core/files.py:17-28 | the given bus and root, `config.yaml` in the root as configuration file, no observer |
| FileWatch.FileWatcher.StartWatching | src/core/files.py:30-37 | a running observer is kept; otherwise exactly one new observer is started |
| FileWatch.FileWatcher.StopWatching | src/core/files.py:39-44 | no observer afterwards, and stopping a stopped watcher changes nothing |
| FileWatch.FileWatcher.HandleDirectoryEvent | src/core/files.py:96-131 | a qualifying event is pending under `button_directories` with a timer of 1.0 s, the previous timer for that key cancelled, and the bus's interval is 0.5 s afterwards whatever it was; any other event leaves the bus unchanged; nothing is delivered |
| FileWatch.FileWatcher.OnAnyEvent | src/core/files.py:46-94 | the bus gets exactly the emission the routing asks for, a directory event with the 1.0 s timer and a file event with the bus's current interval; an event the routing drops leaves the bus unchanged |
| FileUtils.FirstFile | src/utils/file_utils.py:21-25 | a found path is a file and is `prefix.ext` in the directory for one of the extensions |
| FileUtils.FindFile | src/utils/file_utils.py:7-25 | `None` for a missing directory or an empty extension list; a found path is an existing `prefix.ext` for one of the extensions |
| FileUtils.FirstFileIndex | src/utils/file_utils.py:21-24 | the extension found is the first one, in list order, whose file exists |
| FileUtils.FirstFileNone | src/utils/file_utils.py:21-25 | with no candidate a file, nothing is found |
| FileUtils.FindFileFirstMatch | src/utils/file_utils.py:18-25 | in an existing directory: nothing found when no candidate exists, else exactly the first existing one in list order |
| FileUtils.FindFileExactName | src/utils/file_utils.py:22-23 | a found file lies in the directory, is named exactly `prefix.ext` (same case, same spelling) and is a file there, so `action-test.py` or `Action.py` never match `action` |
| FileUtils.FirstMatchIndex | src/utils/file_utils.py:41-45 | the index of the first entry named `prefix.*` that is a file or a link; no earlier entry matches |
| FileUtils.FindAnyFile | src/utils/file_utils.py:28-46 | `None` for a missing directory or when no entry matches; otherwise the path of the first matching entry in listing order, directories skipped |
| CrashWindow.Recent | src/core/processes.py:129-132 | every kept timestamp is younger than 300 s and every such timestamp is kept (order and repeats by `RecentSingle` and `RecentConcat`) |
| CrashWindow.RecentSingle | src/core/processes.py:129-132 | one timestamp is kept exactly when it is younger than 300 s |
| CrashWindow.RecentConcat | src/core/processes.py:129-132 | the window of a concatenation is the concatenation of the windows, so the kept timestamps stay in order with their repeats |
| CrashWindow.Recorded | src/core/processes.py:129-135 | `now` is the last entry after a restart is recorded |
| CrashWindow.RecentKeepsYoung | src/core/processes.py:129-132 | when every timestamp is inside the window, none is dropped |
| CrashWindow.RecentDropsOld | src/core/processes.py:129-132 | when every timestamp is at least 300 s old, all are dropped |
| CrashWindow.OldCrashesForgotten | src/core/processes.py:129-140 | after a quiet window the history restarts as `[now]` and the restart is allowed |
| CrashWindow.BurstKeepsAll | src/core/processes.py:129-135 | restarts all within one window keep every timestamp, in order |
| CrashWindow.BurstAllowsFive | src/core/processes.py:137-140 | within one window the k-th restart goes ahead exactly when k < 5: five succeed and the sixth is refused |
| Processes.ScriptCommandFirstExtension | src/core/processes.py:46-55 | when `name.<ext>` is the first existing candidate in sh, py, js order, `start_script` runs it with that extension's interpreter |
| Processes.ScriptCommandNone | src/core/processes.py:46-48 | with none of `name.sh`, `name.py`, `name.js` present (say only `action.rb`), nothing is run |
| Processes.ExtensionOfCandidate | src/core/processes.py:51 | `split('.')[-1]` of a candidate path is the extension it was built with |
| Processes.ProcessManager.constructor | src/core/processes.py:15-26 | the given working directory, no processes and no crash history |
| Processes.ProcessManager.IsRunning | src/core/processes.py:146-158 | running exactly when the type is tracked and its process has not exited |
| Processes.ProcessManager.GetExitCode | src/core/processes.py:160-172 | `None` for an untracked type; for a tracked type `None` exactly when it is running, else its exit code |
| Processes.ProcessManager.RunningHasNoExitCode | src/core/processes.py:155-172 | no type both runs and has an exit code |
| Processes.ProcessManager.FindScriptFile | src/core/processes.py:180-195 | the search loop returns the first existing `name.<ext>` in sh, py, js order, or `None` |
| Processes.ProcessManager.FindCommand | src/core/processes.py:45-55 | the script path and its interpreter, or `None` when no script or no interpreter is found |
| Processes.ProcessManager.StopScript | src/core/processes.py:92-112 | the type's record is always removed; a still-running process is asked to terminate; an untracked type changes nothing |
| Processes.ProcessManager.StartScript | src/core/processes.py:28-90 | a running background script is kept and reported started with nothing launched; otherwise the old record goes, at most one launch happens, only background is tracked, and success means found and spawned, and for `update` exit code 0 |
| Processes.ProcessManager.StopStart | src/core/button.py:96-98 | `stop_script("background")` then `start_script`: a running background process is terminated, the table then tracks the new background process under the next pid exactly when it launched, and at most one launch is logged |
| Processes.ProcessManager.RestartScript | src/core/processes.py:114-144 | the `"<type>:<name>"` history keeps the timestamps younger than 300 s plus `now`; above 5 entries it reports failure and the table, launches and pids are unchanged; otherwise it is `start_script` |
| Processes.ProcessManager.Cleanup | src/core/processes.py:174-178 | every tracked type is stopped, leaving the table empty, and exactly the running ones are asked to terminate |
| Processes.ProcessManager.ProcessExits | src/core/processes.py:155-172 | a running tracked process ends with the given exit code as `poll()` then reports it; nothing else changes |
| Buttons.Button.constructor | src/core/button.py:13-26 | a stopped button for the directory with a new process manager that has no processes, no crash history, no launches, no terminations and pid counter 0 |
| Buttons.Button.LoadConfig | src/core/button.py:28-39 | fails, touching nothing, for a missing directory; otherwise runs the update script and succeeds whatever the script returned |
| Buttons.Button.Start | src/core/button.py:50-63 | running afterwards; nothing else happens when already running or when the background script runs; otherwise `start_script("background")` |
| Buttons.Button.Stop | src/core/button.py:65-75 | stopped afterwards; nothing else happens when already stopped; otherwise every tracked process is stopped once, leaving the table empty |
| Buttons.Button.Reload | src/core/button.py:41-48 | a running button was stopped: its old manager asked to terminate exactly the pids of its running processes and its table emptied (a stopped one is untouched); then a fresh process manager, and `StartedAfter` an empty log: running, no crash history, nothing terminated, the launches the update script (when the directory exists) then the background script, which is tracked under the first pid exactly when it launched |
| Buttons.Button.LoadAndStart | src/core/button.py:47-48 | on a stopped button with a new manager: `StartedAfter` its old log: running; the update run (when the directory exists) and then the background run are appended to the launches; the background script is tracked under the first pid exactly when it launched |
| Buttons.Button.HandlePress | src/core/button.py:77-79 | `start_script("action")` runs once |
| Buttons.Button.FindImageFile | src/core/button.py:82-88 | found exactly when the working directory exists and holds an entry named `image.*` that is a file or a link; the path found joins such an entry onto the working directory |
| Buttons.Button.HandleScriptChange | src/core/button.py:90-100 | `background` has the stop-then-start effect of `StopStart` on the table, terminations, launches and pids; `update` has the effect of `start_script("update")` and stops nothing; any other type leaves the process manager unchanged |
| Buttons.Button.RestartTestAsWrittenNeverHolds | src/core/button.py:105-107 | the test as written, running and having an exit code, never holds |
| Buttons.Button.RestartTestExactlyExited | src/core/button.py:102-108 | the corrected test holds exactly when the background script is tracked and has exited |
| Buttons.Button.MonitorStepAsWritten | src/core/button.py:102-108 | one pass of the monitor as written leaves the process manager unchanged, whatever has crashed |
| Buttons.Button.MonitorStep | src/core/button.py:102-108 | one pass with the corrected test: when running and the background script has exited, the restart is recorded in the crash window and the script started when allowed; when refused the table, launches, terminations and pid counter are kept; otherwise the process manager is unchanged |
| ButtonMaps.AddNewButton | src/core/coordinator.py:242-244 | a new, stopped button for the directory is stored under the id; the other ids keep their buttons |
| ButtonMaps.LoadedButton | src/core/coordinator.py:102-105 | a new button with a new manager for an existing directory: running, the update run then the background run launched (each exactly when it could), the background script tracked under pid 0 exactly when it launched, no crash history and nothing terminated |
| ButtonMaps.LoadButton | src/core/coordinator.py:248-249 | `load_config` on one button succeeds exactly when its directory exists, and then has the effect of the update run; otherwise its process manager is unchanged; the map stays valid |
| ButtonMaps.StopButton | src/core/coordinator.py:96-97 | the button is stopped as `Buttons.Button.StoppedSince` states (a running button's manager has its table emptied and exactly the pids of its running processes terminated; a stopped button's manager is untouched); every other button and its manager are unchanged |
| ButtonMaps.StartButton | src/core/coordinator.py:69-70 | the button is started, its launches extended by the background run exactly when it was stopped with no background script running; every other button keeps its flag, table and launches |
| ButtonMaps.StopAll | src/core/coordinator.py:232-233 | every button of the map is stopped as `Buttons.Button.StoppedSince` states, each keeping its process manager; none replaced |
| ButtonMaps.StartAll | src/core/coordinator.py:67-70 | every button of the map is started, none of them replaced, and each one's launches are extended by its background run exactly when it was stopped with no background script running |
| Coordination.IdsBelowExactly | src/core/coordinator.py:240-244 | an id is gathered by the loop over `1..bound-1` exactly when it is in range and has a working directory |
| Coordination.WorkingDirsAgree | src/core/coordinator.py:241 | the lookup the loop performs agrees with `find_button_working_dir` for every gathered button |
| Coordination.ButtonIdsExactly | src/core/coordinator.py:236-244 | `_create_buttons` makes a button for an id exactly when `1 <= id <= key_count` and the id has a working directory (so none when `key_count` is 0) |
| Coordination.ErrorWrites | src/core/coordinator.py:205-227 | the error image goes to key `id - 1` when it loads, and nothing is written otherwise |
| Coordination.ImageWrites | src/core/coordinator.py:146-169 | at most one write, always on key `id - 1`: the button's image when it has one, otherwise the error image |
| Coordination.LoadWrites | src/core/coordinator.py:248-253 | one key write at most per visited button, every write a key image on the deck for a visited id, and exactly one per button when the error image loads |
| Coordination.LoadWritesShowEach | src/core/coordinator.py:248-253 | every visited button gets its own image when its directory exists and it has one, and the error image otherwise when that loads |
| Coordination.ReloadWrite | src/core/coordinator.py:100-113 | at most one write, only while connected, a key image on the deck for key `id - 1` |
| Coordination.ReloadWrites | src/core/coordinator.py:281-283 | at most one write per reloaded id, and nothing while disconnected |
| Coordination.ReloadWritesOnlyReloaded | src/core/coordinator.py:281-283 | every write of a reload pass is a key image on the deck for the key of an id in the order |
| Coordination.ReloadWritesShowEach | src/core/coordinator.py:100-113 | while connected, a reloaded id with a directory shows its image when it has one, and one without a directory gets the blank image on its key when that loads and the id is in `1..key_count` |
| Coordination.FileChangeTarget | src/core/coordinator.py:330-348 | a button is refreshed only for a modified/moved/created/closed event on a present non-zero id within `1..key_count`, when `file_changed` answers true and the name starts with `image.`; in every other case nothing is refreshed |
| Coordination.FileChangeRefreshesButtonImage | src/core/coordinator.py:330-348 | a handled event on `image.*` inside a present button's own folder refreshes exactly that button |
| Coordination.NewButtons | src/core/coordinator.py:240-244 | the loop over `1..key_count` leaves one new, stopped button per id with a working directory, each for that directory |
| Coordination.NewButtonIfConfigured | src/core/coordinator.py:241-244 | one loop step adds a new, stopped button for the id exactly when a working directory is found, and leaves the map alone otherwise |
| Coordination.GatheredAll | src/core/coordinator.py:240-244 | after the last key the gathered ids are exactly `ButtonIds` |
| Coordination.GatheredStep | src/core/coordinator.py:240-244 | visiting one more id keeps the loop invariant: one button per id with a directory, below the bound |
| Coordination.SweptStep | src/core/coordinator.py:281-283 | reloading one id still to do, while every other id keeps its button, moves that id from the pending set to the done set |
| Coordination.Coordinator.constructor | src/core/coordinator.py:21-49 | no buttons, no deck and no observer; the bus has the given interval, with exactly the three handlers subscribed to FILE_CHANGED, BUTTON_DIRECTORIES_CHANGED and CONFIG_CHANGED |
| Coordination.Coordinator.ClearButtons | src/core/coordinator.py:172-203 | writes only while connected and when the blank image loads: every key for no id, otherwise key `id - 1` only when `1 <= id <= key_count` |
| Coordination.Coordinator.ClearAllKeys | src/core/coordinator.py:190-194 | the blank image on keys `0..key_count-1`, in key order |
| Coordination.Coordinator.ShowErrorImage | src/core/coordinator.py:205-227 | only while connected: the error image on key `id - 1` when it loads |
| Coordination.Coordinator.UpdateButtonImage | src/core/coordinator.py:134-169 | nothing when disconnected or when the id has no button; otherwise the button's image or the error image on key `id - 1` |
| Coordination.Coordinator.DropButton | src/core/coordinator.py:96-98 | the id is removed from the map, and its old button, if any, is stopped as `Buttons.Button.StoppedSince` states (table emptied, running pids terminated); the other ids, the deck and the watcher are untouched |
| Coordination.Coordinator.InstallButton | src/core/coordinator.py:102-106 | a new button for the directory is stored under the id and has launched the update run then the background run (`NewlyStarted`); the other ids are untouched; while connected the deck gets `ImageWrites` for the id |
| Coordination.Coordinator.AddButton | src/core/coordinator.py:100-113 | the id gets a new `NewlyStarted` button for its working directory exactly when one is found, shown with `ImageWrites` while connected; otherwise its key is blanked while connected and the blank image loads; the other ids are untouched |
| Coordination.Coordinator.ReloadButton | src/core/coordinator.py:90-113 | the old button is stopped as `Buttons.Button.StoppedSince` states and removed; the id has a new `NewlyStarted` button exactly when a working directory is found, shown with `ImageWrites` while connected; otherwise its key is blanked; every other id keeps its button and the deck is unchanged |
| Coordination.Coordinator.ReloadAffectedButton | src/core/coordinator.py:90-113 | as `ReloadButton`: the old button is stopped as `StoppedSince` states, the id has a new `NewlyStarted` button exactly for its directory, the deck writes are `ReloadWrite` for the id, and every other button keeps its object, process manager and running flag |
| Coordination.Coordinator.SmartReloadAffectedButtons | src/core/coordinator.py:255-283 | each affected id ends with a button exactly when it has a working directory, for that directory, running and none of the old buttons; the old button of each affected id is left stopped; every id outside the affected set keeps its button; the ids are reloaded in an order holding each affected id once, with exactly `ReloadWrites` over it written to the deck |
| Coordination.Coordinator.HandleButtonDirectoriesChanged | src/core/coordinator.py:351-370 | the watcher is stopped and exactly one new observer started; the affected ids of the event fields end as `SmartReloadAffectedButtons` leaves them (running buttons that are none of the old ones, or none without a directory; their old buttons stopped; the other ids kept), with `ReloadWrites` over an order holding each affected id once |
| Coordination.Coordinator.CreateButtons | src/core/coordinator.py:230-244 | every old button is stopped as `Buttons.Button.StoppedSince` states (table emptied, running pids terminated); the keys of the new map are exactly `ButtonIds` for the key count; each button is new, stopped and for its id's working directory |
| Coordination.Coordinator.FillButtons | src/core/coordinator.py:235-244 | the loop on the emptied map for a given key count: keys exactly `ButtonIds` (none for a key count of 0), each button new, stopped, with a new process manager, and for its id's working directory |
| Coordination.Coordinator.LoadAllButtons | src/core/coordinator.py:246-253 | the map is unchanged; the buttons are visited in an order holding each id once; the deck writes are exactly `LoadWrites` for that order while connected: per button its image when its directory exists, else the error image; nothing is written when disconnected |
| Coordination.Coordinator.LoadStep | src/core/coordinator.py:248-253 | one pass of the loop: the button's `load_config` has the effect of the update run exactly when its directory exists, and the deck writes grow by that button's image or error image |
| Coordination.Coordinator.StartButtons | src/core/coordinator.py:67-70 | the map is unchanged, every button is running, and each one's launches are extended by its background run exactly when it was stopped with no background script running |
| Coordination.Coordinator.OnDeviceConnected | src/core/coordinator.py:286-304 | leftover buttons are stopped as `Buttons.Button.StoppedSince` states; the map's keys are exactly `ButtonIds`; every button is new, running and for its id's working directory; the deck writes are the brightness, when set, followed by `LoadWrites` over an order holding each id once |
| Coordination.Coordinator.PrepareForDeck | src/core/coordinator.py:292-299 | leftover buttons are stopped as `Buttons.Button.StoppedSince` states and the map emptied; the configuration is loaded unless cached; the deck gets the brightness when one is set |
| Coordination.Coordinator.ApplyDeckSettings | src/core/coordinator.py:299 | the configuration is loaded unless cached, and the brightness, when set, is written to the deck |
| Coordination.Coordinator.BringUpButtons | src/core/coordinator.py:301-303 | starting from no buttons: the keys are exactly `ButtonIds`, every button is new, running and for its id's directory, and the deck writes are `LoadWrites` over an order holding each id once |
| Coordination.Coordinator.LoadAndStartButtons | src/core/coordinator.py:302-303 | the map is unchanged, every button ends up running, and the deck writes are `LoadWrites` over an order holding each id once |
| Coordination.Coordinator.OnDeviceDisconnected | src/core/coordinator.py:306-313 | every button is stopped as `Buttons.Button.StoppedSince` states (table emptied, running pids terminated) and the map is left empty |
| Coordination.Coordinator.OnKeyPress | src/core/coordinator.py:315-323 | a present button runs its action script; the map is unchanged; an absent id changes nothing |
| Coordination.Coordinator.HandleFileChange | src/core/coordinator.py:325-348 | the only device writes are the image refresh for the button `FileChangeTarget` names; nothing happens otherwise |
| Coordination.Coordinator.HandleConfigChange | src/core/coordinator.py:372-375 | the cache is cleared and, with a deck, refilled from the current settings, whose brightness is written to the deck |
| ButtonPaths.IdOfName | src/core/devices.py:316-320 | a non-zero id only for a name starting with two digits whose value lies in `1..key_count`, and then that value |
| ButtonPaths.ExtractButtonId | src/core/devices.py:303-324 | always 0 or an id in `1..key_count` (so at most 99), and 0 for the empty path |
| ButtonPaths.RelativeFirstComponent | src/core/devices.py:312-313 | the first component of `dir` relative to the configuration directory is the child's name |
| ButtonPaths.ExtractButtonIdOfFile | src/core/devices.py:306-320 | a file `config/dir/name` with a `.` in its name belongs to the button its directory `dir` names |
| ButtonPaths.ExtractButtonIdOfDirectory | src/core/devices.py:306-320 | a child directory without a `.` in its name is the button its own name gives |
| ButtonPaths.ExtractButtonIdOutside | src/core/devices.py:312-324 | a path outside the configuration directory (relative path starting with `..`) belongs to no button |
| ButtonPaths.DirectoryId | src/core/devices.py:338-341 | an entry has an id exactly when it is a directory whose name gives a non-zero in-range id, and the id is its two-digit value |
| ButtonPaths.ButtonDirectories | src/core/devices.py:337-342 | every mapped id is in `1..key_count` and maps to a directory whose name starts with that id's two digits |
| ButtonPaths.ButtonDirectoriesKeys | src/core/devices.py:337-342 | an id is a key exactly when some listing entry is its button directory |
| ButtonPaths.ButtonDirectoriesLastWins | src/core/devices.py:342 | an id maps to the last listing entry that is its button directory |
| ButtonPaths.FindButtonDirectories | src/core/devices.py:326-344 | empty when the configuration directory is missing; otherwise the map `ButtonDirectories` builds from its listing |
| ButtonPaths.FirstWorkingDir | src/core/devices.py:360-364 | a found path joins a matching entry onto the configuration directory; nothing is found exactly when no entry matches |
| ButtonPaths.FirstWorkingDirIsFirst | src/core/devices.py:360-362 | the earliest matching entry in listing order is the one returned |
| ButtonPaths.WorkingDirFor | src/core/devices.py:355-364 | nothing when the configuration directory is missing |
| ButtonPaths.WorkingDirIsDir | src/core/devices.py:361 | a found working directory is a directory |
| ButtonPaths.WorkingDirForTwoDigits | src/core/devices.py:358-362 | for an id below 100, the first listed directory whose name starts with its two digits is found |
| ButtonPaths.FindButtonWorkingDir | src/core/devices.py:346-364 | the search loop returns exactly `WorkingDirFor` |
| ButtonPaths.AffectedIds | src/core/devices.py:268-285 | never 0 and at most two ids: source and destination ids for `moved`; the source id for created/deleted/modified; none for any other type |
| ButtonPaths.AffectedButtons | src/core/devices.py:268-285 | every affected id is a key of the device, in `1..key_count` |
| Devices.FileChangeAction | src/core/devices.py:390-407 | an action only for a present non-zero id; `image.*` refreshes for every event type; `background.*`/`update.*` is a script change of that type only for `modified` |
| Devices.ButtonFileId | src/core/devices.py:393-397 | a file of a button's folder has that folder's id, and its base name is the file's name |
| Devices.ImageChangeRefreshes | src/core/devices.py:399-400 | an `image.*` file of a present button refreshes its image whatever the event type |
| Devices.BackgroundChangeOnlyWhenModified | src/core/devices.py:401-404 | a `background.*` file is a background change exactly for `modified`, and no action otherwise |
| Devices.UpdateChangeOnlyWhenModified | src/core/devices.py:401-407 | an `update.*` file is an update change exactly for `modified`, and no action otherwise |
| Devices.AbsentButtonIgnored | src/core/devices.py:394-395 | a path whose id has no button does nothing |
| Devices.ChangeScript | src/core/devices.py:404-407 | the button's `handle_script_change`: a background change has the stop-then-start effect of `StopStart`, an update change the effect of the update run, any other type changes nothing; the map stays valid |
| Devices.ImageWrite | src/core/devices.py:128-160 | a write exactly when the button directory has an `image.*` file and it renders, and then that image on key `id - 1` |
| Devices.DeckReloadWrite | src/core/devices.py:95-106 | at most one write, only with a deck, a key image on the deck for key `id - 1` |
| Devices.DeckReloadWrites | src/core/devices.py:288-292 | at most one write per reloaded id, and nothing without a deck |
| Devices.DeckReloadWritesOnlyReloaded | src/core/devices.py:288-292 | every write of a reload pass is a key image on the deck for the key of an id in the order |
| Devices.DeckReloadWritesShowImage | src/core/devices.py:95-102 | with a deck, a reloaded id whose directory has an image file that renders shows that image |
| Devices.DeckReloadWritesShowBlank | src/core/devices.py:103-105 | with a deck, a reloaded id in `1..key_count` without a directory gets the blank image on its key when that loads |
| Devices.StreamDeckManager.constructor | src/core/devices.py:21-44 | no deck, no keys, no buttons, nothing written; the bus has exactly the file and directory handlers, in that order |
| Devices.StreamDeckManager.ClearButtons | src/core/devices.py:178-208 | with a deck and a blank image: every key for no id, key `id - 1` only for `1 <= id <= key_count`; nothing otherwise |
| Devices.StreamDeckManager.ClearAllKeys | src/core/devices.py:197-199 | the blank image on keys `0..key_count-1`, in key order |
| Devices.StreamDeckManager.UpdateButtonImage | src/core/devices.py:128-160 | with a deck and a present button: exactly `ImageWrite`, the image on key `id - 1` when the button finds an `image.*` file (`FindImageFile`) that renders; nothing otherwise |
| Devices.StreamDeckManager.DropButton | src/core/devices.py:91-93 | the id is removed from the map, and its old button, if any, is stopped as `Buttons.Button.StoppedSince` states (table emptied, running pids terminated); nothing else changes |
| Devices.StreamDeckManager.InstallButton | src/core/devices.py:97-103 | a new button for the directory is stored under the id and has launched the update run then the background run (`NewlyStarted`); with a deck it is shown with `ImageWrite`; the other ids are untouched |
| Devices.StreamDeckManager.AddButton | src/core/devices.py:95-106 | the id gets a new `NewlyStarted` button for its working directory exactly when one is found, shown with `ImageWrite` with a deck; otherwise its key is blanked with a deck and a blank image; the other ids are untouched |
| Devices.StreamDeckManager.ReloadButton | src/core/devices.py:85-106 | the old button is stopped as `Buttons.Button.StoppedSince` states and removed; a new `NewlyStarted` button exactly when a directory is found, shown with `ImageWrite`; otherwise a blanked key; every other id keeps its button and the watcher is untouched |
| Devices.StreamDeckManager.ReloadAffectedButton | src/core/devices.py:85-106 | as `ReloadButton`: the old button is stopped as `StoppedSince` states, the id has a new `NewlyStarted` button exactly for its directory, the deck writes are `DeckReloadWrite` for the id, and every other button keeps its object, process manager and running flag |
| Devices.StreamDeckManager.SmartReloadAffectedButtons | src/core/devices.py:260-292 | each affected id ends with a button exactly when it has a working directory, for that directory, running and none of the old buttons; the old button of each affected id is left stopped; every other id keeps its button; the deck and key count are unchanged; the ids are reloaded in an order holding each affected id once, with exactly `DeckReloadWrites` over it written |
| Devices.StreamDeckManager.ReloadEach | src/core/devices.py:288-292 | `reload_button` on every id of the set: each ends with a running button, none of the old ones, exactly when it has a directory, and its old button is left stopped; ids outside the set keep theirs; the writes are `DeckReloadWrites` over an order holding each id once |
| Devices.StreamDeckManager.HandleButtonDirectoriesChanged | src/core/devices.py:410-430 | the watcher is stopped and exactly one new observer started; the affected ids end as `SmartReloadAffectedButtons` leaves them, their old buttons stopped, with `DeckReloadWrites` over an order holding each affected id once |
| Devices.StreamDeckManager.CreateButtons | src/core/devices.py:240-250 | old buttons stopped as `Buttons.Button.StoppedSince` states (table emptied, running pids terminated); keys exactly `ButtonIds` for the key count; each button new, stopped and for its id's directory |
| Devices.StreamDeckManager.FillButtons | src/core/devices.py:246-250 | the loop on the emptied map: keys exactly `ButtonIds`, each button new and for its id's directory |
| Devices.StreamDeckManager.DeviceKeyCallback | src/core/devices.py:366-382 | a release changes nothing; a press on key `k` runs the action of button `k + 1` when it is present |
| Devices.StreamDeckManager.HandleFileChange | src/core/devices.py:384-407 | carries out exactly `FileChangeAction`: the image refresh on the deck, or on that button the update run or the background stop-then-start; no other process manager changes |
| Devices.StreamDeckManager.PerformFileAction | src/core/devices.py:399-407 | the effect of one action: the refresh writes, or on that one button the update run or the background stop-then-start; every other process manager is unchanged |
| Hardware.Range | src/core/coordinator.py:192 | the key indices `0..n-1`, in order |
| Hardware.KeyWrites | src/core/coordinator.py:192-193 | one image write per key, in the order of the keys |
| Hardware.KeyWritesRangeStep | src/core/coordinator.py:192-193 | writing keys `0..n` is writing keys `0..n-1` and then key `n` |
| Hardware.KeyWritesExtend | src/core/coordinator.py:192-193 | appending the write to key `n` after the writes to keys `0..n-1` gives the writes to keys `0..n` |
| Hardware.ClearedKeys | src/core/coordinator.py:190-198 | every key for no id; only key `id - 1` for an id in `1..key_count`; nothing for any other id; never a key outside the device |
| Hardware.KeyToButton | src/core/hardware.py:242-247 | a button exactly for a press, and then button `key + 1` |
| Hardware.SignalsMonitor | src/core/hardware.py:286-300 | only `add` or `remove` wakes the loop; every `add` does; a `remove` does exactly when the vendor is `0fd9` or the model contains `stream`, in any case |
| Hardware.DeviceHardwareManager.constructor | src/core/hardware.py:18-43 | no deck, the wake flag clear, no shutdown requested, nothing written and nothing reported |
| Hardware.DeviceHardwareManager.GetKeyCount | src/core/hardware.py:70-81 | 0 without a deck or when `key_count()` raises, otherwise the deck's key count |
| Hardware.DeviceHardwareManager.SetKeyImage | src/core/hardware.py:100-113 | the key image is written only while connected; nothing otherwise |
| Hardware.DeviceHardwareManager.ApplySettings | src/core/hardware.py:115-127 | the brightness is written only while connected; nothing otherwise |
| Hardware.DeviceHardwareManager.CloseDeck | src/core/hardware.py:196-199 | a `close()` that raises leaves the deck and the writes as they were; otherwise the deck is recorded closed |
| Hardware.DeviceHardwareManager.DisconnectDevice | src/core/hardware.py:224-232 | the deck is always forgotten, even when `close()` raises; it is recorded closed only when closing succeeded; no deck means nothing happens |
| Hardware.DeviceHardwareManager.HandleDeviceDisconnection | src/core/hardware.py:219-222 | the disconnect above, then exactly one disconnect notice |
| Hardware.DeviceHardwareManager.TryConnectDevice | src/core/hardware.py:181-217 | succeeds exactly when enumeration gives a first device that opens; with no devices the deck and everything else are untouched; on success that device is the healthy deck and one connect notice is sent; on a failed open no notice, and the old deck is closed (kept when its close fails) |
| Hardware.DeviceHardwareManager.MonitorLoopStart | src/core/hardware.py:147-149 | a connected manager, or one that finds no devices, is untouched; otherwise the first device becomes the healthy deck with one connect notice when it opens, and a failed open sends no notice and closes the old deck |
| Hardware.DeviceHardwareManager.MonitorLoopStep | src/core/hardware.py:153-177 | nothing after shutdown; otherwise the wake flag ends clear and a healthy deck is left alone; when not connected the notices grow by exactly a disconnect notice (when there was a deck) and then a connect notice with the first device as the healthy deck when it opens, and otherwise the deck ends `None` |
| Hardware.DeviceHardwareManager.DeviceKeyCallback | src/core/hardware.py:234-247 | a press on key `k` reports button `k + 1`; a release reports nothing |
| Hardware.DeviceHardwareManager.OnUsbEvent | src/core/hardware.py:280-303 | the wake flag is set exactly when `SignalsMonitor` holds, and is otherwise left as it was |
| Hardware.DeviceHardwareManager.DeckHealthChanges | src/core/hardware.py:93-94 | the deck, if any, now answers `connected()` and `is_open()` with the new values (the environment's step) |
| Config.ScriptExtensions | src/utils/config.py:15-19 | the extensions `sh`, `py`, `js` in the mapping's order, none containing a `.` |
| Config.Interpreter | src/utils/config.py:15-19 | an interpreter exactly for a supported extension, namely the one listed for it |
| Config.ToInt | src/utils/config.py:85 | `int()` of a value: an integer is kept, a fraction truncates toward zero on both signs, text is read after stripping, anything else raises |
| Config.Clamp | src/utils/config.py:85 | always in `0..100`; keeps values already in range; 0 below and 100 above |
| Config.BrightnessSetting | src/utils/config.py:77-85 | always in `0..100`; the default 50 when no brightness is set; the clamped `int()` of the setting; `None` exactly when `int()` raises |
| Config.Merged | src/utils/config.py:54-64 | the keys are exactly the default keys |
| Config.ConfigFrom | src/utils/config.py:54-75 | the keys are exactly the default keys; a missing or unreadable file gives the defaults |
| Config.MergedLastWins | src/utils/config.py:62-64 | a default key keeps its default unless an item sets it, and then holds the last such item's value |
| Config.MergedIgnoresUnknown | src/utils/config.py:63 | an item whose key is not a default key changes nothing |
| Config.Unquote | src/utils/config.py:157-160 | a value wrapped in matching double or single quotes loses one character at each end; a lone quote becomes empty; any other value is kept |
| Config.ParseEnvLine | src/utils/config.py:139-162 | blank lines, comments, lines without `=` and lines whose key strips to nothing give `None`; every other line gives its stripped key before the first `=` and its stripped, unquoted value after it |
| Config.EmptyKeySkipped | src/utils/config.py:146-154 | `=invalid_equals_format` defines nothing |
| Config.EnvVarsStep | src/utils/config.py:162 | one more line writes its definition, if any, over the variables before it |
| Config.StripUnchanged | src/utils/config.py:139 | a string without whitespace at either end strips to itself |
| Config.EnvLineSplitsAtFirstEquals | src/utils/config.py:146-160 | `KEY=VALUE` splits at the first `=`, strips key and value and unquotes the value, so `SPACES_VAR = value with spaces` defines `value with spaces` |
| Config.AssignKeys | src/utils/config.py:162 | a key is assigned exactly when some definition names it |
| Config.AssignLastWins | src/utils/config.py:162 | the last definition of a key is its value |
| Config.EnvKeys | src/utils/config.py:138-162 | a variable is defined exactly when some line defines it |
| Config.EnvLastWins | src/utils/config.py:162 | a later duplicate key overwrites an earlier one |
| Config.ConfigManager.constructor | src/utils/config.py:35-43 | the directory, `config.yaml` inside it, and no cache |
| Config.ConfigManager.LoadConfig | src/utils/config.py:45-75 | the cached configuration when there is one; otherwise the merge of the user's items over the defaults, which is then cached |
| Config.ConfigManager.GetBrightness | src/utils/config.py:77-85 | loads (or reuses) the configuration and gives its `BrightnessSetting` |
| Config.ConfigManager.ApplyAllSettings | src/utils/config.py:108-122 | with a device, the brightness of the loaded configuration; with a device or a debouncer, the configuration is loaded into the cache; with neither, nothing |
| Config.ConfigManager.ReloadConfig | src/utils/config.py:97-105 | the cache is dropped and, with a device or a debouncer, refilled from a fresh read; the brightness comes from that fresh read |
| Config.ConfigManager.LoadEnvVars | src/utils/config.py:124-169 | empty when `env.local` is missing, otherwise exactly the variables its lines define |
| Config.ConfigRegistry.constructor | src/utils/config.py:172-174 | no shared instance and no directory yet |
| Config.ConfigRegistry.GetConfig | src/utils/config.py:177-200 | the same instance unless there is none or a different directory is asked for; then a fresh manager for that directory, or for the default one when none was given |
| ScriptManagement.ButtonDirsExactly | src/utils/script_manager.py:207-209 | a name is visited by a listing loop exactly when it is listed, is a directory and starts with two digits |
| ScriptManagement.ScriptFromAgrees | src/utils/script_manager.py:92-94 | the lookup from extension `k` on, with no earlier candidate present, finds what the process manager's lookup finds |
| ScriptManagement.FirstScriptAgrees | src/utils/script_manager.py:92-94 | the script manager's lookup finds the same script and interpreter as the process manager's `start_script` |
| ScriptManagement.FindScript | src/utils/script_manager.py:132-134 | the loop stops at the first supported extension whose script exists, with its interpreter, or finds none |
| ScriptManagement.ImageTrigger | src/utils/script_manager.py:271-288 | a request exactly with a device manager and a name starting with two digits; then one request, for that directory and key `int(name[:2]) - 1` |
| ScriptManagement.ImageTriggerExamples | src/utils/script_manager.py:282-286 | `01_toggle_mute` is key 0, `12_clock` key 11, `ab_notes` no key, and nothing without a device manager |
| ScriptManagement.UpdateLaunch | src/utils/script_manager.py:87-103 | at most one run: exactly when the folder and an update script exist and the spawn works, in the button's folder with the interpreter and the script |
| ScriptManagement.ExecuteUpdate | src/utils/script_manager.py:81-116 | only the launch log and the image requests change; the run is logged as `UpdateLaunch` says; an image update is requested exactly when the script exists and exits 0, with a device manager and a two-digit name |
| ScriptManagement.UpdateTriggersOnlyOnSuccess | src/utils/script_manager.py:104-111 | a failing, timed-out or unspawnable update script never asks for an image update |
| ScriptManagement.StopBackground | src/utils/script_manager.py:150-169 | the dir's record always goes, and its process is asked to terminate; an untracked dir changes nothing; nothing else changes |
| ScriptManagement.StartBackground | src/utils/script_manager.py:118-148 | a missing folder changes nothing; crash history, the running flag and image requests never change |
| ScriptManagement.Track | src/utils/script_manager.py:134-147 | the dir is tracked afterwards exactly when it was or a script is found and spawns |
| ScriptManagement.StartBackgroundTracks | src/utils/script_manager.py:128-144 | with the folder present: the dir is tracked exactly when a script is found and spawns, under the next pid, and its old process is asked to terminate |
| ScriptManagement.StartBackgroundFrames | src/utils/script_manager.py:118-148 | every other dir keeps its record, and pids stay fresh |
| ScriptManagement.StartBackgroundCounts | src/utils/script_manager.py:132-148 | at most one launch is added, and the pid counter moves exactly when a process is tracked |
| ScriptManagement.StartBackgroundEffect | src/utils/script_manager.py:118-148 | the three lemmas above together |
| ScriptManagement.StartBackgroundTwice | src/utils/script_manager.py:128-144 | starting twice leaves exactly the second process tracked and asks the first to terminate |
| ScriptManagement.RestartBackground | src/utils/script_manager.py:171-200 | the restart is recorded in the dir's window; a refused restart changes nothing else; an allowed one is `start_background_script` |
| ScriptManagement.RestartRefusedAfterFive | src/utils/script_manager.py:180-193 | after five restarts inside 300 s, a sixth is refused and starts nothing |
| ScriptManagement.ScriptChange | src/utils/script_manager.py:254-269 | a background change empties the dir's crash history (before restarting); an update change is `execute_update_script`; any other type changes nothing |
| ScriptManagement.ManualRestartResetsWindow | src/utils/script_manager.py:264-266 | after a manual background change, the next crash restart always goes ahead |
| ScriptManagement.UpdateKeepsRequests | src/utils/script_manager.py:207-210 | one more update run of a listed dir keeps the request log made only of requests for listed dirs, each for its own key |
| ScriptManagement.UpdateAll | src/utils/script_manager.py:202-210 | only launches and image requests grow, by appending, and every new request is for a visited dir and its key |
| ScriptManagement.StartAll | src/utils/script_manager.py:212-220 | unvisited dirs keep their records; each visited dir is tracked exactly when its script is found and spawns, with a new running process; pids stay fresh |
| ScriptManagement.Started | src/utils/script_manager.py:33-51 | nothing when already running; afterwards running, with each button dir tracked exactly when its background script starts |
| ScriptManagement.Stopped | src/utils/script_manager.py:53-79 | nothing when already stopped; afterwards stopped, every tracked process asked to terminate and the table empty |
| ScriptManagement.StartStopIdempotent | src/utils/script_manager.py:33-59 | starting twice is starting once, and stopping twice is stopping once |
| ScriptManagement.Crashed | src/utils/script_manager.py:227-244 | exactly the tracked dirs whose process has exited |
| ScriptManagement.Reap | src/utils/script_manager.py:247-250 | the exited record is removed before the restart; the restart is recorded; the dir is tracked again exactly when allowed and started, under the next pid; every other dir keeps its record; nothing is asked to terminate; the launches grow by exactly `RestartLaunch` for the dir |
| ScriptManagement.RestartLaunch | src/utils/script_manager.py:171-200 | a restart adds a launch exactly when the window allows it and the background script starts; that launch is the single first background script of the dir's folder, run in that folder |
| ScriptManagement.MonitorLaunchesOnlyRestarted | src/utils/script_manager.py:245-250 | every launch of a monitor pass is the restart launch of one of the dirs it visited |
| ScriptManagement.MonitorLaunchesEach | src/utils/script_manager.py:245-250 | every visited dir whose restart is allowed and whose script starts has its background launch in the pass's launches |
| ScriptManagement.MonitoredStep | src/utils/script_manager.py:247-250 | reaping one more crashed dir keeps the loop invariant for the dirs reaped so far |
| ScriptManagement.MonitoredNothing | src/utils/script_manager.py:225-250 | a pass with nothing crashed changes nothing |
| ScriptManagement.ScriptManager.constructor | src/utils/script_manager.py:16-31 | no processes, no crash history, not running, and nothing launched, terminated or requested |
| ScriptManagement.ScriptManager.TriggerImageUpdate | src/utils/script_manager.py:271-288 | the requests grow by exactly `ImageTrigger` |
| ScriptManagement.ScriptManager.ExecuteUpdateScript | src/utils/script_manager.py:81-116 | the new state is `ExecuteUpdate` of the old |
| ScriptManagement.ScriptManager.StopBackgroundScript | src/utils/script_manager.py:150-169 | the new state is `StopBackground` of the old |
| ScriptManagement.ScriptManager.StartBackgroundScript | src/utils/script_manager.py:118-148 | the new state is `StartBackground` of the old |
| ScriptManagement.ScriptManager.LaunchBackground | src/utils/script_manager.py:132-148 | the lookup loop and spawn: the new state is `Track` of the old with the lookup's result |
| ScriptManagement.ScriptManager.RestartBackgroundScript | src/utils/script_manager.py:171-200 | the new state is `RestartBackground` of the old |
| ScriptManagement.ScriptManager.HandleScriptChange | src/utils/script_manager.py:254-269 | the new state is `ScriptChange` of the old |
| ScriptManagement.ScriptManager.ExecuteUpdateScripts | src/utils/script_manager.py:202-210 | the listing loop: the new state is `UpdateAll` of the old |
| ScriptManagement.ScriptManager.StartBackgroundScripts | src/utils/script_manager.py:212-220 | the listing loop: the new state is `StartAll` of the old |
| ScriptManagement.ScriptManager.Start | src/utils/script_manager.py:33-51 | the new state is `Started` of the old |
| ScriptManagement.ScriptManager.Stop | src/utils/script_manager.py:53-79 | the termination loop, in whatever order: the new state is `Stopped` of the old |
| ScriptManagement.ScriptManager.ScriptExits | src/utils/script_manager.py:228-229 | the tracked process of the dir is now exited with the code (the environment's step) |
| ScriptManagement.ScriptManager.ReapCrashed | src/utils/script_manager.py:247-250 | the new state is `Reap` of the old |
| ScriptManagement.ScriptManager.MonitorStep | src/utils/script_manager.py:224-250 | nothing when stopped; otherwise every crashed dir is removed then restarted with its window, and every other record stays; the pass visits the crashed dirs in an order holding each once (a ghost result), and the launches become the old log followed by exactly `MonitorLaunches` over that order: one background launch per dir whose restart is allowed and whose script starts |
| ImageEvents.FolderOf | src/handlers/file_handler.py:40-45 | no folder exactly for an empty directory part (`relpath` raises); the directory's own name when it is the configuration directory |
| ImageEvents.ProcessImageChange | src/handlers/file_handler.py:21-56 | directories and names not starting with `image` are ignored; the error exactly for an `image*` path without a directory part; a redraw exactly when the folder starts with two digits, of key `int(folder[:2]) - 1` |
| ImageEvents.ImageBelowButtonFolder | src/handlers/file_handler.py:40-51 | an `image*` file anywhere below a two-digit folder of the configuration directory redraws that folder's key |
| ImageEvents.ImageOutsideIgnored | src/handlers/file_handler.py:40-51 | an `image*` file outside the configuration directory redraws nothing, its folder starting with `..` |
| ImageEvents.ImageAtTopLevel | src/handlers/file_handler.py:40-51 | an `image*` file directly in the configuration directory redraws only when that directory's own name starts with two digits |
| ImageEvents.OnAnyEvent | src/handlers/file_handler.py:58-73 | at most two redraws; the destination of a move first, then the source; an error on the destination requests nothing and stops before the source; the handler raises exactly when one of the processed paths raises |
| ImageEvents.RenameOntoImageRedraws | src/handlers/file_handler.py:68-73 | renaming a temporary file onto `image*` of a button folder redraws that key once, without error |
| ImageFrames.Ascii | examples/06_load_avg/draw.py:73-74 | `encode()` of ASCII text: one byte per character, of the same code |
| ImageFrames.Chars | examples/06_load_avg/draw.py:74 | one character per byte, of the same code |
| ImageFrames.CharsOfAscii | examples/06_load_avg/draw.py:74 | decoding encoded ASCII text gives it back |
| ImageFrames.MarkersAreText | examples/06_load_avg/draw.py:73-76 | the start and end lines are the bytes of `DECKFS_IMG_START\n` and `DECKFS_IMG_END\n` |
| ImageFrames.LengthLine | examples/06_load_avg/draw.py:74 | the decimal digits of the count, then a newline, with no newline before it |
| ImageFrames.Frame | examples/06_load_avg/draw.py:71-77 | a frame's length is the two markers, the length line and the payload together |
| ImageFrames.NewlineIndex | examples/06_load_avg/draw.py:74 | the first newline byte, or the length when there is none |
| ImageFrames.ParseFrame | examples/06_load_avg/draw.py:71-77 | a parsed frame always leaves a shorter rest of the stream |
| ImageFrames.LengthLineParses | examples/06_load_avg/draw.py:74 | the length line parses back to exactly the payload's byte count |
| ImageFrames.FrameRoundTrip | examples/06_load_avg/draw.py:71-77 | reading a frame back from the front of a stream gives its payload and the rest |
| ImageFrames.ConcatCons | examples/06_load_avg/draw.py:84-89 | written one after another, the chunks start with the first |
| ImageFrames.FrameList | examples/06_load_avg/draw.py:84-89 | the frame of each image, in order |
| ImageFrames.FramesPrefixStep | examples/06_load_avg/draw.py:84-89 | one more image sent adds its frame at the end of the output |
| ImageFrames.FramesCons | examples/06_load_avg/draw.py:84-89 | the output starts with the first image's frame, followed by the rest's |
| ImageFrames.FramesRoundTrip | examples/06_load_avg/draw.py:84-89 | reading the whole output back gives every image sent, in order |
| ImageFrames.OutputStream.constructor | examples/06_load_avg/draw.py:71 | nothing written yet |
| ImageFrames.OutputStream.Write | examples/06_load_avg/draw.py:73-76 | the chunk is appended to what was written |
| ImageFrames.OutputStream.SendImage | examples/06_load_avg/draw.py:65-77 | the output grows by exactly the image's frame |
| ImageFrames.EmitFrames | examples/06_load_avg/draw.py:79-89 | the output grows by the frames of all images, in order |
| Text.Strip | src/utils/config.py:139-149 | `str.strip()`: a slice of the input with only whitespace cut at either end, starting and ending with non-whitespace; empty exactly for all-whitespace input |
| Text.ParseNatToString | examples/06_load_avg/draw.py:74 | parsing the decimal rendering of a count gives the count back |
| Text.ZeroPad2 | src/core/devices.py:358 | `f"{id:02d}"`: at least two digits; exactly the two digits of the id below 100 |
| Paths.RelPath | src/core/devices.py:312 | `os.path.relpath` raises exactly for an empty path |
| Paths.SplitRelPath | src/core/devices.py:313 | splitting a relative path at `/` gives its components back, `.` for the start itself |
| Paths.RelPartsInside | src/core/devices.py:312 | a path inside the start is relative to it by exactly the components below the start |
| Paths.RelPartsOutside | src/core/devices.py:312 | a path outside the start is relative to it through `..` first |
| Paths.Basename | src/core/devices.py:397 | `os.path.basename` holds no slash |
| Paths.JoinParts | src/core/devices.py:338 | `os.path.join` of a directory and a name: `basename` and `dirname` undo it |

## Left out

- Threads, locks, `threading.Timer`, `threading.Event` waits, the watchdog observer and the pyudev observer are not modelled. A timer's firing (`EventBus.Debouncer.Fire`), one monitor-loop pass and one background-monitor step are explicit steps instead.
- Process spawning, signals, wait timeouts, captured output, and the 2 s and 10 s sleeps are not modelled. A process is `Running` or `Exited(code)`. A launch's outcome is an input, and a sleep does nothing.
- Logging and `print` are left out; they have no effect on state.
- Floating point is not modelled.
  - Debounce intervals are integer milliseconds.
  - `get_debounce_interval` and its 0.01 s minimum are left out.
  - So is the debounce-interval half of `apply_all_settings`; only its loading of the configuration into the cache is kept.
  - Fractions in `config.yaml` are held in thousandths.
- Config.ToInt: a YAML boolean falls under the other values that raise, though Python's `int(True)` is 1. `int()`'s underscores and non-ASCII digits are not accepted.
- Text.IsDigit: `str.isdigit` is modelled for ASCII digits only.
- PIL work is not modelled: image loading, scaling and `prepare_image_for_deck`. Prepared images come in as `Coordination.Images`.
- Coordination.Coordinator.UpdateButtonImage: the `button.failed = True` flag set when preparing an image fails is not modelled. The error image that follows is.
- `Button.file_changed`, `get_image`, `set_error` and `has_error`, which the coordinator calls, are not defined on `Button` in src/core/button.py. `file_changed` enters as a flag and the images as `Images`.
- The coordinator constructs `Button(working_dir, callback)`, but `Button` takes only the directory (src/core/coordinator.py:102, 243). The callback is dropped.
- `extract_button_id_from_path` and `find_button_working_dir` are imported by the coordinator from a module that does not define them. They are modelled after src/core/devices.py:294-364, with the directory and key count as parameters.
- `ImageChangeHandler` calls `update_key_image(key_index)` through a timer. src/utils/device.py is not part of this model, so the request is returned as a value (`ImageEvents.OnAnyEvent`).
- `ScriptManager` is modelled from its own source; nothing in the daemon constructs it.
- Coordination.Coordinator.ReloadButton: the `load_config` failure branch, which shows the error image, cannot arise in a single filesystem snapshot, because the directory was just found. The same holds for `Devices.StreamDeckManager.ReloadButton`. All of an operation's filesystem tests read the same snapshot.
- `Coordinator.initialize`, `stop` and `reload_all` are not modelled. They start or stop threads and observers around operations that are modelled.
- `StreamDeckManager.initialize`, `start`, `stop`, `reload_all`, `_initialize_device`, `_load_all_buttons` and `_load_blank_image` are left out for the same reason. They sit at the entry points next to the SDK's enumeration.
- `DeviceHardwareManager.start_monitoring`, `stop_monitoring`, `get_device_info` and the udev setup are left out; they only manage threads and logging.
- Coordination.Coordinator.LoadAllButtons: the update run of each button is stated one button at a time, by `LoadStep` and `ButtonMaps.LoadButton`. The whole loop's postcondition covers the map, the visiting order and the deck writes only, because a loop invariant over every process manager's launches does not verify within the resource limit.
- Coordination.Coordinator.LoadAndStartButtons: the update and background launches of each button are not stated, for the reason given for `LoadAllButtons`. `StartButtons` states the background launches on its own.
- Coordination.Coordinator.BringUpButtons: the launches of each button are not stated, as for `LoadAndStartButtons`.
- Coordination.Coordinator.OnDeviceConnected: the launches of each button are not stated, as for `LoadAndStartButtons`.
- Coordination.Coordinator.SmartReloadAffectedButtons: each reloaded button is stated to be running and none of the old buttons, not fresh with its launches. Each old button is stated to be stopped by its running flag only, not with its emptied table and terminated pids. `ReloadAffectedButton` states both in full, per call. A loop invariant over freshness, every process manager's launches and every old manager's table does not verify within the resource limit.
- Coordination.Coordinator.HandleButtonDirectoriesChanged: the reloaded buttons are stated as for `SmartReloadAffectedButtons`: running and none of the old buttons, with the old buttons stopped by their flag only.
- Devices.StreamDeckManager.SmartReloadAffectedButtons: the reloaded buttons are stated as for the coordinator's: running and none of the old buttons, with the old buttons stopped by their flag only. `ReloadAffectedButton` states each one's launches and its old button's full stop.
- Devices.StreamDeckManager.ReloadEach: the loop states the reloaded buttons as running and none of the old buttons, and the old buttons as stopped by their flag only, for the same reason.
- Devices.StreamDeckManager.HandleButtonDirectoriesChanged: the reloaded buttons and the old buttons are stated as for `SmartReloadAffectedButtons`.
- Set and dict iteration order is not fixed, so each loop over a set is verified for every visiting order, with only what its contract states. `Processes.ProcessManager.Cleanup` and `ScriptManagement.ScriptManager.Stop` state a result that does not depend on the order. `ScriptManagement.ScriptManager.MonitorStep` and the reload loops return the order they took as a ghost result `order`, and state their launches or deck writes over it.
- Paths are assumed absolute and normalised, with no `.` or `..` components. `relpath`'s use of the current directory is not modelled.
- `data.get(key)` without a default is read as `""` when the key is missing (`Coordination.Get`).
- The watcher's file types are `image`, `background`, `update` and `action` only, as in src/core/files.py:27. `draw.*` files get no debounce key.
- ImageFrames.ParseFrame: the reader is written here as the writer's partner and has no counterpart in the source. It accepts a length line with leading zeros, as `int` would.
- Setup, the command line interface, systemd management, the runner and the example scripts other than the frame protocol are outside the core and are not modelled.

## Findings

| source | as written | input that shows it | evidently intended | confidence | as-written member | corrected member |
|---|---|---|---|---|---|---|
| src/core/button.py:105-108 | the background monitor restarts only when `is_running("background") and get_exit_code("background") is not None` | a background script that has exited with code 1: `is_running` is false, so the test fails and the script is never restarted | restart when the background process is tracked and has exited | not executed | Buttons.Button.RestartTestAsWrittenNeverHolds, Buttons.Button.MonitorStepAsWritten | Buttons.Button.RestartTestExactlyExited, Buttons.Button.MonitorStep |

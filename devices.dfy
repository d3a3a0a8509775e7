/**
 * The older deck manager, `StreamDeckManager`: it holds the deck and its
 * key count itself and writes images straight to the deck, while keeping
 * the same id-to-button map as the coordinator. Its `_create_buttons` loop
 * and the affected-id computation are the coordinator's (`NewButtons`,
 * `AffectedButtons`). Images come in prepared (`Images`), and what the
 * manager writes to the deck is appended to `deviceOps`.
 */
module Devices {

  import opened Wrappers
  import opened Text
  import opened Paths
  import opened Filesystem
  import opened FileUtils
  import opened CrashWindow
  import opened Processes
  import opened Buttons
  import opened ButtonMaps
  import opened ButtonPaths
  import opened Hardware
  import opened Config
  import opened EventBus
  import opened FileWatch
  import opened Coordination
  import opened Orders

  /** What `_handle_file_change` does for one event. */
  datatype FileAction = NoAction | RefreshImage(buttonId: nat) | ScriptChanged(buttonId: nat, scriptType: string)

  /**
   * `_handle_file_change`'s decision: nothing unless the path belongs to a
   * present button; an `image.*` file refreshes the image whatever the
   * event type; a `background.*` or `update.*` file is a script change of
   * that type, but only for a `modified` event.
   */
  function FileChangeAction(fs: Fs, data: map<string, string>, configDir: string, keyCount: nat, present: set<nat>): (a: FileAction)
    ensures var id := ExtractButtonId(fs, Get(data, "path"), configDir, keyCount);
            a != NoAction ==> a.buttonId == id && id != 0 && id in present
    ensures a.ScriptChanged? ==> Get(data, "event_type") == "modified" && (a.scriptType == "background" || a.scriptType == "update")
  {
    var path := Get(data, "path");
    var buttonId := ExtractButtonId(fs, path, configDir, keyCount);
    if buttonId == 0 || buttonId !in present then NoAction
    else
      var filename := Basename(path);
      if StartsWith(filename, "image.") then RefreshImage(buttonId)
      else if Get(data, "event_type") != "modified" then NoAction
      else if StartsWith(filename, "background.") then ScriptChanged(buttonId, "background")
      else if StartsWith(filename, "update.") then ScriptChanged(buttonId, "update")
      else NoAction
  }

  /** A file of a present button's directory: its id is the directory's. */
  lemma ButtonFileId(fs: Fs, data: map<string, string>, configDir: string, dir: string, file: string, keyCount: nat)
    requires configDir != [] && configDir[|configDir| - 1] != '/'
    requires dir != [] && '/' !in dir
    requires file != [] && '/' !in file && '.' in file
    requires Get(data, "path") == Join(Join(configDir, dir), file)
    ensures ExtractButtonId(fs, Get(data, "path"), configDir, keyCount) == IdOfName(dir, keyCount)
    ensures Basename(Get(data, "path")) == file
  {
    ExtractButtonIdOfFile(fs, configDir, dir, file, keyCount);
    JoinParts(configDir, dir);
    JoinParts(Join(configDir, dir), file);
  }

  /** An `image.*` file of a present button refreshes its image, whatever the event type. */
  lemma ImageChangeRefreshes(fs: Fs, data: map<string, string>, configDir: string, dir: string, file: string, keyCount: nat, present: set<nat>)
    requires configDir != [] && configDir[|configDir| - 1] != '/'
    requires dir != [] && '/' !in dir
    requires file != [] && '/' !in file && StartsWith(file, "image.")
    requires Get(data, "path") == Join(Join(configDir, dir), file)
    requires IdOfName(dir, keyCount) in present && IdOfName(dir, keyCount) != 0
    ensures FileChangeAction(fs, data, configDir, keyCount, present) == RefreshImage(IdOfName(dir, keyCount))
  {
    assert file[5] == '.';
    ButtonFileId(fs, data, configDir, dir, file, keyCount);
  }

  /**
   * A `background.*` file of a present button is a background script
   * change exactly when the event is `modified`, and otherwise ignored.
   */
  lemma BackgroundChangeOnlyWhenModified(fs: Fs, data: map<string, string>, configDir: string, dir: string, file: string, keyCount: nat, present: set<nat>)
    requires configDir != [] && configDir[|configDir| - 1] != '/'
    requires dir != [] && '/' !in dir
    requires file != [] && '/' !in file && StartsWith(file, "background.")
    requires Get(data, "path") == Join(Join(configDir, dir), file)
    requires IdOfName(dir, keyCount) in present && IdOfName(dir, keyCount) != 0
    ensures Get(data, "event_type") == "modified" ==> FileChangeAction(fs, data, configDir, keyCount, present) == ScriptChanged(IdOfName(dir, keyCount), "background")
    ensures Get(data, "event_type") != "modified" ==> FileChangeAction(fs, data, configDir, keyCount, present) == NoAction
  {
    assert file[10] == '.';
    assert !StartsWith(file, "image.") by { assert file[0] == 'b'; }
    ButtonFileId(fs, data, configDir, dir, file, keyCount);
  }

  /**
   * An `update.*` file of a present button is an update script change
   * exactly when the event is `modified`, and otherwise ignored.
   */
  lemma UpdateChangeOnlyWhenModified(fs: Fs, data: map<string, string>, configDir: string, dir: string, file: string, keyCount: nat, present: set<nat>)
    requires configDir != [] && configDir[|configDir| - 1] != '/'
    requires dir != [] && '/' !in dir
    requires file != [] && '/' !in file && StartsWith(file, "update.")
    requires Get(data, "path") == Join(Join(configDir, dir), file)
    requires IdOfName(dir, keyCount) in present && IdOfName(dir, keyCount) != 0
    ensures Get(data, "event_type") == "modified" ==> FileChangeAction(fs, data, configDir, keyCount, present) == ScriptChanged(IdOfName(dir, keyCount), "update")
    ensures Get(data, "event_type") != "modified" ==> FileChangeAction(fs, data, configDir, keyCount, present) == NoAction
  {
    assert file[6] == '.';
    assert !StartsWith(file, "image.") && !StartsWith(file, "background.") by { assert file[0] == 'u'; }
    ButtonFileId(fs, data, configDir, dir, file, keyCount);
  }

  /** A file event outside every present button does nothing. */
  lemma AbsentButtonIgnored(fs: Fs, data: map<string, string>, configDir: string, keyCount: nat, present: set<nat>)
    requires ExtractButtonId(fs, Get(data, "path"), configDir, keyCount) !in present
    ensures FileChangeAction(fs, data, configDir, keyCount, present) == NoAction
  {
  }

  /**
   * What `update_button_image` writes, once a deck and the button are
   * there, for button `id` working in `workingDir`: nothing without an
   * `image.*` file there, and otherwise the prepared image, when it
   * prepares, on key `id - 1`.
   */
  function ImageWrite(serial: nat, buttonId: nat, workingDir: string, fs: Fs, images: Images): (ops: seq<DeviceOp>)
    ensures ops != [] <==> FindAnyFile(fs, workingDir, "image").Some? && images.buttonImage(buttonId).Some?
    ensures ops != [] ==> ops == [KeyImage(serial, buttonId - 1, images.buttonImage(buttonId).value)]
  {
    if FindAnyFile(fs, workingDir, "image").None? then []
    else
      match images.buttonImage(buttonId)
      case Some(image) => [KeyImage(serial, buttonId - 1, image)]
      case None => []
  }

  /**
   * `reload_button`'s writes for `id` with a deck there or not: without a
   * working directory its key is blanked, when the blank image loads;
   * otherwise what `update_button_image` writes for the new button.
   */
  function DeckReloadWrite(serial: nat, connected: bool, keyCount: nat, dirs: nat -> Option<string>, fs: Fs, buttonId: nat, images: Images): (ops: seq<DeviceOp>)
    ensures |ops| <= 1
    ensures forall k | 0 <= k < |ops| :: ops[k].KeyImage? && ops[k].serial == serial && ops[k].key == buttonId - 1
    ensures !connected ==> ops == []
  {
    if dirs(buttonId).None? then
      (if connected && images.blank.Some? then KeyWrites(serial, ClearedKeys(Some(buttonId), keyCount), images.blank.value) else [])
    else if connected then ImageWrite(serial, buttonId, dirs(buttonId).value, fs, images) else []
  }

  /** The writes of `_smart_reload_affected_buttons` when it reloads the ids in `order`. */
  function DeckReloadWrites(serial: nat, connected: bool, keyCount: nat, dirs: nat -> Option<string>, fs: Fs, order: seq<nat>, images: Images): (ops: seq<DeviceOp>)
    ensures |ops| <= |order|
    ensures !connected ==> ops == []
  {
    if order == [] then []
    else
      DeckReloadWrites(serial, connected, keyCount, dirs, fs, order[..|order| - 1], images) +
        DeckReloadWrite(serial, connected, keyCount, dirs, fs, order[|order| - 1], images)
  }

  /** `_smart_reload_affected_buttons` writes only the keys of the ids it reloads, on the deck it holds. */
  lemma {:induction false} DeckReloadWritesOnlyReloaded(serial: nat, connected: bool, keyCount: nat, dirs: nat -> Option<string>, fs: Fs, order: seq<nat>, images: Images)
    ensures forall op | op in DeckReloadWrites(serial, connected, keyCount, dirs, fs, order, images) :: op.KeyImage? && op.serial == serial && op.key + 1 in order
    decreases |order|
  {
    if order != [] {
      var front, last := order[..|order| - 1], order[|order| - 1];
      DeckReloadWritesOnlyReloaded(serial, connected, keyCount, dirs, fs, front, images);
      var earlier := DeckReloadWrites(serial, connected, keyCount, dirs, fs, front, images);
      var latest := DeckReloadWrite(serial, connected, keyCount, dirs, fs, last, images);
      assert DeckReloadWrites(serial, connected, keyCount, dirs, fs, order, images) == earlier + latest;
      forall op: DeviceOp | op in earlier + latest
        ensures op.KeyImage? && op.serial == serial && op.key + 1 in order
      {
        if op in earlier {
          var j :| 0 <= j < |front| && front[j] == op.key + 1;
          assert order[j] == front[j];
        } else {
          var k :| 0 <= k < |latest| && latest[k] == op;
        }
      }
    }
  }

  /**
   * After `_smart_reload_affected_buttons` on a deck, every reloaded id
   * with a working directory holding an `image.*` file shows its image,
   * when that prepares.
   */
  lemma {:induction false} DeckReloadWritesShowImage(serial: nat, connected: bool, keyCount: nat, dirs: nat -> Option<string>, fs: Fs, order: seq<nat>, images: Images, id: nat)
    requires id in order && connected
    requires dirs(id).Some? && FindAnyFile(fs, dirs(id).value, "image").Some? && images.buttonImage(id).Some?
    ensures KeyImage(serial, id - 1, images.buttonImage(id).value) in DeckReloadWrites(serial, connected, keyCount, dirs, fs, order, images)
    decreases |order|
  {
    var front := order[..|order| - 1];
    var last := order[|order| - 1];
    var earlier := DeckReloadWrites(serial, connected, keyCount, dirs, fs, front, images);
    var latest := DeckReloadWrite(serial, connected, keyCount, dirs, fs, last, images);
    assert DeckReloadWrites(serial, connected, keyCount, dirs, fs, order, images) == earlier + latest;
    if id != last {
      assert id in front;
      DeckReloadWritesShowImage(serial, connected, keyCount, dirs, fs, front, images, id);
      assert KeyImage(serial, id - 1, images.buttonImage(id).value) in earlier;
    } else {
      assert latest == ImageWrite(serial, id, dirs(id).value, fs, images);
    }
  }

  /**
   * After `_smart_reload_affected_buttons` on a deck, every reloaded id
   * without a working directory shows the blank image on its key, when
   * that loads.
   */
  lemma {:induction false} DeckReloadWritesShowBlank(serial: nat, connected: bool, keyCount: nat, dirs: nat -> Option<string>, fs: Fs, order: seq<nat>, images: Images, id: nat)
    requires id in order && connected
    requires dirs(id).None? && images.blank.Some? && 1 <= id <= keyCount
    ensures KeyImage(serial, id - 1, images.blank.value) in DeckReloadWrites(serial, connected, keyCount, dirs, fs, order, images)
    decreases |order|
  {
    var front := order[..|order| - 1];
    var last := order[|order| - 1];
    var earlier := DeckReloadWrites(serial, connected, keyCount, dirs, fs, front, images);
    var latest := DeckReloadWrite(serial, connected, keyCount, dirs, fs, last, images);
    assert DeckReloadWrites(serial, connected, keyCount, dirs, fs, order, images) == earlier + latest;
    if id != last {
      assert id in front;
      DeckReloadWritesShowBlank(serial, connected, keyCount, dirs, fs, front, images, id);
      assert KeyImage(serial, id - 1, images.blank.value) in earlier;
    } else {
      assert latest == KeyWrites(serial, [id - 1], images.blank.value);
    }
  }

  /** Reloading one more id appends its writes. */
  lemma DeckReloadWritesStep(serial: nat, connected: bool, keyCount: nat, dirs: nat -> Option<string>, fs: Fs, order: seq<nat>, images: Images, id: nat)
    ensures DeckReloadWrites(serial, connected, keyCount, dirs, fs, order + [id], images) ==
              DeckReloadWrites(serial, connected, keyCount, dirs, fs, order, images) + DeckReloadWrite(serial, connected, keyCount, dirs, fs, id, images)
  {
    assert (order + [id])[..|order|] == order;
  }

  /** `handle_script_change` on one button of the map; the other buttons are not touched. */
  method ChangeScript(buttons: map<nat, Button>, id: nat, scriptType: string, fs: Fs, outcome: RunOutcome)
    requires ButtonsValid(buttons) && id in buttons
    modifies buttons[id].processManager
    ensures ButtonsValid(buttons)
    ensures scriptType == "update" ==> buttons[id].processManager.StartEffect("update", "update", fs, outcome)
    ensures scriptType == "background" ==> buttons[id].processManager.StopStartEffect("background", fs, outcome)
    ensures scriptType != "background" && scriptType != "update" ==> unchanged(buttons[id].processManager)
  {
    buttons[id].HandleScriptChange(scriptType, fs, outcome);
  }

  class StreamDeckManager {

    const configDir: string
    const configManager: ConfigManager
    const debouncer: Debouncer
    const fileWatcher: FileWatcher
    /** The open deck, `None` before initialisation. */
    var deck: Option<Device>
    var keyCount: nat
    var buttons: map<nat, Button>
    /** What the manager has written to the deck, in order. */
    var deviceOps: seq<DeviceOp>

    ghost predicate Valid()
      reads this, buttons.Values, Managers(buttons)
    {
      ButtonsValid(buttons) && fileWatcher.debouncer == debouncer && fileWatcher.configDir == configDir
    }

    /** `__init__`: no deck, no keys, no buttons, and the two handlers subscribed in order. */
    constructor(configDir: string, debounceInterval: nat)
      ensures Valid() && debouncer.Valid() && this.configDir == configDir && buttons == map[]
      ensures deck == None && keyCount == 0 && deviceOps == [] && fileWatcher.observer == None
      ensures debouncer.debounceInterval == debounceInterval
      ensures debouncer.subscribers == map["FILE_CHANGED" := [FileChangeHandler], "BUTTON_DIRECTORIES_CHANGED" := [DirectoriesChangedHandler]]
    {
      this.configDir := configDir;
      deck := None;
      keyCount := 0;
      configManager := new ConfigManager(configDir);
      var bus := new Debouncer(debounceInterval);
      debouncer := bus;
      fileWatcher := new FileWatcher(bus, configDir);
      buttons := map[];
      deviceOps := [];
      new;
      assert SubscribersOf(debouncer.subscribers, "FILE_CHANGED") + [FileChangeHandler] == [FileChangeHandler];
      debouncer.Subscribe("FILE_CHANGED", FileChangeHandler);
      assert SubscribersOf(debouncer.subscribers, "BUTTON_DIRECTORIES_CHANGED") + [DirectoriesChangedHandler] == [DirectoriesChangedHandler];
      debouncer.Subscribe("BUTTON_DIRECTORIES_CHANGED", DirectoriesChangedHandler);
    }

    /** The serial of the deck (0 without one). */
    function Serial(): nat
      reads this`deck
    {
      if deck.Some? then deck.value.serial else 0
    }

    /** The objects reloading button `id` may change. */
    ghost function Footprint(buttonId: nat): set<object>
      reads this, buttons.Values
    {
      if buttonId in buttons then {buttons[buttonId], buttons[buttonId].processManager} else {}
    }

    /** The process manager a key press or a script change on `id` may change. */
    ghost function ManagerOf(buttonId: nat): set<object>
      reads this, buttons.Values
    {
      if buttonId in buttons then {buttons[buttonId].processManager} else {}
    }

    /**
     * `clear_buttons`: with a deck and a blank image, every key for no id,
     * only key `id - 1` for an id in `1..key_count`, otherwise nothing.
     */
    method ClearButtons(buttonId: Option<int>, blank: Option<ImageBytes>)
      modifies this`deviceOps
      ensures deviceOps == old(deviceOps) + (if deck.Some? && blank.Some? then KeyWrites(Serial(), ClearedKeys(buttonId, keyCount), blank.value) else [])
    {
      if deck.None? || blank.None? {
        return;
      }
      var image := blank.value;
      if buttonId.None? {
        ClearAllKeys(image);
      } else if 1 <= buttonId.value <= keyCount {
        deviceOps := deviceOps + [KeyImage(Serial(), buttonId.value - 1, image)];
        assert [buttonId.value - 1][..0] == [];
      }
    }

    /** The loop of `clear_buttons` without an id: the blank image on keys `0..key_count-1`, in order. */
    method ClearAllKeys(image: ImageBytes)
      modifies this`deviceOps
      ensures deviceOps == old(deviceOps) + KeyWrites(Serial(), Range(keyCount), image)
    {
      var count := keyCount;
      var serial := Serial();
      var keyIndex := 0;
      while keyIndex < count
        invariant 0 <= keyIndex <= count
        invariant unchanged(this`deck, this`keyCount)
        invariant deviceOps == old(deviceOps) + KeyWrites(serial, Range(keyIndex), image)
      {
        ghost var written := deviceOps;
        deviceOps := deviceOps + [KeyImage(serial, keyIndex, image)];
        assert deviceOps == written + [KeyImage(serial, keyIndex, image)];
        KeyWritesExtend(old(deviceOps), serial, keyIndex, image);
        keyIndex := keyIndex + 1;
      }
    }

    /**
     * `update_button_image`: with a deck and a present button whose
     * `image.*` file is found, the prepared image on its key; nothing
     * otherwise.
     */
    method UpdateButtonImage(buttonId: nat, fs: Fs, images: Images)
      modifies this`deviceOps
      ensures deviceOps == old(deviceOps) +
                (if deck.Some? && buttonId in buttons then ImageWrite(Serial(), buttonId, buttons[buttonId].workingDir, fs, images) else [])
    {
      if deck.None? || buttonId !in buttons {
        return;
      }
      var button := buttons[buttonId];
      var imagePath := button.FindImageFile(fs);
      if imagePath.None? {
        return;
      }
      match images.buttonImage(buttonId)
      case Some(image) =>
        deviceOps := deviceOps + [KeyImage(Serial(), buttonId - 1, image)];
      case None =>
    }

    /** The first half of `reload_button`: the button for `id`, if any, is stopped and removed. */
    method DropButton(buttonId: nat)
      requires Valid()
      modifies this`buttons, Footprint(buttonId)
      ensures Valid() && buttons == old(buttons) - {buttonId}
      ensures unchanged(fileWatcher)
      ensures buttonId in old(buttons) ==> !old(buttons[buttonId]).running && old(buttons)[buttonId].StoppedSince()
    {
      if buttonId in buttons {
        var previous := buttons[buttonId];
        Remove(buttons, buttonId);
        buttons := buttons - {buttonId};
        previous.Stop();
      }
    }

    /** `reload_button` once a working directory is found: a new button is stored, loaded, started and shown. */
    method InstallButton(buttonId: nat, workingDir: string, fs: Fs, runs: Runs, images: Images)
      requires Valid() && buttonId !in buttons && IsDir(fs, workingDir)
      modifies this`buttons, this`deviceOps
      ensures Valid() && buttonId in buttons && buttons == old(buttons)[buttonId := buttons[buttonId]]
      ensures fresh(buttons[buttonId]) && buttons[buttonId].workingDir == workingDir &&
                buttons[buttonId].NewlyStarted(fs, runs.update(buttonId), runs.background(buttonId))
      ensures deviceOps == old(deviceOps) + (if deck.Some? then ImageWrite(Serial(), buttonId, workingDir, fs, images) else [])
    {
      label Before:
      var button := LoadedButton(workingDir, fs, runs.update(buttonId), runs.background(buttonId));
      StaysValid@Before(buttons);
      StoreAndShow(buttonId, button, fs, images);
    }

    /** Stores a button under an id the map does not hold and shows its image; the button itself is not touched. */
    method StoreAndShow(buttonId: nat, button: Button, fs: Fs, images: Images)
      requires Valid() && buttonId !in buttons && button.Valid()
      requires forall i | i in buttons :: buttons[i].processManager != button.processManager
      modifies this`buttons, this`deviceOps
      ensures Valid() && buttons == old(buttons)[buttonId := button]
      ensures deviceOps == old(deviceOps) + (if deck.Some? then ImageWrite(Serial(), buttonId, button.workingDir, fs, images) else [])
    {
      AddFresh(buttons, buttonId, button);
      buttons := buttons[buttonId := button];
      label Installed:
      UpdateButtonImage(buttonId, fs, images);
      StaysValid@Installed(buttons);
    }

    /** The second half of `reload_button`: a button for `id` when its working directory is found, otherwise a blanked key. */
    method AddButton(buttonId: nat, fs: Fs, runs: Runs, images: Images)
      requires Valid() && buttonId !in buttons
      modifies this`buttons, this`deviceOps
      ensures Valid() && old(buttons) == buttons - {buttonId}
      ensures buttonId in buttons <==> WorkingDirFor(fs, configDir, buttonId).Some?
      ensures buttonId in buttons ==>
                fresh(buttons[buttonId]) && buttons[buttonId].workingDir == WorkingDirFor(fs, configDir, buttonId).value &&
                buttons[buttonId].NewlyStarted(fs, runs.update(buttonId), runs.background(buttonId))
      ensures deviceOps == old(deviceOps) +
                if WorkingDirFor(fs, configDir, buttonId).None? then
                  (if deck.Some? && images.blank.Some? then KeyWrites(Serial(), ClearedKeys(Some(buttonId), keyCount), images.blank.value) else [])
                else if deck.Some? then ImageWrite(Serial(), buttonId, WorkingDirFor(fs, configDir, buttonId).value, fs, images)
                else []
    {
      var workingDir := FindButtonWorkingDir(fs, configDir, buttonId);
      if workingDir.Some? {
        WorkingDirIsDir(fs, configDir, buttonId);
        InstallButton(buttonId, workingDir.value, fs, runs, images);
        AddThenRemove(old(buttons), buttonId, buttons[buttonId]);
        assert WorkingDirFor(fs, configDir, buttonId).Some?;
      } else {
        assert WorkingDirFor(fs, configDir, buttonId).None?;
        ClearButtons(Some(buttonId), images.blank);
      }
    }

    /**
     * `reload_button`: the old button for `id` is stopped and removed; a new
     * one is stored only when a working directory is found, and is started
     * and shown once its configuration loads (which it does, the directory
     * having just been found); without a directory the key is blanked.
     * Every other id keeps its button.
     */
    method ReloadButton(buttonId: nat, fs: Fs, runs: Runs, images: Images)
      requires Valid()
      modifies this`buttons, this`deviceOps, Footprint(buttonId)
      ensures Valid()
      ensures buttonId in buttons <==> WorkingDirFor(fs, configDir, buttonId).Some?
      ensures buttonId in buttons ==>
                fresh(buttons[buttonId]) && buttons[buttonId].workingDir == WorkingDirFor(fs, configDir, buttonId).value &&
                buttons[buttonId].NewlyStarted(fs, runs.update(buttonId), runs.background(buttonId))
      ensures buttons - {buttonId} == old(buttons) - {buttonId}
      ensures buttonId in old(buttons) ==> !old(buttons[buttonId]).running && old(buttons)[buttonId].StoppedSince()
      ensures unchanged(fileWatcher)
      ensures deviceOps == old(deviceOps) +
                if WorkingDirFor(fs, configDir, buttonId).None? then
                  (if deck.Some? && images.blank.Some? then KeyWrites(Serial(), ClearedKeys(Some(buttonId), keyCount), images.blank.value) else [])
                else if deck.Some? then ImageWrite(Serial(), buttonId, WorkingDirFor(fs, configDir, buttonId).value, fs, images)
                else []
    {
      DropButton(buttonId);
      AddButton(buttonId, fs, runs, images);
    }

    /** `reload_button` as `_smart_reload_affected_buttons` relies on it: only the map is described. */
    method ReloadAffectedButton(buttonId: nat, fs: Fs, runs: Runs, images: Images)
      requires Valid()
      modifies this`buttons, this`deviceOps, Footprint(buttonId)
      ensures Valid()
      ensures buttonId in buttons <==> WorkingDirFor(fs, configDir, buttonId).Some?
      ensures buttonId in buttons ==>
                fresh(buttons[buttonId]) && buttons[buttonId].workingDir == WorkingDirFor(fs, configDir, buttonId).value &&
                buttons[buttonId].NewlyStarted(fs, runs.update(buttonId), runs.background(buttonId))
      ensures buttonId in old(buttons) ==> !old(buttons[buttonId]).running && old(buttons)[buttonId].StoppedSince()
      ensures unchanged(fileWatcher)
      ensures deviceOps == old(deviceOps) + DeckReloadWrite(Serial(), deck.Some?, keyCount, WorkingDirs(fs, configDir), fs, buttonId, images)
      ensures forall id | id != buttonId :: id in buttons <==> id in old(buttons)
      ensures forall id | id != buttonId && id in buttons ::
                buttons[id] == old(buttons[id]) && buttons[id].processManager == old(buttons[id].processManager) && buttons[id].running == old(buttons[id].running)
    {
      ghost var previous := buttons;
      assert forall id | id in buttons && id != buttonId :: buttons[id] !in Footprint(buttonId);
      ReloadButton(buttonId, fs, runs, images);
      forall id | id != buttonId
        ensures id in buttons <==> id in previous
        ensures id in buttons ==> buttons[id] == previous[id]
      {
        assert id in buttons <==> id in buttons - {buttonId};
        assert id in previous <==> id in previous - {buttonId};
        if id in buttons {
          assert buttons[id] == (buttons - {buttonId})[id];
        }
      }
    }

    /**
     * `_smart_reload_affected_buttons`: reloads exactly the affected ids;
     * each ends with a button exactly when its working directory is found,
     * and every other id keeps its button.
     */
    method SmartReloadAffectedButtons(eventType: string, srcPath: string, destPath: string, fs: Fs, runs: Runs, images: Images) returns (ghost order: seq<nat>)
      requires Valid()
      modifies this`buttons, this`deviceOps, buttons.Values, Managers(buttons)
      ensures Valid() && unchanged(fileWatcher) && deck == old(deck) && keyCount == old(keyCount)
      ensures var affected := AffectedButtons(fs, eventType, srcPath, destPath, configDir, keyCount);
              forall id | id in affected ::
                (id in buttons <==> WorkingDirFor(fs, configDir, id).Some?) &&
                (id in buttons ==> WorkingDirFor(fs, configDir, id) == Some(buttons[id].workingDir))
      ensures var affected := AffectedButtons(fs, eventType, srcPath, destPath, configDir, keyCount);
              forall id | id in affected && id in buttons :: buttons[id] !in old(buttons).Values && buttons[id].running
      ensures var affected := AffectedButtons(fs, eventType, srcPath, destPath, configDir, keyCount);
              forall id | id in affected && id in old(buttons) :: !old(buttons)[id].running
      ensures var affected := AffectedButtons(fs, eventType, srcPath, destPath, configDir, keyCount);
              forall id | id !in affected :: (id in buttons <==> id in old(buttons)) && (id in buttons ==> buttons[id] == old(buttons[id]))
      ensures Enumerates(order, {}, AffectedButtons(fs, eventType, srcPath, destPath, configDir, keyCount))
      ensures deviceOps == old(deviceOps) + DeckReloadWrites(Serial(), deck.Some?, keyCount, WorkingDirs(fs, configDir), fs, order, images)
    {
      var affected := AffectedButtons(fs, eventType, srcPath, destPath, configDir, keyCount);
      ValidInjective(buttons);
      order := ReloadEach(affected, fs, runs, images, buttons);
    }

    /** The loop of `_smart_reload_affected_buttons`: `reload_button` on each id of `affected`, in the order `order`. */
    method ReloadEach(affected: set<nat>, fs: Fs, runs: Runs, images: Images, ghost before: map<nat, Button>) returns (ghost order: seq<nat>)
      requires Valid() && before == buttons && Injective(before)
      modifies this`buttons, this`deviceOps, buttons.Values, Managers(buttons)
      ensures Valid() && Swept(WorkingDirs(fs, configDir), affected, {}, buttons, old(buttons))
      ensures forall id | id in affected && id in buttons :: buttons[id].running && buttons[id] !in old(buttons).Values
      ensures forall id | id in affected && id in before :: !before[id].running
      ensures unchanged(fileWatcher) && deck == old(deck) && keyCount == old(keyCount)
      ensures Enumerates(order, {}, affected)
      ensures deviceOps == old(deviceOps) + DeckReloadWrites(Serial(), deck.Some?, keyCount, WorkingDirs(fs, configDir), fs, order, images)
    {
      var todo := affected;
      ghost var managers := map id | id in buttons :: buttons[id].processManager;
      ghost var base, serial, connected, count := deviceOps, Serial(), deck.Some?, keyCount;
      order := [];
      assert forall id | id in managers :: managers[id] in old(Managers(buttons));
      while todo != {}
        invariant Valid() && Swept(WorkingDirs(fs, configDir), affected, todo, buttons, before)
        invariant forall id | id in todo && id in buttons :: id in managers && buttons[id].processManager == managers[id]
        invariant Reloaded(affected, todo, buttons, before)
        invariant unchanged(fileWatcher)
        invariant Serial() == serial && deck.Some? == connected && keyCount == count
        invariant Enumerates(order, todo, affected)
        invariant deviceOps == base + DeckReloadWrites(serial, connected, count, WorkingDirs(fs, configDir), fs, order, images)
        decreases todo
      {
        var buttonId :| buttonId in todo;
        assert buttonId in buttons ==> buttons[buttonId] == before[buttonId] && buttons[buttonId].processManager == managers[buttonId];
        ReloadStep(buttonId, fs, runs, images, affected, todo, before, order, base, serial, connected, count);
        order := order + [buttonId];
        todo := todo - {buttonId};
      }
    }

    /**
     * One step of `_smart_reload_affected_buttons`: `reload_button` on one
     * id still to do, which keeps every reloaded id's new, started button
     * and extends the writes so far.
     */
    method ReloadStep(buttonId: nat, fs: Fs, runs: Runs, images: Images,
                      ghost affected: set<nat>, ghost todo: set<nat>, ghost before: map<nat, Button>, ghost order: seq<nat>, ghost base: seq<DeviceOp>,
                      ghost serial: nat, ghost connected: bool, ghost count: nat)
      requires Valid() && buttonId in todo && Swept(WorkingDirs(fs, configDir), affected, todo, buttons, before)
      requires Reloaded(affected, todo, buttons, before)
      requires Injective(before)
      requires Enumerates(order, todo, affected)
      requires Serial() == serial && deck.Some? == connected && keyCount == count
      requires deviceOps == base + DeckReloadWrites(serial, connected, count, WorkingDirs(fs, configDir), fs, order, images)
      modifies this`buttons, this`deviceOps, Footprint(buttonId)
      ensures Valid() && Swept(WorkingDirs(fs, configDir), affected, todo - {buttonId}, buttons, before)
      ensures Reloaded(affected, todo - {buttonId}, buttons, before)
      ensures forall id | id != buttonId :: id in buttons <==> id in old(buttons)
      ensures forall id | id != buttonId && id in buttons :: buttons[id] == old(buttons[id]) && buttons[id].processManager == old(buttons[id].processManager)
      ensures unchanged(fileWatcher) && deck == old(deck) && keyCount == old(keyCount)
      ensures Enumerates(order + [buttonId], todo - {buttonId}, affected)
      ensures deviceOps == base + DeckReloadWrites(serial, connected, count, WorkingDirs(fs, configDir), fs, order + [buttonId], images)
    {
      ghost var previous := buttons;
      forall id | id in before && id != buttonId
        ensures before[id] !in Footprint(buttonId)
      {
        if buttonId in buttons {
          assert buttons[buttonId] == before[buttonId] != before[id];
        }
      }
      ReloadKeepingStarted(buttonId, fs, runs, images, affected, todo, before);
      SweptStep(WorkingDirs(fs, configDir), affected, todo, previous, buttons, before, buttonId);
      EnumeratesStep(order, todo, affected, buttonId);
      DeckReloadWritesStep(serial, connected, count, WorkingDirs(fs, configDir), fs, order, images, buttonId);
      AppendAssoc(base, DeckReloadWrites(serial, connected, count, WorkingDirs(fs, configDir), fs, order, images),
                  DeckReloadWrite(serial, connected, count, WorkingDirs(fs, configDir), fs, buttonId, images));
    }

    /** `reload_button` on an id still to do: the ids already reloaded keep their new, started buttons, and their old buttons stay stopped. */
    method ReloadKeepingStarted(buttonId: nat, fs: Fs, runs: Runs, images: Images, ghost affected: set<nat>, ghost todo: set<nat>, ghost before: map<nat, Button>)
      requires Valid() && buttonId in todo
      requires Reloaded(affected, todo, buttons, before)
      requires (buttonId in buttons <==> buttonId in before) && (buttonId in buttons ==> buttons[buttonId] == before[buttonId])
      requires forall id | id in before && id != buttonId :: before[id] !in Footprint(buttonId)
      modifies this`buttons, this`deviceOps, Footprint(buttonId)
      ensures Valid()
      ensures buttonId in buttons <==> WorkingDirFor(fs, configDir, buttonId).Some?
      ensures buttonId in buttons ==> WorkingDirFor(fs, configDir, buttonId) == Some(buttons[buttonId].workingDir)
      ensures Reloaded(affected, todo - {buttonId}, buttons, before)
      ensures forall id | id != buttonId :: id in buttons <==> id in old(buttons)
      ensures forall id | id != buttonId && id in buttons :: buttons[id] == old(buttons[id]) && buttons[id].processManager == old(buttons[id].processManager)
      ensures unchanged(fileWatcher) && deck == old(deck) && keyCount == old(keyCount)
      ensures deviceOps == old(deviceOps) + DeckReloadWrite(Serial(), deck.Some?, keyCount, WorkingDirs(fs, configDir), fs, buttonId, images)
    {
      ghost var previous := buttons;
      ReloadAffectedButton(buttonId, fs, runs, images);
      forall id | id in affected && id !in todo - {buttonId} && id in buttons
        ensures buttons[id].running && buttons[id] !in before.Values
      {
        if id != buttonId {
          assert buttons[id] == previous[id];
        }
      }
      forall id | id in affected && id !in todo - {buttonId} && id in before
        ensures !before[id].running
      {
        if id == buttonId {
          assert before[id] == old(buttons[buttonId]);
        }
      }
    }

    /**
     * `_handle_button_directories_changed`: the watcher is stopped, the
     * affected buttons are reloaded, and a new observer is started.
     */
    method HandleButtonDirectoriesChanged(data: map<string, string>, fs: Fs, runs: Runs, images: Images) returns (ghost order: seq<nat>)
      requires Valid()
      modifies this`buttons, this`deviceOps, buttons.Values, Managers(buttons), fileWatcher`observer, fileWatcher`observersCreated
      ensures Valid() && deck == old(deck) && keyCount == old(keyCount)
      ensures fileWatcher.observer == Some(old(fileWatcher.observersCreated)) && fileWatcher.observersCreated == old(fileWatcher.observersCreated) + 1
      ensures var affected := AffectedButtons(fs, Get(data, "event_type"), Get(data, "src_path"), Get(data, "dest_path"), configDir, keyCount);
              forall id | id in affected ::
                (id in buttons <==> WorkingDirFor(fs, configDir, id).Some?) &&
                (id in buttons ==> WorkingDirFor(fs, configDir, id) == Some(buttons[id].workingDir))
      ensures var affected := AffectedButtons(fs, Get(data, "event_type"), Get(data, "src_path"), Get(data, "dest_path"), configDir, keyCount);
              forall id | id in affected && id in buttons :: buttons[id] !in old(buttons).Values && buttons[id].running
      ensures var affected := AffectedButtons(fs, Get(data, "event_type"), Get(data, "src_path"), Get(data, "dest_path"), configDir, keyCount);
              forall id | id in affected && id in old(buttons) :: !old(buttons)[id].running
      ensures var affected := AffectedButtons(fs, Get(data, "event_type"), Get(data, "src_path"), Get(data, "dest_path"), configDir, keyCount);
              forall id | id !in affected :: (id in buttons <==> id in old(buttons)) && (id in buttons ==> buttons[id] == old(buttons[id]))
      ensures Enumerates(order, {}, AffectedButtons(fs, Get(data, "event_type"), Get(data, "src_path"), Get(data, "dest_path"), configDir, keyCount))
      ensures deviceOps == old(deviceOps) + DeckReloadWrites(Serial(), deck.Some?, keyCount, WorkingDirs(fs, configDir), fs, order, images)
    {
      ghost var previous := buttons;
      Unwatch();
      order := SmartReloadAffectedButtons(Get(data, "event_type"), Get(data, "src_path"), Get(data, "dest_path"), fs, runs, images);
      label AfterReload:
      Rewatch(previous);
      assert forall id | id in previous :: previous[id].running == old@AfterReload(previous[id].running);
    }

    /** Stops the watcher before a reload; the buttons stay valid. */
    method Unwatch()
      requires Valid()
      modifies fileWatcher`observer
      ensures Valid() && fileWatcher.observer == None
    {
      label Watching:
      fileWatcher.StopWatching();
      StaysValid@Watching(buttons);
    }

    /** Restarts the watcher after a reload; the buttons stay valid, and those of `kept` keep their running flags. */
    method Rewatch(ghost kept: map<nat, Button>)
      requires Valid() && fileWatcher.observer == None
      modifies fileWatcher`observer, fileWatcher`observersCreated
      ensures Valid()
      ensures forall id | id in kept :: kept[id].running == old(kept[id].running)
      ensures fileWatcher.observer == Some(old(fileWatcher.observersCreated)) && fileWatcher.observersCreated == old(fileWatcher.observersCreated) + 1
    {
      label Stopped:
      fileWatcher.StartWatching();
      StaysValid@Stopped(buttons);
    }

    /**
     * `_create_buttons`: every old button is stopped and dropped; then one
     * new, stopped button per id in `1..key_count` that has a working
     * directory.
     */
    method CreateButtons(fs: Fs)
      requires Valid()
      modifies this`buttons, buttons.Values, Managers(buttons)
      ensures Valid()
      ensures buttons.Keys == ButtonIds(fs, configDir, old(keyCount))
      ensures forall id | id in buttons ::
                fresh(buttons[id]) && fresh(buttons[id].processManager) && !buttons[id].running &&
                WorkingDirFor(fs, configDir, id) == Some(buttons[id].workingDir)
      ensures forall id | id in old(buttons) :: !old(buttons)[id].running
      ensures forall id | id in old(buttons) :: old(buttons)[id].StoppedSince()
    {
      StopAll(buttons);
      buttons := map[];
      FillButtons(fs);
    }

    /** The loop of `_create_buttons` on the emptied map: the new buttons replace the map. */
    method FillButtons(fs: Fs)
      requires fileWatcher.debouncer == debouncer && fileWatcher.configDir == configDir
      modifies this`buttons
      ensures Valid()
      ensures buttons.Keys == ButtonIds(fs, configDir, keyCount)
      ensures forall id | id in buttons ::
                fresh(buttons[id]) && fresh(buttons[id].processManager) && !buttons[id].running &&
                WorkingDirFor(fs, configDir, id) == Some(buttons[id].workingDir)
    {
      var created := NewButtons(fs, configDir, keyCount);
      WorkingDirsAgree(fs, configDir, created);
      label Created:
      buttons := created;
      StaysValid@Created(created);
    }

    /** `_device_key_callback`: a press on key `k` presses button `k + 1` when present; releases are ignored. */
    method DeviceKeyCallback(key: nat, pressed: bool, fs: Fs, outcome: RunOutcome)
      requires Valid()
      modifies ManagerOf(key + 1)
      ensures Valid() && buttons == old(buttons)
      ensures !pressed ==> unchanged(ManagerOf(key + 1))
      ensures pressed && key + 1 in buttons ==> buttons[key + 1].processManager.StartEffect("action", "action", fs, outcome)
    {
      var buttonId := KeyToButton(key, pressed);
      if buttonId.Some? && buttonId.value in buttons {
        buttons[buttonId.value].HandlePress(fs, outcome);
      }
    }

    /**
     * `_handle_file_change`: carries out `FileChangeAction` — the image
     * refresh on the deck, or the script change on the button.
     */
    method HandleFileChange(data: map<string, string>, fs: Fs, images: Images, outcome: RunOutcome) returns (ghost action: FileAction)
      requires Valid()
      modifies this`deviceOps, Managers(buttons)
      ensures action == old(FileChangeAction(fs, data, configDir, keyCount, buttons.Keys))
      ensures Valid() && buttons == old(buttons)
      ensures deviceOps == old(deviceOps) +
                (if action.RefreshImage? && deck.Some?
                 then ImageWrite(Serial(), action.buttonId, buttons[action.buttonId].workingDir, fs, images) else [])
      ensures action.ScriptChanged? && action.scriptType == "update" ==> buttons[action.buttonId].processManager.StartEffect("update", "update", fs, outcome)
      ensures action.ScriptChanged? && action.scriptType == "background" ==> buttons[action.buttonId].processManager.StopStartEffect("background", fs, outcome)
      ensures forall id | id in buttons && !(action.ScriptChanged? && id == action.buttonId) :: unchanged(buttons[id].processManager)
    {
      var decided := FileChangeAction(fs, data, configDir, keyCount, buttons.Keys);
      action := decided;
      PerformFileAction(decided, fs, images, outcome);
    }

    /** The effect of one `FileAction` of a present button. */
    method PerformFileAction(action: FileAction, fs: Fs, images: Images, outcome: RunOutcome)
      requires Valid() && (action != NoAction ==> action.buttonId in buttons)
      modifies this`deviceOps, Managers(buttons)
      ensures Valid() && buttons == old(buttons)
      ensures deviceOps == old(deviceOps) +
                (if action.RefreshImage? && deck.Some?
                 then ImageWrite(Serial(), action.buttonId, buttons[action.buttonId].workingDir, fs, images) else [])
      ensures action.ScriptChanged? && action.scriptType == "update" ==> buttons[action.buttonId].processManager.StartEffect("update", "update", fs, outcome)
      ensures action.ScriptChanged? && action.scriptType == "background" ==> buttons[action.buttonId].processManager.StopStartEffect("background", fs, outcome)
      ensures forall id | id in buttons && !(action.ScriptChanged? && id == action.buttonId) :: unchanged(buttons[id].processManager)
    {
      match action
      case NoAction =>
      case RefreshImage(buttonId) =>
        UpdateButtonImage(buttonId, fs, images);
      case ScriptChanged(buttonId, scriptType) =>
        assert forall id | id in buttons && id != buttonId :: buttons[id].processManager != buttons[buttonId].processManager;
        ChangeScript(buttons, buttonId, scriptType, fs, outcome);
    }
  }
}

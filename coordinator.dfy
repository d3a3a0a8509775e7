/**
 * The coordinator: the id-to-button map kept in step with the device and
 * the configuration directory. Buttons are created when a deck connects,
 * dropped when it disconnects, reloaded one by one when their directories
 * change, and pressed through the key callback. Image preparation, the
 * blank and error images and the buttons' `file_changed` answer come in as
 * inputs (the `Images` record and a flag); what the coordinator writes to
 * the deck is the hardware manager's `deviceOps` log.
 */
module Coordination {

  import opened Wrappers
  import opened Text
  import opened Paths
  import opened Filesystem
  import opened CrashWindow
  import opened Processes
  import opened Buttons
  import opened ButtonMaps
  import opened ButtonPaths
  import opened Hardware
  import opened Config
  import opened EventBus
  import opened FileWatch
  import opened Orders

  /**
   * The image layer's answers: per button the image prepared for the deck
   * (`None` when the button has no image or it cannot be prepared), and
   * the prepared blank and error images (`None` when loading or preparing
   * fails).
   */
  datatype Images = Images(buttonImage: nat -> Option<ImageBytes>, blank: Option<ImageBytes>, error: Option<ImageBytes>)

  /** How the update and background scripts of button `id` turn out when launched. */
  datatype Runs = Runs(update: nat -> RunOutcome, background: nat -> RunOutcome)

  /** The coordinator's subscriptions on the event bus. */
  const FileChangeHandler: HandlerId := 0
  const DirectoriesChangedHandler: HandlerId := 1
  const ConfigChangeHandler: HandlerId := 2

  /** `data.get(key, "")`. */
  function Get(data: map<string, string>, key: string): string
  {
    if key in data then data[key] else ""
  }

  /** The file event types the coordinator acts on. */
  predicate IsHandledFileEvent(eventType: string)
  {
    eventType == "modified" || eventType == "moved" || eventType == "created" || eventType == "closed"
  }

  /** The working directory of every id in the configuration directory. */
  function WorkingDirs(fs: Fs, configDir: string): nat -> Option<string>
  {
    (id: nat) => WorkingDirFor(fs, configDir, id)
  }

  /** The ids in `1..bound-1` that `dirs` gives a working directory, gathered upwards as `_create_buttons` visits them. */
  function IdsBelow(dirs: nat -> Option<string>, bound: nat): set<nat>
  {
    if bound <= 1 then {}
    else IdsBelow(dirs, bound - 1) + (if dirs(bound - 1).Some? then {bound - 1} else {})
  }

  /** Exactly the ids in `1..bound-1` with a working directory are gathered. */
  lemma {:induction false} IdsBelowExactly(dirs: nat -> Option<string>, bound: nat, id: nat)
    ensures id in IdsBelow(dirs, bound) <==> 1 <= id < bound && dirs(id).Some?
    decreases bound
  {
    if bound > 1 {
      IdsBelowExactly(dirs, bound - 1, id);
    }
  }

  /** What `WorkingDirs` says of a map of buttons, said through `WorkingDirFor`. */
  lemma WorkingDirsAgree(fs: Fs, configDir: string, buttons: map<nat, Button>)
    requires forall id | id in buttons :: WorkingDirs(fs, configDir)(id) == Some(buttons[id].workingDir)
    ensures forall id | id in buttons :: WorkingDirFor(fs, configDir, id) == Some(buttons[id].workingDir)
  {
  }

  /** The ids `_create_buttons` makes buttons for. */
  function ButtonIds(fs: Fs, configDir: string, keyCount: nat): set<nat>
  {
    IdsBelow(WorkingDirs(fs, configDir), keyCount + 1)
  }

  /** `_create_buttons` makes a button for an id exactly when it is a key number with a working directory. */
  lemma ButtonIdsExactly(fs: Fs, configDir: string, keyCount: nat, id: nat)
    ensures id in ButtonIds(fs, configDir, keyCount) <==> 1 <= id <= keyCount && WorkingDirFor(fs, configDir, id).Some?
  {
    IdsBelowExactly(WorkingDirs(fs, configDir), keyCount + 1, id);
  }

  /** `_show_error_image`'s write on a connected deck: the error image on key `id - 1`, if it loads. */
  function ErrorWrites(serial: nat, buttonId: int, images: Images): (ops: seq<DeviceOp>)
    ensures images.error.None? ==> ops == []
    ensures images.error.Some? ==> ops == [KeyImage(serial, buttonId - 1, images.error.value)]
  {
    if images.error.Some? then [KeyImage(serial, buttonId - 1, images.error.value)] else []
  }

  /** `update_button_image`'s write on a connected deck for a present button: its image, or else the error image. */
  function ImageWrites(serial: nat, buttonId: nat, images: Images): (ops: seq<DeviceOp>)
    ensures |ops| <= 1
    ensures forall k | 0 <= k < |ops| :: ops[k].KeyImage? && ops[k].key == buttonId - 1
    ensures images.buttonImage(buttonId).Some? ==> ops == [KeyImage(serial, buttonId - 1, images.buttonImage(buttonId).value)]
    ensures images.buttonImage(buttonId).None? ==> ops == ErrorWrites(serial, buttonId, images)
  {
    match images.buttonImage(buttonId)
    case Some(image) => [KeyImage(serial, buttonId - 1, image)]
    case None => ErrorWrites(serial, buttonId, images)
  }

  /**
   * The writes `_load_all_buttons` makes on a connected deck when it loads
   * the buttons in `order`: the button's image (or the error image) when
   * its directory exists, the error image when it does not; an id the map
   * does not hold writes nothing.
   */
  function LoadWrites(serial: nat, order: seq<nat>, buttons: map<nat, Button>, fs: Fs, images: Images): (ops: seq<DeviceOp>)
    ensures |ops| <= |order|
    ensures images.error.Some? && (forall k | 0 <= k < |order| :: order[k] in buttons) ==> |ops| == |order|
    ensures forall k | 0 <= k < |ops| :: ops[k].KeyImage? && ops[k].serial == serial && ops[k].key + 1 in order
  {
    if order == [] then []
    else
      var id := order[|order| - 1];
      LoadWrites(serial, order[..|order| - 1], buttons, fs, images) +
        (if id !in buttons then [] else if IsDir(fs, buttons[id].workingDir) then ImageWrites(serial, id, images) else ErrorWrites(serial, id, images))
  }

  /**
   * Every button `_load_all_buttons` loads shows on its key: its own image
   * when its directory exists and the image loads, otherwise the error
   * image, when that loads.
   */
  lemma {:induction false} LoadWritesShowEach(serial: nat, order: seq<nat>, buttons: map<nat, Button>, fs: Fs, images: Images, id: nat)
    requires id in order && id in buttons
    ensures IsDir(fs, buttons[id].workingDir) && images.buttonImage(id).Some? ==>
              KeyImage(serial, id - 1, images.buttonImage(id).value) in LoadWrites(serial, order, buttons, fs, images)
    ensures (!IsDir(fs, buttons[id].workingDir) || images.buttonImage(id).None?) && images.error.Some? ==>
              KeyImage(serial, id - 1, images.error.value) in LoadWrites(serial, order, buttons, fs, images)
    decreases |order|
  {
    var last := order[|order| - 1];
    var front := order[..|order| - 1];
    var writes := if last !in buttons then [] else if IsDir(fs, buttons[last].workingDir) then ImageWrites(serial, last, images) else ErrorWrites(serial, last, images);
    assert LoadWrites(serial, order, buttons, fs, images) == LoadWrites(serial, front, buttons, fs, images) + writes;
    if id != last {
      assert id in front;
      LoadWritesShowEach(serial, front, buttons, fs, images, id);
    }
  }

  /** The writes of one more loaded button extend the writes so far, on a connected deck. */
  lemma LoadWritesExtend(base: seq<DeviceOp>, connected: bool, serial: nat, order: seq<nat>, buttons: map<nat, Button>, fs: Fs, images: Images, id: nat, ops: seq<DeviceOp>)
    requires id in buttons
    requires ops == base + (if connected then LoadWrites(serial, order, buttons, fs, images) else []) +
                    (if connected then (if IsDir(fs, buttons[id].workingDir) then ImageWrites(serial, id, images) else ErrorWrites(serial, id, images)) else [])
    ensures ops == base + (if connected then LoadWrites(serial, order + [id], buttons, fs, images) else [])
  {
    LoadWritesStep(serial, order, buttons, fs, images, id);
    if connected {
      AppendAssoc(base, LoadWrites(serial, order, buttons, fs, images),
                  if IsDir(fs, buttons[id].workingDir) then ImageWrites(serial, id, images) else ErrorWrites(serial, id, images));
    } else {
      assert ops == base + [] + [];
    }
  }

  /** Loading one more button appends its writes. */
  lemma LoadWritesStep(serial: nat, order: seq<nat>, buttons: map<nat, Button>, fs: Fs, images: Images, id: nat)
    requires id in buttons
    ensures LoadWrites(serial, order + [id], buttons, fs, images) ==
              LoadWrites(serial, order, buttons, fs, images) +
              (if IsDir(fs, buttons[id].workingDir) then ImageWrites(serial, id, images) else ErrorWrites(serial, id, images))
  {
    assert (order + [id])[..|order|] == order;
  }

  /**
   * The button whose image `_handle_file_change` refreshes: the event type
   * is one it handles, the path belongs to a present button, the button
   * reports the file as handled and the file's name starts with `image.`.
   */
  function FileChangeTarget(fs: Fs, data: map<string, string>, configDir: string, keyCount: nat, present: set<nat>, fileChanged: bool): (target: Option<nat>)
    ensures target.Some? ==> IsHandledFileEvent(Get(data, "event_type")) && fileChanged
    ensures target.Some? ==> target.value == ExtractButtonId(fs, Get(data, "path"), configDir, keyCount)
    ensures target.Some? ==> 1 <= target.value <= keyCount && target.value in present
    ensures target.Some? ==> StartsWith(Basename(Get(data, "path")), "image.")
    ensures target.None? ==>
              !IsHandledFileEvent(Get(data, "event_type")) || !fileChanged || !StartsWith(Basename(Get(data, "path")), "image.") ||
              ExtractButtonId(fs, Get(data, "path"), configDir, keyCount) !in present || ExtractButtonId(fs, Get(data, "path"), configDir, keyCount) == 0
  {
    var path := Get(data, "path");
    if !IsHandledFileEvent(Get(data, "event_type")) then None
    else
      var buttonId := ExtractButtonId(fs, path, configDir, keyCount);
      if buttonId == 0 || buttonId !in present then None
      else if fileChanged && StartsWith(Basename(path), "image.") then Some(buttonId)
      else None
  }

  /** A changed `image.*` file of a present button's directory refreshes that button. */
  lemma FileChangeRefreshesButtonImage(fs: Fs, data: map<string, string>, configDir: string, dir: string, file: string, keyCount: nat, present: set<nat>)
    requires configDir != [] && configDir[|configDir| - 1] != '/'
    requires dir != [] && '/' !in dir
    requires file != [] && '/' !in file && StartsWith(file, "image.")
    requires Get(data, "path") == Join(Join(configDir, dir), file)
    requires IsHandledFileEvent(Get(data, "event_type"))
    requires IdOfName(dir, keyCount) in present && IdOfName(dir, keyCount) != 0
    ensures FileChangeTarget(fs, data, configDir, keyCount, present, true) == Some(IdOfName(dir, keyCount))
  {
    assert file[5] == '.';
    ExtractButtonIdOfFile(fs, configDir, dir, file, keyCount);
    JoinParts(configDir, dir);
    JoinParts(Join(configDir, dir), file);
  }

  /**
   * `reload_button`'s writes for `id`: without a working directory its key
   * is blanked, when the deck is there and the blank image loads;
   * otherwise, on a connected deck, the button's image or the error image.
   */
  function ReloadWrite(serial: nat, connected: bool, keyCount: nat, dirs: nat -> Option<string>, buttonId: nat, images: Images): (ops: seq<DeviceOp>)
    ensures |ops| <= 1
    ensures forall k | 0 <= k < |ops| :: ops[k].KeyImage? && ops[k].serial == serial && ops[k].key == buttonId - 1
    ensures !connected ==> ops == []
  {
    if dirs(buttonId).None? then
      (if connected && images.blank.Some? then KeyWrites(serial, ClearedKeys(Some(buttonId), keyCount), images.blank.value) else [])
    else if connected then ImageWrites(serial, buttonId, images) else []
  }

  /** The writes of `_smart_reload_affected_buttons` when it reloads the ids in `order`: one key per id at most, and only keys of `order`. */
  function ReloadWrites(serial: nat, connected: bool, keyCount: nat, dirs: nat -> Option<string>, order: seq<nat>, images: Images): (ops: seq<DeviceOp>)
    ensures |ops| <= |order|
    ensures !connected ==> ops == []
  {
    if order == [] then []
    else
      ReloadWrites(serial, connected, keyCount, dirs, order[..|order| - 1], images) +
        ReloadWrite(serial, connected, keyCount, dirs, order[|order| - 1], images)
  }

  /** `_smart_reload_affected_buttons` writes only the keys of the ids it reloads, on the deck it holds. */
  lemma {:induction false} ReloadWritesOnlyReloaded(serial: nat, connected: bool, keyCount: nat, dirs: nat -> Option<string>, order: seq<nat>, images: Images)
    ensures forall op | op in ReloadWrites(serial, connected, keyCount, dirs, order, images) :: op.KeyImage? && op.serial == serial && op.key + 1 in order
    decreases |order|
  {
    if order != [] {
      var front, last := order[..|order| - 1], order[|order| - 1];
      ReloadWritesOnlyReloaded(serial, connected, keyCount, dirs, front, images);
      var earlier := ReloadWrites(serial, connected, keyCount, dirs, front, images);
      var latest := ReloadWrite(serial, connected, keyCount, dirs, last, images);
      assert ReloadWrites(serial, connected, keyCount, dirs, order, images) == earlier + latest;
      forall op: DeviceOp | op in earlier + latest
        ensures op.KeyImage? && op.serial == serial && op.key + 1 in order
      {
        if op in earlier {
          var j :| 0 <= j < |front| && front[j] == op.key + 1;
          assert order[j] == front[j];
        } else {
          var k :| 0 <= k < |latest| && latest[k] == op;
        }
      }
    }
  }

  /**
   * After `_smart_reload_affected_buttons`, every reloaded id shows its own
   * image when it has a working directory, and its blank key when it has
   * none, whenever those images load.
   */
  lemma {:induction false} ReloadWritesShowEach(serial: nat, connected: bool, keyCount: nat, dirs: nat -> Option<string>, order: seq<nat>, images: Images, id: nat)
    requires id in order && connected
    ensures dirs(id).Some? && images.buttonImage(id).Some? ==>
              KeyImage(serial, id - 1, images.buttonImage(id).value) in ReloadWrites(serial, connected, keyCount, dirs, order, images)
    ensures dirs(id).None? && images.blank.Some? && 1 <= id <= keyCount ==>
              KeyImage(serial, id - 1, images.blank.value) in ReloadWrites(serial, connected, keyCount, dirs, order, images)
    decreases |order|
  {
    var front := order[..|order| - 1];
    var last := order[|order| - 1];
    assert ReloadWrites(serial, connected, keyCount, dirs, order, images) ==
             ReloadWrites(serial, connected, keyCount, dirs, front, images) + ReloadWrite(serial, connected, keyCount, dirs, last, images);
    if id != last {
      assert id in front;
      ReloadWritesShowEach(serial, connected, keyCount, dirs, front, images, id);
    }
  }

  /** Reloading one more id appends its writes. */
  lemma ReloadWritesStep(serial: nat, connected: bool, keyCount: nat, dirs: nat -> Option<string>, order: seq<nat>, images: Images, id: nat)
    ensures ReloadWrites(serial, connected, keyCount, dirs, order + [id], images) ==
              ReloadWrites(serial, connected, keyCount, dirs, order, images) + ReloadWrite(serial, connected, keyCount, dirs, id, images)
  {
    assert (order + [id])[..|order|] == order;
  }

  /**
   * The ids of `affected` already reloaded (not in `todo`) hold running
   * buttons that are not among the old ones of `before`, and those old
   * buttons are stopped.
   */
  ghost predicate Reloaded(affected: set<nat>, todo: set<nat>, buttons: map<nat, Button>, before: map<nat, Button>)
    reads buttons.Values, before.Values
  {
    (forall id | id in affected && id !in todo && id in buttons :: buttons[id].running && buttons[id] !in before.Values) &&
    (forall id | id in affected && id !in todo && id in before :: !before[id].running)
  }

  /**
   * Where `_smart_reload_affected_buttons` stands with `todo` still to
   * reload: each reloaded id has a button exactly when `dirs` gives it a
   * working directory, on that directory; every other id keeps the
   * button it had in `before`.
   */
  ghost predicate Swept(dirs: nat -> Option<string>, affected: set<nat>, todo: set<nat>, buttons: map<nat, Button>, before: map<nat, Button>)
  {
    todo <= affected &&
    (forall id | id in affected && id !in todo :: id in buttons <==> dirs(id).Some?) &&
    (forall id | id in affected && id !in todo && id in buttons :: dirs(id) == Some(buttons[id].workingDir)) &&
    (forall id | id !in affected || id in todo :: id in buttons <==> id in before) &&
    (forall id | (id !in affected || id in todo) && id in buttons :: buttons[id] == before[id])
  }

  /** The loop of `_create_buttons`: a new, stopped button for each id in `1..keyCount` that has a working directory. */
  method NewButtons(fs: Fs, configDir: string, keyCount: nat) returns (created: map<nat, Button>)
    ensures ButtonsValid(created)
    ensures created.Keys == ButtonIds(fs, configDir, keyCount)
    ensures forall id | id in created :: fresh(created[id]) && fresh(created[id].processManager) && !created[id].running
    ensures forall id | id in created :: WorkingDirs(fs, configDir)(id) == Some(created[id].workingDir)
  {
    ghost var dirs := WorkingDirs(fs, configDir);
    created := map[];
    var buttonId: nat := 1;
    while buttonId <= keyCount
      invariant 1 <= buttonId <= keyCount + 1
      invariant ButtonsValid(created) && Gathered(dirs, buttonId, created)
      invariant forall id | id in created :: fresh(created[id]) && fresh(created[id].processManager) && !created[id].running
    {
      IdsBelowExactly(dirs, buttonId, buttonId);
      var next := NewButtonIfConfigured(created, fs, configDir, buttonId);
      GatheredStep(dirs, buttonId, created, next);
      forall id | id in next
        ensures fresh(next[id]) && fresh(next[id].processManager) && !next[id].running
      {
        if id != buttonId || dirs(buttonId).None? {
          assert next[id] == created[id];
        }
      }
      created := next;
      buttonId := buttonId + 1;
    }
    GatheredAll(fs, configDir, keyCount, dirs, buttonId, created);
  }

  /** Past the last key, the gathered buttons are exactly those of `ButtonIds`. */
  lemma GatheredAll(fs: Fs, configDir: string, keyCount: nat, dirs: nat -> Option<string>, bound: nat, created: map<nat, Button>)
    requires dirs == WorkingDirs(fs, configDir) && bound == keyCount + 1 && Gathered(dirs, bound, created)
    ensures created.Keys == ButtonIds(fs, configDir, keyCount)
    ensures forall id | id in created :: WorkingDirs(fs, configDir)(id) == Some(created[id].workingDir)
  {
  }

  /** The buttons made for the ids below `bound`: one per id with a working directory, each for that directory. */
  ghost predicate Gathered(dirs: nat -> Option<string>, bound: nat, created: map<nat, Button>)
  {
    created.Keys == IdsBelow(dirs, bound) &&
    forall id | id in created :: dirs(id) == Some(created[id].workingDir)
  }

  /** One step of `_create_buttons`: a new, stopped button for `id` when it has a working directory. */
  method NewButtonIfConfigured(created: map<nat, Button>, fs: Fs, configDir: string, buttonId: nat) returns (next: map<nat, Button>)
    requires ButtonsValid(created) && buttonId !in created
    ensures ButtonsValid(next)
    ensures WorkingDirs(fs, configDir)(buttonId).None? ==> next == created
    ensures WorkingDirs(fs, configDir)(buttonId).Some? ==>
              buttonId in next && next == created[buttonId := next[buttonId]] &&
              WorkingDirs(fs, configDir)(buttonId) == Some(next[buttonId].workingDir) &&
              fresh(next[buttonId]) && fresh(next[buttonId].processManager) && !next[buttonId].running
  {
    var workingDir := FindButtonWorkingDir(fs, configDir, buttonId);
    assert workingDir == WorkingDirs(fs, configDir)(buttonId);
    next := created;
    if workingDir.Some? {
      next := AddNewButton(created, buttonId, workingDir.value);
    }
  }

  /** Visiting `bound` adds its button exactly when it has a working directory. */
  lemma GatheredStep(dirs: nat -> Option<string>, bound: nat, created: map<nat, Button>, next: map<nat, Button>)
    requires 1 <= bound && Gathered(dirs, bound, created)
    requires dirs(bound).None? ==> next == created
    requires dirs(bound).Some? ==> bound in next && next == created[bound := next[bound]] && dirs(bound) == Some(next[bound].workingDir)
    ensures Gathered(dirs, bound + 1, next)
  {
  }

  /** Reloading one id still to do, and touching no other id, moves it from `todo` to done. */
  lemma SweptStep(dirs: nat -> Option<string>, affected: set<nat>, todo: set<nat>, previous: map<nat, Button>, buttons: map<nat, Button>, before: map<nat, Button>, buttonId: nat)
    requires Swept(dirs, affected, todo, previous, before) && buttonId in todo
    requires buttonId in buttons <==> dirs(buttonId).Some?
    requires buttonId in buttons ==> dirs(buttonId) == Some(buttons[buttonId].workingDir)
    requires forall id | id != buttonId :: id in buttons <==> id in previous
    requires forall id | id != buttonId && id in buttons :: buttons[id] == previous[id]
    ensures Swept(dirs, affected, todo - {buttonId}, buttons, before)
  {
  }

  class Coordinator {

    const configDir: string
    const configManager: ConfigManager
    const debouncer: Debouncer
    const fileWatcher: FileWatcher
    const hardware: DeviceHardwareManager
    var buttons: map<nat, Button>

    ghost predicate Valid()
      reads this, buttons.Values, Managers(buttons)
    {
      ButtonsValid(buttons) &&
      fileWatcher.debouncer == debouncer && fileWatcher.configDir == configDir && configManager.configDir == configDir
    }

    /** `__init__`: no buttons, no deck, and the three handlers subscribed in order. */
    constructor(configDir: string, debounceInterval: nat)
      ensures Valid() && debouncer.Valid() && this.configDir == configDir && buttons == map[]
      ensures hardware.deck == None && fileWatcher.observer == None && debouncer.debounceInterval == debounceInterval
      ensures debouncer.subscribers == map["FILE_CHANGED" := [FileChangeHandler], "BUTTON_DIRECTORIES_CHANGED" := [DirectoriesChangedHandler], "CONFIG_CHANGED" := [ConfigChangeHandler]]
    {
      this.configDir := configDir;
      configManager := new ConfigManager(configDir);
      var bus := new Debouncer(debounceInterval);
      debouncer := bus;
      fileWatcher := new FileWatcher(bus, configDir);
      buttons := map[];
      hardware := new DeviceHardwareManager();
      new;
      assert debouncer.subscribers == map[];
      assert SubscribersOf(debouncer.subscribers, "FILE_CHANGED") + [FileChangeHandler] == [FileChangeHandler];
      debouncer.Subscribe("FILE_CHANGED", FileChangeHandler);
      assert SubscribersOf(debouncer.subscribers, "BUTTON_DIRECTORIES_CHANGED") + [DirectoriesChangedHandler] == [DirectoriesChangedHandler];
      debouncer.Subscribe("BUTTON_DIRECTORIES_CHANGED", DirectoriesChangedHandler);
      assert SubscribersOf(debouncer.subscribers, "CONFIG_CHANGED") + [ConfigChangeHandler] == [ConfigChangeHandler];
      debouncer.Subscribe("CONFIG_CHANGED", ConfigChangeHandler);
    }

    /** The serial of the current deck (0 without one). */
    function Serial(): nat
      reads hardware`deck
    {
      if hardware.deck.Some? then hardware.deck.value.device.serial else 0
    }

    /** The objects reloading or pressing button `id` may change. */
    ghost function Footprint(buttonId: nat): set<object>
      reads this, buttons.Values
    {
      if buttonId in buttons then {buttons[buttonId], buttons[buttonId].processManager} else {}
    }

    /** `clear_buttons`: blanks the keys `ClearedKeys` names, only while connected and when the blank image loads. */
    method ClearButtons(buttonId: Option<int>, blank: Option<ImageBytes>)
      modifies hardware`deviceOps
      ensures hardware.deviceOps == old(hardware.deviceOps) +
                (if hardware.IsConnected() && blank.Some? then KeyWrites(Serial(), ClearedKeys(buttonId, hardware.GetKeyCount()), blank.value) else [])
    {
      if !hardware.IsConnected() || blank.None? {
        return;
      }
      var image := blank.value;
      if buttonId.None? {
        ClearAllKeys(image);
      } else if 1 <= buttonId.value <= hardware.GetKeyCount() {
        hardware.SetKeyImage(buttonId.value - 1, image);
        assert [buttonId.value - 1][..0] == [];
      }
    }

    /** The loop of `clear_buttons` without an id: the blank image on every key, in key order. */
    method ClearAllKeys(image: ImageBytes)
      requires hardware.IsConnected()
      modifies hardware`deviceOps
      ensures hardware.deviceOps == old(hardware.deviceOps) + KeyWrites(Serial(), Range(hardware.GetKeyCount()), image)
    {
      var keyCount := hardware.GetKeyCount();
      var serial := Serial();
      var keyIndex := 0;
      while keyIndex < keyCount
        invariant 0 <= keyIndex <= keyCount
        invariant unchanged(hardware`deck) && hardware.IsConnected() && hardware.deck.value.device.serial == serial
        invariant hardware.deviceOps == old(hardware.deviceOps) + KeyWrites(serial, Range(keyIndex), image)
      {
        KeyWritesExtend(old(hardware.deviceOps), serial, keyIndex, image);
        hardware.SetKeyImage(keyIndex, image);
        keyIndex := keyIndex + 1;
      }
    }

    /** `_show_error_image`: the error image on key `id - 1` while connected. */
    method ShowErrorImage(buttonId: int, images: Images)
      modifies hardware`deviceOps
      ensures hardware.deviceOps == old(hardware.deviceOps) + (if hardware.IsConnected() then ErrorWrites(Serial(), buttonId, images) else [])
    {
      if !hardware.IsConnected() || images.error.None? {
        return;
      }
      hardware.SetKeyImage(buttonId - 1, images.error.value);
    }

    /** `update_button_image`: a present button's image (or the error image) on its key while connected. */
    method UpdateButtonImage(buttonId: nat, images: Images)
      modifies hardware`deviceOps
      ensures hardware.deviceOps == old(hardware.deviceOps) +
                (if hardware.IsConnected() && buttonId in buttons then ImageWrites(Serial(), buttonId, images) else [])
    {
      if !hardware.IsConnected() || buttonId !in buttons {
        return;
      }
      match images.buttonImage(buttonId)
      case Some(image) =>
        hardware.SetKeyImage(buttonId - 1, image);
      case None =>
        ShowErrorImage(buttonId, images);
    }

    /** The first half of `reload_button`: the button for `id`, if any, is stopped and removed. */
    method DropButton(buttonId: nat)
      requires Valid()
      modifies this`buttons, Footprint(buttonId)
      ensures Valid() && buttons == old(buttons) - {buttonId}
      ensures unchanged(hardware, fileWatcher)
      ensures buttonId in old(buttons) ==> !old(buttons[buttonId]).running && old(buttons)[buttonId].StoppedSince()
    {
      if buttonId in buttons {
        var previous := buttons[buttonId];
        Remove(buttons, buttonId);
        buttons := buttons - {buttonId};
        previous.Stop();
      }
    }

    /** The second half of `reload_button` once a working directory is found: a new button is stored, loaded, started and shown. */
    method InstallButton(buttonId: nat, workingDir: string, fs: Fs, runs: Runs, images: Images)
      requires Valid() && buttonId !in buttons && IsDir(fs, workingDir)
      modifies this`buttons, hardware`deviceOps
      ensures Valid() && buttonId in buttons && buttons == old(buttons)[buttonId := buttons[buttonId]]
      ensures fresh(buttons[buttonId]) && buttons[buttonId].workingDir == workingDir &&
                buttons[buttonId].NewlyStarted(fs, runs.update(buttonId), runs.background(buttonId))
      ensures hardware.deviceOps == old(hardware.deviceOps) + (if hardware.IsConnected() then ImageWrites(Serial(), buttonId, images) else [])
    {
      label Before:
      var button := LoadedButton(workingDir, fs, runs.update(buttonId), runs.background(buttonId));
      StaysValid@Before(buttons);
      StoreAndShow(buttonId, button, images);
    }

    /** Stores a button under an id the map does not hold and shows its image; the button itself is not touched. */
    method StoreAndShow(buttonId: nat, button: Button, images: Images)
      requires Valid() && buttonId !in buttons && button.Valid()
      requires forall i | i in buttons :: buttons[i].processManager != button.processManager
      modifies this`buttons, hardware`deviceOps
      ensures Valid() && buttons == old(buttons)[buttonId := button]
      ensures hardware.deviceOps == old(hardware.deviceOps) + (if hardware.IsConnected() then ImageWrites(Serial(), buttonId, images) else [])
    {
      AddFresh(buttons, buttonId, button);
      buttons := buttons[buttonId := button];
      label Installed:
      UpdateButtonImage(buttonId, images);
      StaysValid@Installed(buttons);
    }

    /** The second half of `reload_button`: a button for `id` when its working directory is found, otherwise a blanked key. */
    method AddButton(buttonId: nat, fs: Fs, runs: Runs, images: Images)
      requires Valid() && buttonId !in buttons
      modifies this`buttons, hardware`deviceOps
      ensures Valid() && old(buttons) == buttons - {buttonId}
      ensures buttonId in buttons <==> WorkingDirFor(fs, configDir, buttonId).Some?
      ensures buttonId in buttons ==>
                fresh(buttons[buttonId]) && buttons[buttonId].workingDir == WorkingDirFor(fs, configDir, buttonId).value &&
                buttons[buttonId].NewlyStarted(fs, runs.update(buttonId), runs.background(buttonId))
      ensures hardware.deviceOps == old(hardware.deviceOps) +
                if WorkingDirFor(fs, configDir, buttonId).None? then
                  (if hardware.IsConnected() && images.blank.Some? then KeyWrites(Serial(), ClearedKeys(Some(buttonId), hardware.GetKeyCount()), images.blank.value) else [])
                else if hardware.IsConnected() then ImageWrites(Serial(), buttonId, images) else []
    {
      var workingDir := FindButtonWorkingDir(fs, configDir, buttonId);
      if workingDir.Some? {
        WorkingDirIsDir(fs, configDir, buttonId);
        InstallButton(buttonId, workingDir.value, fs, runs, images);
        AddThenRemove(old(buttons), buttonId, buttons[buttonId]);
        assert WorkingDirFor(fs, configDir, buttonId).Some?;
      } else {
        assert WorkingDirFor(fs, configDir, buttonId).None?;
        ClearButtons(Some(buttonId), images.blank);
      }
    }

    /**
     * `reload_button`: the old button for `id` is stopped and removed; a new
     * one is stored only when a working directory is found, and is started
     * and shown once its configuration loads (which it does, the directory
     * having just been found); without a directory the key is blanked.
     * Every other id keeps its button.
     */
    method ReloadButton(buttonId: nat, fs: Fs, runs: Runs, images: Images)
      requires Valid()
      modifies this`buttons, hardware`deviceOps, Footprint(buttonId)
      ensures Valid()
      ensures buttonId in buttons <==> WorkingDirFor(fs, configDir, buttonId).Some?
      ensures buttonId in buttons ==>
                fresh(buttons[buttonId]) && buttons[buttonId].workingDir == WorkingDirFor(fs, configDir, buttonId).value &&
                buttons[buttonId].NewlyStarted(fs, runs.update(buttonId), runs.background(buttonId))
      ensures buttons - {buttonId} == old(buttons) - {buttonId}
      ensures buttonId in old(buttons) ==> !old(buttons[buttonId]).running && old(buttons)[buttonId].StoppedSince()
      ensures unchanged(hardware`deck, fileWatcher)
      ensures hardware.deviceOps == old(hardware.deviceOps) +
                if WorkingDirFor(fs, configDir, buttonId).None? then
                  (if hardware.IsConnected() && images.blank.Some? then KeyWrites(Serial(), ClearedKeys(Some(buttonId), hardware.GetKeyCount()), images.blank.value) else [])
                else if hardware.IsConnected() then ImageWrites(Serial(), buttonId, images) else []
    {
      ghost var written := hardware.deviceOps;
      DropButton(buttonId);
      assert hardware.deviceOps == written;
      AddButton(buttonId, fs, runs, images);
    }

    /** `reload_button` as `_smart_reload_affected_buttons` relies on it: only the map, the old button and the deck are described. */
    method ReloadAffectedButton(buttonId: nat, fs: Fs, runs: Runs, images: Images)
      requires Valid()
      modifies this`buttons, hardware`deviceOps, Footprint(buttonId)
      ensures Valid()
      ensures buttonId in buttons <==> WorkingDirFor(fs, configDir, buttonId).Some?
      ensures buttonId in buttons ==>
                fresh(buttons[buttonId]) && buttons[buttonId].workingDir == WorkingDirFor(fs, configDir, buttonId).value &&
                buttons[buttonId].NewlyStarted(fs, runs.update(buttonId), runs.background(buttonId))
      ensures buttonId in old(buttons) ==> !old(buttons[buttonId]).running && old(buttons)[buttonId].StoppedSince()
      ensures unchanged(hardware`deck, fileWatcher)
      ensures hardware.deviceOps == old(hardware.deviceOps) + ReloadWrite(Serial(), hardware.IsConnected(), hardware.GetKeyCount(), WorkingDirs(fs, configDir), buttonId, images)
      ensures forall id | id != buttonId :: id in buttons <==> id in old(buttons)
      ensures forall id | id != buttonId && id in buttons ::
                buttons[id] == old(buttons[id]) && buttons[id].processManager == old(buttons[id].processManager) && buttons[id].running == old(buttons[id].running)
    {
      ghost var previous := buttons;
      assert forall id | id in buttons && id != buttonId :: buttons[id] !in Footprint(buttonId);
      ReloadButton(buttonId, fs, runs, images);
      forall id | id != buttonId
        ensures id in buttons <==> id in previous
        ensures id in buttons ==> buttons[id] == previous[id]
      {
        assert id in buttons <==> id in buttons - {buttonId};
        assert id in previous <==> id in previous - {buttonId};
        if id in buttons {
          assert buttons[id] == (buttons - {buttonId})[id];
        }
      }
    }

    /**
     * `_smart_reload_affected_buttons`: reloads exactly the affected ids;
     * each ends with a button exactly when its working directory is found,
     * and every other id keeps its button.
     */
    method SmartReloadAffectedButtons(eventType: string, srcPath: string, destPath: string, fs: Fs, runs: Runs, images: Images) returns (ghost order: seq<nat>)
      requires Valid()
      modifies this`buttons, hardware`deviceOps, buttons.Values, Managers(buttons)
      ensures Valid() && unchanged(hardware`deck, fileWatcher)
      ensures var affected := AffectedButtons(fs, eventType, srcPath, destPath, configDir, hardware.GetKeyCount());
              forall id | id in affected ::
                (id in buttons <==> WorkingDirFor(fs, configDir, id).Some?) &&
                (id in buttons ==> WorkingDirFor(fs, configDir, id) == Some(buttons[id].workingDir))
      ensures var affected := AffectedButtons(fs, eventType, srcPath, destPath, configDir, hardware.GetKeyCount());
              forall id | id in affected && id in buttons :: buttons[id] !in old(buttons).Values && buttons[id].running
      ensures var affected := AffectedButtons(fs, eventType, srcPath, destPath, configDir, hardware.GetKeyCount());
              forall id | id in affected && id in old(buttons) :: !old(buttons)[id].running
      ensures var affected := AffectedButtons(fs, eventType, srcPath, destPath, configDir, hardware.GetKeyCount());
              forall id | id !in affected :: (id in buttons <==> id in old(buttons)) && (id in buttons ==> buttons[id] == old(buttons[id]))
      ensures Enumerates(order, {}, AffectedButtons(fs, eventType, srcPath, destPath, configDir, hardware.GetKeyCount()))
      ensures hardware.deviceOps == old(hardware.deviceOps) + ReloadWrites(Serial(), hardware.IsConnected(), hardware.GetKeyCount(), WorkingDirs(fs, configDir), order, images)
    {
      var affected := AffectedButtons(fs, eventType, srcPath, destPath, configDir, hardware.GetKeyCount());
      var todo := affected;
      ghost var before := buttons;
      ghost var managers := map id | id in buttons :: buttons[id].processManager;
      ghost var base, serial, connected, keyCount := hardware.deviceOps, Serial(), hardware.IsConnected(), hardware.GetKeyCount();
      order := [];
      assert forall id | id in managers :: managers[id] in old(Managers(buttons));
      ValidInjective(before);
      while todo != {}
        invariant Valid() && Swept(WorkingDirs(fs, configDir), affected, todo, buttons, before)
        invariant forall id | id in todo && id in buttons :: id in managers && buttons[id].processManager == managers[id]
        invariant Reloaded(affected, todo, buttons, before)
        invariant unchanged(hardware`deck, fileWatcher)
        invariant Enumerates(order, todo, affected)
        invariant hardware.deviceOps == base + ReloadWrites(serial, connected, keyCount, WorkingDirs(fs, configDir), order, images)
        decreases todo
      {
        var buttonId :| buttonId in todo;
        assert buttonId in buttons ==> buttons[buttonId] == before[buttonId] && buttons[buttonId].processManager == managers[buttonId];
        ReloadStep(buttonId, fs, runs, images, affected, todo, before, order, base, serial, connected, keyCount);
        order := order + [buttonId];
        todo := todo - {buttonId};
      }
    }

    /**
     * One step of `_smart_reload_affected_buttons`: `reload_button` on one
     * id still to do, which keeps every reloaded id's new, started button
     * and extends the writes so far.
     */
    method ReloadStep(buttonId: nat, fs: Fs, runs: Runs, images: Images,
                      ghost affected: set<nat>, ghost todo: set<nat>, ghost before: map<nat, Button>, ghost order: seq<nat>, ghost base: seq<DeviceOp>,
                      ghost serial: nat, ghost connected: bool, ghost keyCount: nat)
      requires Valid() && buttonId in todo && Swept(WorkingDirs(fs, configDir), affected, todo, buttons, before)
      requires Reloaded(affected, todo, buttons, before)
      requires Injective(before)
      requires Enumerates(order, todo, affected)
      requires Serial() == serial && hardware.IsConnected() == connected && hardware.GetKeyCount() == keyCount
      requires hardware.deviceOps == base + ReloadWrites(serial, connected, keyCount, WorkingDirs(fs, configDir), order, images)
      modifies this`buttons, hardware`deviceOps, Footprint(buttonId)
      ensures Valid() && Swept(WorkingDirs(fs, configDir), affected, todo - {buttonId}, buttons, before)
      ensures Reloaded(affected, todo - {buttonId}, buttons, before)
      ensures forall id | id != buttonId :: id in buttons <==> id in old(buttons)
      ensures forall id | id != buttonId && id in buttons :: buttons[id] == old(buttons[id]) && buttons[id].processManager == old(buttons[id].processManager)
      ensures unchanged(hardware`deck, fileWatcher)
      ensures Enumerates(order + [buttonId], todo - {buttonId}, affected)
      ensures hardware.deviceOps == base + ReloadWrites(serial, connected, keyCount, WorkingDirs(fs, configDir), order + [buttonId], images)
    {
      ghost var previous := buttons;
      forall id | id in before && id != buttonId
        ensures before[id] !in Footprint(buttonId)
      {
        if buttonId in buttons {
          assert buttons[buttonId] == before[buttonId] != before[id];
        }
      }
      ReloadKeepingStarted(buttonId, fs, runs, images, affected, todo, before);
      SweptStep(WorkingDirs(fs, configDir), affected, todo, previous, buttons, before, buttonId);
      EnumeratesStep(order, todo, affected, buttonId);
      ReloadWritesStep(serial, connected, keyCount, WorkingDirs(fs, configDir), order, images, buttonId);
      AppendAssoc(base, ReloadWrites(serial, connected, keyCount, WorkingDirs(fs, configDir), order, images),
                  ReloadWrite(serial, connected, keyCount, WorkingDirs(fs, configDir), buttonId, images));
    }

    /** `reload_button` on an id still to do: the ids already reloaded keep their new, started buttons, and their old buttons stay stopped. */
    method ReloadKeepingStarted(buttonId: nat, fs: Fs, runs: Runs, images: Images, ghost affected: set<nat>, ghost todo: set<nat>, ghost before: map<nat, Button>)
      requires Valid() && buttonId in todo
      requires Reloaded(affected, todo, buttons, before)
      requires (buttonId in buttons <==> buttonId in before) && (buttonId in buttons ==> buttons[buttonId] == before[buttonId])
      requires forall id | id in before && id != buttonId :: before[id] !in Footprint(buttonId)
      modifies this`buttons, hardware`deviceOps, Footprint(buttonId)
      ensures Valid()
      ensures buttonId in buttons <==> WorkingDirFor(fs, configDir, buttonId).Some?
      ensures buttonId in buttons ==> WorkingDirFor(fs, configDir, buttonId) == Some(buttons[buttonId].workingDir)
      ensures Reloaded(affected, todo - {buttonId}, buttons, before)
      ensures forall id | id != buttonId :: id in buttons <==> id in old(buttons)
      ensures forall id | id != buttonId && id in buttons :: buttons[id] == old(buttons[id]) && buttons[id].processManager == old(buttons[id].processManager)
      ensures unchanged(hardware`deck, fileWatcher)
      ensures hardware.deviceOps == old(hardware.deviceOps) + ReloadWrite(Serial(), hardware.IsConnected(), hardware.GetKeyCount(), WorkingDirs(fs, configDir), buttonId, images)
    {
      ghost var previous := buttons;
      ReloadAffectedButton(buttonId, fs, runs, images);
      forall id | id in affected && id !in todo - {buttonId} && id in buttons
        ensures buttons[id].running && buttons[id] !in before.Values
      {
        if id != buttonId {
          assert buttons[id] == previous[id];
        }
      }
      forall id | id in affected && id !in todo - {buttonId} && id in before
        ensures !before[id].running
      {
        if id == buttonId {
          assert before[id] == old(buttons[buttonId]);
        }
      }
    }

    /**
     * `_handle_button_directories_changed`: the watcher is stopped, the
     * affected buttons are reloaded, and a new observer is started.
     */
    method HandleButtonDirectoriesChanged(data: map<string, string>, fs: Fs, runs: Runs, images: Images) returns (ghost order: seq<nat>)
      requires Valid()
      modifies this`buttons, hardware`deviceOps, buttons.Values, Managers(buttons), fileWatcher`observer, fileWatcher`observersCreated
      ensures Valid()
      ensures fileWatcher.observer == Some(old(fileWatcher.observersCreated)) && fileWatcher.observersCreated == old(fileWatcher.observersCreated) + 1
      ensures var affected := AffectedButtons(fs, Get(data, "event_type"), Get(data, "src_path"), Get(data, "dest_path"), configDir, hardware.GetKeyCount());
              forall id | id in affected ::
                (id in buttons <==> WorkingDirFor(fs, configDir, id).Some?) &&
                (id in buttons ==> WorkingDirFor(fs, configDir, id) == Some(buttons[id].workingDir))
      ensures var affected := AffectedButtons(fs, Get(data, "event_type"), Get(data, "src_path"), Get(data, "dest_path"), configDir, hardware.GetKeyCount());
              forall id | id in affected && id in buttons :: buttons[id] !in old(buttons).Values && buttons[id].running
      ensures var affected := AffectedButtons(fs, Get(data, "event_type"), Get(data, "src_path"), Get(data, "dest_path"), configDir, hardware.GetKeyCount());
              forall id | id in affected && id in old(buttons) :: !old(buttons)[id].running
      ensures var affected := AffectedButtons(fs, Get(data, "event_type"), Get(data, "src_path"), Get(data, "dest_path"), configDir, hardware.GetKeyCount());
              forall id | id !in affected :: (id in buttons <==> id in old(buttons)) && (id in buttons ==> buttons[id] == old(buttons[id]))
      ensures Enumerates(order, {}, AffectedButtons(fs, Get(data, "event_type"), Get(data, "src_path"), Get(data, "dest_path"), configDir, hardware.GetKeyCount()))
      ensures hardware.deviceOps == old(hardware.deviceOps) + ReloadWrites(Serial(), hardware.IsConnected(), hardware.GetKeyCount(), WorkingDirs(fs, configDir), order, images)
    {
      ghost var previous := buttons;
      Unwatch();
      order := SmartReloadAffectedButtons(Get(data, "event_type"), Get(data, "src_path"), Get(data, "dest_path"), fs, runs, images);
      label AfterReload:
      Rewatch(previous);
      assert forall id | id in previous :: previous[id].running == old@AfterReload(previous[id].running);
    }

    /** Stops the watcher before a reload; the buttons stay valid. */
    method Unwatch()
      requires Valid()
      modifies fileWatcher`observer
      ensures Valid() && fileWatcher.observer == None
    {
      label Watching:
      fileWatcher.StopWatching();
      StaysValid@Watching(buttons);
    }

    /** Restarts the watcher after a reload; the buttons stay valid, and those of `kept` keep their running flags. */
    method Rewatch(ghost kept: map<nat, Button>)
      requires Valid() && fileWatcher.observer == None
      modifies fileWatcher`observer, fileWatcher`observersCreated
      ensures Valid()
      ensures forall id | id in kept :: kept[id].running == old(kept[id].running)
      ensures fileWatcher.observer == Some(old(fileWatcher.observersCreated)) && fileWatcher.observersCreated == old(fileWatcher.observersCreated) + 1
    {
      label Stopped:
      fileWatcher.StartWatching();
      StaysValid@Stopped(buttons);
    }

    /**
     * `_create_buttons`: every old button is stopped and dropped; then one
     * new, stopped button per id in `1..key_count` that has a working
     * directory (none without a deck).
     */
    method CreateButtons(fs: Fs)
      requires Valid()
      modifies this`buttons, buttons.Values, Managers(buttons)
      ensures Valid()
      ensures buttons.Keys == ButtonIds(fs, configDir, old(hardware.GetKeyCount()))
      ensures forall id | id in buttons ::
                fresh(buttons[id]) && fresh(buttons[id].processManager) && !buttons[id].running &&
                WorkingDirFor(fs, configDir, id) == Some(buttons[id].workingDir)
      ensures forall id | id in old(buttons) :: !old(buttons)[id].running
      ensures forall id | id in old(buttons) :: old(buttons)[id].StoppedSince()
    {
      ghost var keyCountBefore := hardware.GetKeyCount();
      StopAll(buttons);
      buttons := map[];
      var keyCount := hardware.GetKeyCount();
      assert keyCount == keyCountBefore;
      FillButtons(fs, keyCount);
    }

    /** The loop of `_create_buttons` on the emptied map: none without keys, otherwise the new buttons replace the map. */
    method FillButtons(fs: Fs, keyCount: nat)
      requires fileWatcher.debouncer == debouncer && fileWatcher.configDir == configDir && configManager.configDir == configDir
      requires buttons == map[]
      modifies this`buttons
      ensures Valid()
      ensures buttons.Keys == ButtonIds(fs, configDir, keyCount)
      ensures forall id | id in buttons ::
                fresh(buttons[id]) && fresh(buttons[id].processManager) && !buttons[id].running &&
                WorkingDirFor(fs, configDir, id) == Some(buttons[id].workingDir)
    {
      if keyCount == 0 {
        return;
      }
      var created := NewButtons(fs, configDir, keyCount);
      WorkingDirsAgree(fs, configDir, created);
      label Created:
      buttons := created;
      StaysValid@Created(created);
    }

    /**
     * `_load_all_buttons`: loads every button's configuration and shows its
     * image, or the error image when loading fails, taking the buttons in
     * the order `order`, which holds every id of the map once.
     */
    method LoadAllButtons(fs: Fs, runs: Runs, images: Images) returns (ghost order: seq<nat>)
      requires Valid()
      modifies Managers(buttons), hardware`deviceOps
      ensures Valid() && buttons == old(buttons)
      ensures Enumerates(order, {}, buttons.Keys)
      ensures hardware.deviceOps == old(hardware.deviceOps) + (if hardware.IsConnected() then LoadWrites(Serial(), order, buttons, fs, images) else [])
    {
      ghost var connected, serial, base := hardware.IsConnected(), Serial(), hardware.deviceOps;
      order := [];
      var todo := buttons.Keys;
      while todo != {}
        invariant Valid() && todo <= buttons.Keys && buttons == old(buttons)
        invariant Enumerates(order, todo, buttons.Keys)
        invariant hardware.IsConnected() == connected && Serial() == serial
        invariant hardware.deviceOps == base + (if connected then LoadWrites(serial, order, buttons, fs, images) else [])
        decreases todo
      {
        var buttonId :| buttonId in todo;
        LoadStep(buttonId, fs, runs.update(buttonId), images, base, order, connected, serial);
        EnumeratesStep(order, todo, buttons.Keys, buttonId);
        order := order + [buttonId];
        todo := todo - {buttonId};
      }
    }

    /**
     * One step of `_load_all_buttons`: `load_config` on the button, then its
     * image or the error image, which extends the writes made so far.
     */
    method LoadStep(buttonId: nat, fs: Fs, outcome: RunOutcome, images: Images, ghost base: seq<DeviceOp>, ghost order: seq<nat>, ghost connected: bool, ghost serial: nat)
      requires Valid() && buttonId in buttons
      requires hardware.IsConnected() == connected && Serial() == serial
      requires hardware.deviceOps == base + (if connected then LoadWrites(serial, order, buttons, fs, images) else [])
      modifies buttons[buttonId].processManager, hardware`deviceOps
      ensures Valid()
      ensures hardware.IsConnected() == connected && Serial() == serial
      ensures hardware.deviceOps == base + (if connected then LoadWrites(serial, order + [buttonId], buttons, fs, images) else [])
      ensures buttons[buttonId].LoadConfigEffect(fs, outcome)
    {
      var loaded := LoadButton(buttons, buttonId, fs, outcome);
      label Loaded:
      ShowLoaded(buttonId, loaded, images);
      StaysValid@Loaded(buttons);
      LoadWritesExtend(base, connected, serial, order, buttons, fs, images, buttonId, hardware.deviceOps);
    }

    /** The image half of a `_load_all_buttons` step: the button's image when it loaded, otherwise the error image. */
    method ShowLoaded(buttonId: nat, loaded: bool, images: Images)
      requires buttonId in buttons
      modifies hardware`deviceOps
      ensures hardware.deviceOps == old(hardware.deviceOps) +
                (if hardware.IsConnected() then (if loaded then ImageWrites(Serial(), buttonId, images) else ErrorWrites(Serial(), buttonId, images)) else [])
    {
      if loaded {
        UpdateButtonImage(buttonId, images);
      } else {
        ShowErrorImage(buttonId, images);
      }
    }

    /** `start`: starts every button. */
    method StartButtons(fs: Fs, runs: Runs)
      requires Valid()
      modifies buttons.Values, Managers(buttons)
      ensures Valid() && buttons == old(buttons)
      ensures forall id | id in buttons :: buttons[id].running
      ensures forall id | id in buttons ::
                buttons[id].processManager.launches ==
                old(buttons[id].processManager.launches) +
                (if old(buttons[id].running || buttons[id].processManager.IsRunning("background")) then []
                 else buttons[id].processManager.LaunchLog("background", "background", fs, runs.background(id)))
    {
      StartAll(buttons, fs, runs.background);
    }

    /**
     * `_on_device_connected`: leftover buttons are stopped and dropped, the
     * brightness setting is applied to the deck, and one started button is
     * made per id in `1..key_count` that has a working directory, whose
     * image (or the error image) is then written, in the order `order`.
     */
    method OnDeviceConnected(fs: Fs, user: UserConfig, runs: Runs, images: Images) returns (ghost order: seq<nat>)
      requires Valid()
      modifies this`buttons, buttons.Values, Managers(buttons), configManager, hardware`deviceOps
      ensures Valid()
      ensures buttons.Keys == ButtonIds(fs, configDir, hardware.GetKeyCount())
      ensures forall id | id in buttons :: fresh(buttons[id]) && buttons[id].running && WorkingDirFor(fs, configDir, id) == Some(buttons[id].workingDir)
      ensures forall id | id in old(buttons) :: !old(buttons)[id].running
      ensures forall id | id in old(buttons) :: old(buttons)[id].StoppedSince()
      ensures Enumerates(order, {}, buttons.Keys) && configManager.configCache.Some?
      ensures var brightness := BrightnessSetting(configManager.configCache.value);
              hardware.deviceOps == old(hardware.deviceOps) +
                (if brightness.Some? && hardware.deck.Some? then [Brightness(Serial(), brightness.value)] else []) +
                (if hardware.IsConnected() then LoadWrites(Serial(), order, buttons, fs, images) else [])
    {
      PrepareForDeck(user);
      order := BringUpButtons(fs, runs, images);
    }

    /**
     * The first half of `_on_device_connected`: leftover buttons are
     * stopped and dropped, then the settings are applied, which sets the
     * deck's brightness when the configuration has one.
     */
    method PrepareForDeck(user: UserConfig)
      requires Valid()
      modifies this`buttons, buttons.Values, Managers(buttons), configManager, hardware`deviceOps
      ensures Valid() && buttons == map[]
      ensures forall id | id in old(buttons) :: !old(buttons)[id].running
      ensures forall id | id in old(buttons) :: old(buttons)[id].StoppedSince()
      ensures configManager.configCache == (if old(configManager.configCache).Some? then old(configManager.configCache) else Some(ConfigFrom(user)))
      ensures var brightness := BrightnessSetting(configManager.configCache.value);
              hardware.deviceOps == old(hardware.deviceOps) + (if brightness.Some? && hardware.deck.Some? then [Brightness(Serial(), brightness.value)] else [])
    {
      if buttons != map[] {
        StopAll(buttons);
        buttons := map[];
      }
      ApplyDeckSettings(user);
    }

    /** `apply_all_settings` with a deck and the debouncer: the settings are read, and the brightness, when set, goes to the deck. */
    method ApplyDeckSettings(user: UserConfig)
      modifies configManager, hardware`deviceOps
      ensures configManager.configCache == (if old(configManager.configCache).Some? then old(configManager.configCache) else Some(ConfigFrom(user)))
      ensures var brightness := BrightnessSetting(configManager.configCache.value);
              hardware.deviceOps == old(hardware.deviceOps) + (if brightness.Some? && hardware.deck.Some? then [Brightness(Serial(), brightness.value)] else [])
    {
      var brightness := configManager.ApplyAllSettings(true, true, user);
      if brightness.Some? && hardware.deck.Some? {
        // `apply_all_settings` sets the brightness on the deck it is given directly.
        hardware.deviceOps := hardware.deviceOps + [Brightness(Serial(), brightness.value)];
      }
    }

    /**
     * The second half of `_on_device_connected`: `_create_buttons`,
     * `_load_all_buttons` and `start`; the new buttons' images (or the error
     * image) are written in the order `order`.
     */
    method BringUpButtons(fs: Fs, runs: Runs, images: Images) returns (ghost order: seq<nat>)
      requires Valid() && buttons == map[]
      modifies this`buttons, hardware`deviceOps
      ensures Valid()
      ensures buttons.Keys == ButtonIds(fs, configDir, hardware.GetKeyCount())
      ensures forall id | id in buttons :: fresh(buttons[id]) && buttons[id].running && WorkingDirFor(fs, configDir, id) == Some(buttons[id].workingDir)
      ensures Enumerates(order, {}, buttons.Keys)
      ensures hardware.deviceOps == old(hardware.deviceOps) + (if hardware.IsConnected() then LoadWrites(Serial(), order, buttons, fs, images) else [])
    {
      CreateButtons(fs);
      order := LoadAndStartButtons(fs, runs, images);
    }

    /**
     * `_load_all_buttons` followed by `start`: the map is kept, every button
     * shows its image (or the error image) and ends up running.
     */
    method LoadAndStartButtons(fs: Fs, runs: Runs, images: Images) returns (ghost order: seq<nat>)
      requires Valid()
      modifies Managers(buttons), buttons.Values, hardware`deviceOps
      ensures Valid() && buttons == old(buttons)
      ensures forall id | id in buttons :: buttons[id].running
      ensures Enumerates(order, {}, buttons.Keys)
      ensures hardware.deviceOps == old(hardware.deviceOps) + (if hardware.IsConnected() then LoadWrites(Serial(), order, buttons, fs, images) else [])
    {
      order := LoadAllButtons(fs, runs, images);
      StartButtons(fs, runs);
    }

    /** `_on_device_disconnected`: every button is stopped and the map is left empty. */
    method OnDeviceDisconnected()
      requires Valid()
      modifies this`buttons, buttons.Values, Managers(buttons)
      ensures Valid() && buttons == map[]
      ensures forall id | id in old(buttons) :: !old(buttons)[id].running
      ensures forall id | id in old(buttons) :: old(buttons)[id].StoppedSince()
    {
      StopAll(buttons);
      buttons := map[];
    }

    /** The process manager a key press on `id` may change. */
    ghost function PressFootprint(buttonId: nat): set<object>
      reads this, buttons.Values
    {
      if buttonId in buttons then {buttons[buttonId].processManager} else {}
    }

    /** `_on_key_press`: a present button runs its action script; a press on an absent id does nothing. */
    method OnKeyPress(buttonId: nat, fs: Fs, outcome: RunOutcome)
      requires Valid()
      modifies PressFootprint(buttonId)
      ensures Valid() && buttons == old(buttons)
      ensures buttonId in buttons ==> buttons[buttonId].processManager.StartEffect("action", "action", fs, outcome)
    {
      if buttonId in buttons {
        buttons[buttonId].HandlePress(fs, outcome);
      }
    }

    /**
     * `_handle_file_change`: refreshes the image of the button
     * `FileChangeTarget` names, `fileChanged` being that button's
     * `file_changed` answer for the file's name; otherwise nothing.
     */
    method HandleFileChange(data: map<string, string>, fs: Fs, fileChanged: bool, images: Images)
      modifies hardware`deviceOps
      ensures hardware.deviceOps == old(hardware.deviceOps) +
                match FileChangeTarget(fs, data, configDir, hardware.GetKeyCount(), buttons.Keys, fileChanged)
                case Some(id) => (if hardware.IsConnected() then ImageWrites(Serial(), id, images) else [])
                case None => []
    {
      var filePath := Get(data, "path");
      var eventType := Get(data, "event_type");
      if !IsHandledFileEvent(eventType) {
        return;
      }
      var buttonId := ExtractButtonId(fs, filePath, configDir, hardware.GetKeyCount());
      if buttonId == 0 || buttonId !in buttons {
        return;
      }
      var filename := Basename(filePath);
      var fileHandled := fileChanged;
      if fileHandled && StartsWith(filename, "image.") {
        UpdateButtonImage(buttonId, images);
      }
    }

    /** `_handle_config_change`: the configuration is read afresh (the debouncer is always passed, so even without a deck) and its brightness applied to the deck, if there is one. */
    method HandleConfigChange(user: UserConfig)
      modifies configManager, hardware`deviceOps
      ensures configManager.configCache == Some(ConfigFrom(user))
      ensures hardware.deviceOps == old(hardware.deviceOps) +
                if hardware.deck.Some? && BrightnessSetting(ConfigFrom(user)).Some? then [Brightness(Serial(), BrightnessSetting(ConfigFrom(user)).value)] else []
    {
      var brightness := configManager.ReloadConfig(hardware.deck.Some?, true, user);
      if brightness.Some? && hardware.deck.Some? {
        hardware.deviceOps := hardware.deviceOps + [Brightness(Serial(), brightness.value)];
      }
    }
  }
}

/**
 * A map from button id to `Button` object, as the coordinator and the
 * deck manager keep it: every button is valid and no two buttons share a
 * process manager, so stopping or starting one leaves the others alone.
 */
module ButtonMaps {

  import opened Filesystem
  import opened CrashWindow
  import opened Processes
  import opened Buttons

  /** The process managers of the buttons in the map. */
  ghost function Managers(buttons: map<nat, Button>): set<ProcessManager>
    reads buttons.Values
  {
    set id | id in buttons :: buttons[id].processManager
  }

  /** Every button is valid and their process managers are pairwise distinct. */
  ghost predicate ButtonsValid(buttons: map<nat, Button>)
    reads buttons.Values, Managers(buttons)
  {
    (forall id | id in buttons :: buttons[id].Valid()) &&
    (forall i, j | i in buttons && j in buttons && i != j :: buttons[i].processManager != buttons[j].processManager)
  }

  /** Distinct ids hold distinct buttons. */
  ghost predicate Injective(buttons: map<nat, Button>)
  {
    forall i, j | i in buttons && j in buttons && i != j :: buttons[i] != buttons[j]
  }

  /** Buttons with pairwise distinct process managers are pairwise distinct. */
  lemma ValidInjective(buttons: map<nat, Button>)
    requires ButtonsValid(buttons)
    ensures Injective(buttons)
  {
    forall i, j | i in buttons && j in buttons && i != j
      ensures buttons[i] != buttons[j]
    {
      assert buttons[i].processManager != buttons[j].processManager;
    }
  }

  /** A fresh, valid button joins a valid map. */
  lemma AddFresh(buttons: map<nat, Button>, id: nat, b: Button)
    requires ButtonsValid(buttons) && b.Valid()
    requires forall i | i in buttons :: buttons[i].processManager != b.processManager
    ensures ButtonsValid(buttons[id := b])
  {
    var m := buttons[id := b];
    forall i, j | i in m && j in m && i != j
      ensures m[i].processManager != m[j].processManager
    {
      if i != id && j != id {
        assert m[i] == buttons[i] && m[j] == buttons[j];
      } else if i == id {
        assert m[j] == buttons[j];
      } else {
        assert m[i] == buttons[i];
      }
    }
  }

  /** Removing a button keeps the rest valid, and the removed button and its manager are no longer in the map. */
  lemma Remove(buttons: map<nat, Button>, id: nat)
    requires ButtonsValid(buttons) && id in buttons
    ensures ButtonsValid(buttons - {id})
    ensures buttons[id] !in (buttons - {id}).Values
    ensures buttons[id].processManager !in Managers(buttons - {id})
  {
    var rest := buttons - {id};
    forall j | j in rest
      ensures rest[j] != buttons[id] && rest[j].processManager != buttons[id].processManager
    {
      assert buttons[j].processManager != buttons[id].processManager;
    }
  }

  /** A map of buttons stays valid while none of its buttons or their managers change. */
  twostate lemma StaysValid(buttons: map<nat, Button>)
    requires old(ButtonsValid(buttons))
    requires forall id | id in buttons :: old(buttons[id].processManager) == buttons[id].processManager
    requires forall id | id in buttons :: unchanged(buttons[id], buttons[id].processManager)
    ensures ButtonsValid(buttons)
  {
    forall id | id in buttons
      ensures buttons[id].Valid()
    {
      assert old(buttons[id].Valid());
    }
  }

  /** Adding a new id and then removing it again gives back the map. */
  lemma AddThenRemove(buttons: map<nat, Button>, id: nat, b: Button)
    requires id !in buttons
    ensures buttons[id := b] - {id} == buttons
  {
  }

  /** A new, stopped button for `workingDir` stored under `id`, which the map did not hold. */
  method AddNewButton(buttons: map<nat, Button>, id: nat, workingDir: string) returns (result: map<nat, Button>)
    requires ButtonsValid(buttons) && id !in buttons
    ensures ButtonsValid(result) && id in result && result == buttons[id := result[id]]
    ensures fresh(result[id]) && fresh(result[id].processManager) && !result[id].running && result[id].workingDir == workingDir
  {
    label Before:
    var button := new Button(workingDir);
    StaysValid@Before(buttons);
    AddFresh(buttons, id, button);
    result := buttons[id := button];
  }

  /**
   * A new button for `workingDir` whose configuration is loaded, and which
   * is then started: the sequence `reload_button` runs on a found directory.
   */
  method LoadedButton(workingDir: string, fs: Fs, updateOutcome: RunOutcome, backgroundOutcome: RunOutcome) returns (button: Button)
    requires IsDir(fs, workingDir)
    ensures fresh(button) && fresh(button.processManager) && button.Valid()
    ensures button.workingDir == workingDir && button.NewlyStarted(fs, updateOutcome, backgroundOutcome)
  {
    button := new Button(workingDir);
    button.LoadAndStart(fs, updateOutcome, backgroundOutcome);
  }

  /** `load_config` on one button of the map; the others are not touched. */
  method LoadButton(buttons: map<nat, Button>, id: nat, fs: Fs, outcome: RunOutcome) returns (loaded: bool)
    requires ButtonsValid(buttons) && id in buttons
    modifies buttons[id].processManager
    ensures ButtonsValid(buttons)
    ensures loaded == IsDir(fs, buttons[id].workingDir)
    ensures buttons[id].LoadConfigEffect(fs, outcome)
  {
    loaded := buttons[id].LoadConfig(fs, outcome);
  }

  /** `stop` on one button of the map, with the effect `StoppedSince`; the other buttons are not touched. */
  method StopButton(buttons: map<nat, Button>, id: nat)
    requires ButtonsValid(buttons) && id in buttons
    modifies buttons[id], buttons[id].processManager
    ensures ButtonsValid(buttons) && !buttons[id].running && buttons[id].StoppedSince()
    ensures forall i | i in buttons :: buttons[i].processManager == old(buttons[i].processManager)
    ensures forall i | i in buttons && i != id :: buttons[i].running == old(buttons[i].running)
    ensures forall i | i in buttons && i != id :: unchanged(buttons[i], buttons[i].processManager)
  {
    var button := buttons[id];
    assert forall i | i in buttons && i != id :: buttons[i].processManager != button.processManager && buttons[i] != button;
    button.Stop();
  }

  /** `start` on one button of the map; the other buttons keep their flags. */
  method StartButton(buttons: map<nat, Button>, id: nat, fs: Fs, outcome: RunOutcome)
    requires ButtonsValid(buttons) && id in buttons
    modifies buttons[id], buttons[id].processManager
    ensures ButtonsValid(buttons) && buttons[id].running
    ensures forall i | i in buttons :: buttons[i].processManager == old(buttons[i].processManager)
    ensures forall i | i in buttons && i != id ::
              buttons[i].running == old(buttons[i].running) &&
              buttons[i].processManager.processes == old(buttons[i].processManager.processes) &&
              buttons[i].processManager.launches == old(buttons[i].processManager.launches)
    ensures buttons[id].processManager.launches ==
              old(buttons[id].processManager.launches) +
              (if old(buttons[id].running || buttons[id].processManager.IsRunning("background")) then []
               else buttons[id].processManager.LaunchLog("background", "background", fs, outcome))
  {
    var button := buttons[id];
    assert forall i | i in buttons && i != id :: buttons[i].processManager != button.processManager && buttons[i] != button;
    button.Start(fs, outcome);
  }

  /** Stops every button of the map, each once, with the effect `StoppedSince`; the map itself is not changed. */
  method StopAll(buttons: map<nat, Button>)
    requires ButtonsValid(buttons)
    modifies buttons.Values, Managers(buttons)
    ensures ButtonsValid(buttons)
    ensures forall id | id in buttons :: !buttons[id].running && buttons[id].processManager == old(buttons[id].processManager)
    ensures forall id | id in buttons :: buttons[id].StoppedSince()
  {
    var todo := buttons.Keys;
    while todo != {}
      invariant todo <= buttons.Keys
      invariant forall id | id in buttons :: buttons[id].processManager == old(buttons[id].processManager)
      invariant ButtonsValid(buttons)
      invariant forall id | id in buttons && id !in todo :: !buttons[id].running && buttons[id].StoppedSince()
      invariant forall id | id in todo :: unchanged(buttons[id], buttons[id].processManager)
      decreases todo
    {
      var id :| id in todo;
      StopButton(buttons, id);
      todo := todo - {id};
    }
  }

  /**
   * Starts every button of the map, the background script of button `id`
   * launching with `outcomes(id)`: a button that was stopped, and whose
   * background script was not running, launches that script.
   */
  method StartAll(buttons: map<nat, Button>, fs: Fs, outcomes: nat -> RunOutcome)
    requires ButtonsValid(buttons)
    modifies buttons.Values, Managers(buttons)
    ensures ButtonsValid(buttons)
    ensures forall id | id in buttons :: buttons[id].running && buttons[id].processManager == old(buttons[id].processManager)
    ensures forall id | id in buttons ::
              buttons[id].processManager.launches ==
              old(buttons[id].processManager.launches) +
              (if old(buttons[id].running || buttons[id].processManager.IsRunning("background")) then []
               else buttons[id].processManager.LaunchLog("background", "background", fs, outcomes(id)))
  {
    var todo := buttons.Keys;
    while todo != {}
      invariant todo <= buttons.Keys
      invariant forall id | id in buttons :: buttons[id].processManager == old(buttons[id].processManager)
      invariant ButtonsValid(buttons)
      invariant forall id | id in buttons && id !in todo ::
                  buttons[id].running &&
                  buttons[id].processManager.launches ==
                  old(buttons[id].processManager.launches) +
                  (if old(buttons[id].running || buttons[id].processManager.IsRunning("background")) then []
                   else buttons[id].processManager.LaunchLog("background", "background", fs, outcomes(id)))
      invariant forall id | id in todo ::
                  buttons[id].running == old(buttons[id].running) &&
                  buttons[id].processManager.processes == old(buttons[id].processManager.processes) &&
                  buttons[id].processManager.launches == old(buttons[id].processManager.launches)
      decreases todo
    {
      var id :| id in todo;
      StartButton(buttons, id, fs, outcomes(id));
      todo := todo - {id};
    }
  }
}

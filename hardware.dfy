/**
 * The device session: the optional open deck, its health test, one pass
 * of the device monitor loop, connecting and disconnecting, the key
 * callback and the classification of USB events. The deck answers its
 * queries from recorded values (`None` stands for a query that raises);
 * what the manager does to the device is appended to `deviceOps`, and the
 * callbacks it makes to the layer above are appended to `notices`.
 */
module Hardware {

  import opened Wrappers
  import opened Text

  type ImageBytes = seq<bv8>

  /** A device as enumeration finds it: `keyCount` is `None` when `key_count()` raises. */
  datatype Device = Device(serial: nat, keyCount: Option<nat>, openFails: bool, closeFails: bool)

  /** The open deck: the device and what `connected()` and `is_open()` return (`None`: they raise). */
  datatype Deck = Deck(device: Device, connected: Option<bool>, isOpen: Option<bool>)

  /** What the manager does to a device. */
  datatype DeviceOp = Opened(serial: nat) | Closed(serial: nat) | KeyImage(serial: nat, key: int, image: ImageBytes) | Brightness(serial: nat, level: int)

  /** A callback to the layer above. */
  datatype Notice = Connected(serial: nat) | Disconnected | KeyPressed(buttonId: nat)

  /** A USB event from udev: its action and its properties. */
  datatype UsbEvent = UsbEvent(action: string, properties: map<string, string>)

  /** The key indices `0..n-1`, in order. */
  function Range(n: nat): (keys: seq<int>)
    ensures |keys| == n && forall k | 0 <= k < n :: keys[k] == k
  {
    if n == 0 then [] else Range(n - 1) + [n - 1]
  }

  /** Writing one image to each of `keys` in turn. */
  function KeyWrites(serial: nat, keys: seq<int>, image: ImageBytes): (ops: seq<DeviceOp>)
    ensures |ops| == |keys| && forall k | 0 <= k < |keys| :: ops[k] == KeyImage(serial, keys[k], image)
  {
    if keys == [] then [] else KeyWrites(serial, keys[..|keys| - 1], image) + [KeyImage(serial, keys[|keys| - 1], image)]
  }

  lemma AppendAssoc(a: seq<DeviceOp>, b: seq<DeviceOp>, c: seq<DeviceOp>)
    ensures (a + b) + c == a + (b + c)
  {
  }

  /** Writing to keys `0..n` is writing to keys `0..n-1`, then to key `n`. */
  lemma KeyWritesRangeStep(serial: nat, n: nat, image: ImageBytes)
    ensures KeyWrites(serial, Range(n + 1), image) == KeyWrites(serial, Range(n), image) + [KeyImage(serial, n, image)]
  {
    assert Range(n + 1)[..n] == Range(n);
  }

  /** Extending the writes to keys `0..n-1` after `done` by the write to key `n`. */
  lemma KeyWritesExtend(done: seq<DeviceOp>, serial: nat, n: nat, image: ImageBytes)
    ensures (done + KeyWrites(serial, Range(n), image)) + [KeyImage(serial, n, image)] == done + KeyWrites(serial, Range(n + 1), image)
  {
    KeyWritesRangeStep(serial, n, image);
    AppendAssoc(done, KeyWrites(serial, Range(n), image), [KeyImage(serial, n, image)]);
  }

  /**
   * The keys `clear_buttons` blanks: all of them for no id; for button
   * `id` only its key `id - 1`, and only when `1 <= id <= keyCount`.
   */
  function ClearedKeys(buttonId: Option<int>, keyCount: nat): (keys: seq<int>)
    ensures forall k | 0 <= k < |keys| :: 0 <= keys[k] < keyCount
    ensures buttonId.None? ==> keys == Range(keyCount)
    ensures buttonId.Some? && 1 <= buttonId.value <= keyCount ==> keys == [buttonId.value - 1]
    ensures buttonId.Some? && !(1 <= buttonId.value <= keyCount) ==> keys == []
  {
    match buttonId
    case None => Range(keyCount)
    case Some(id) => if 1 <= id <= keyCount then [id - 1] else []
  }

  /** The deck's health test: both `connected()` and `is_open()` return true. */
  predicate Healthy(deck: Deck)
  {
    deck.connected == Some(true) && deck.isOpen == Some(true)
  }

  /** The key callback's mapping: a press on key `k` is button `k + 1`; a release is ignored. */
  function KeyToButton(key: nat, pressed: bool): (buttonId: Option<nat>)
    ensures buttonId.Some? <==> pressed
    ensures buttonId.Some? ==> buttonId.value >= 1 && buttonId.value - 1 == key
  {
    if pressed then Some(key + 1) else None
  }

  /** `device.get(name, '')`. */
  function Property(e: UsbEvent, name: string): string
  {
    if name in e.properties then e.properties[name] else ""
  }

  /**
   * `_on_usb_event`'s test: an `add` or `remove` of a device with vendor
   * `0fd9` or a model name containing `stream` (any case), or any `add`.
   */
  function SignalsMonitor(e: UsbEvent): (r: bool)
    ensures r ==> e.action == "add" || e.action == "remove"
    ensures e.action == "add" ==> r
    ensures e.action == "remove" ==> (r <==> Lower(Property(e, "ID_VENDOR_ID")) == "0fd9" || Occurs("stream", Lower(Property(e, "ID_MODEL"))))
  {
    (e.action == "add" || e.action == "remove") &&
    (Lower(Property(e, "ID_VENDOR_ID")) == "0fd9" || Occurs("stream", Lower(Property(e, "ID_MODEL"))) || e.action == "add")
  }

  class DeviceHardwareManager {

    var deck: Option<Deck>
    /** The wake-up flag of the monitor loop. */
    var monitorEvent: bool
    var shutdownRequested: bool
    var deviceOps: seq<DeviceOp>
    var notices: seq<Notice>

    constructor()
      ensures deck == None && !monitorEvent && !shutdownRequested && deviceOps == [] && notices == []
    {
      deck := None;
      monitorEvent := false;
      shutdownRequested := false;
      deviceOps := [];
      notices := [];
    }

    /** `get_key_count`: the deck's key count, 0 without a deck or when the query raises. */
    function GetKeyCount(): (n: nat)
      reads this`deck
      ensures deck.None? ==> n == 0
      ensures deck.Some? && deck.value.device.keyCount.None? ==> n == 0
      ensures deck.Some? && deck.value.device.keyCount.Some? ==> n == deck.value.device.keyCount.value
    {
      match deck
      case None => 0
      case Some(d) => d.device.keyCount.GetOr(0)
    }

    /** `is_connected`: a deck exists and passes the health test; a raising query counts as unhealthy. */
    predicate IsConnected()
      reads this`deck
    {
      deck.Some? && Healthy(deck.value)
    }

    /** `set_key_image`: writes the key only while connected. */
    method SetKeyImage(key: int, image: ImageBytes)
      modifies this`deviceOps
      ensures deviceOps == if old(IsConnected()) then old(deviceOps) + [KeyImage(deck.value.device.serial, key, image)] else old(deviceOps)
    {
      if !IsConnected() {
        return;
      }
      deviceOps := deviceOps + [KeyImage(deck.value.device.serial, key, image)];
    }

    /** `apply_settings`: sets the brightness only while connected. */
    method ApplySettings(brightness: int)
      modifies this`deviceOps
      ensures deviceOps == if old(IsConnected()) then old(deviceOps) + [Brightness(deck.value.device.serial, brightness)] else old(deviceOps)
    {
      if !IsConnected() {
        return;
      }
      deviceOps := deviceOps + [Brightness(deck.value.device.serial, brightness)];
    }

    /** Closes the current deck; a `close()` that raises leaves it as it was. */
    method CloseDeck()
      requires deck.Some?
      modifies this`deck, this`deviceOps
      ensures old(deck.value.device.closeFails) ==> deck == old(deck) && deviceOps == old(deviceOps)
      ensures !old(deck.value.device.closeFails) ==>
                deck == Some(old(deck.value).(isOpen := Some(false))) && deviceOps == old(deviceOps) + [Closed(old(deck.value.device.serial))]
    {
      if !deck.value.device.closeFails {
        deviceOps := deviceOps + [Closed(deck.value.device.serial)];
        deck := Some(deck.value.(isOpen := Some(false)));
      }
    }

    /** `_disconnect_device`: closes the deck if there is one and always forgets it. */
    method DisconnectDevice()
      modifies this`deck, this`deviceOps
      ensures deck == None
      ensures deviceOps == if old(deck).Some? && !old(deck.value.device.closeFails) then old(deviceOps) + [Closed(old(deck.value.device.serial))] else old(deviceOps)
    {
      if deck.Some? {
        CloseDeck();
        deck := None;
      }
    }

    /** `_handle_device_disconnection`: disconnect, then tell the layer above once. */
    method HandleDeviceDisconnection()
      modifies this`deck, this`deviceOps, this`notices
      ensures deck == None && notices == old(notices) + [Disconnected]
      ensures deviceOps == if old(deck).Some? && !old(deck.value.device.closeFails) then old(deviceOps) + [Closed(old(deck.value.device.serial))] else old(deviceOps)
    {
      DisconnectDevice();
      notices := notices + [Disconnected];
    }

    /**
     * `_try_connect_device` with the enumeration's result (`None`: it
     * raised). With no device it fails and the deck is untouched. Otherwise
     * the current deck is closed (errors ignored, the deck kept), the first
     * device is opened and becomes the deck, and the layer above is told once.
     */
    method TryConnectDevice(devices: Option<seq<Device>>) returns (ok: bool)
      modifies this`deck, this`deviceOps, this`notices
      ensures ok <==> devices.Some? && devices.value != [] && !devices.value[0].openFails
      ensures devices.None? || devices.value == [] ==> deck == old(deck) && deviceOps == old(deviceOps) && notices == old(notices)
      ensures ok ==> deck == Some(Deck(devices.value[0], Some(true), Some(true))) && notices == old(notices) + [Connected(devices.value[0].serial)]
      ensures !ok ==> notices == old(notices)
      ensures !ok && devices.Some? && devices.value != [] ==>
                deck == (if old(deck).Some? && !old(deck.value.device.closeFails) then Some(old(deck.value).(isOpen := Some(false))) else old(deck))
    {
      if devices.None? || devices.value == [] {
        return false;
      }
      var device := devices.value[0];
      if deck.Some? {
        CloseDeck();
      }
      if device.openFails {
        return false;
      }
      deviceOps := deviceOps + [Opened(device.serial)];
      deck := Some(Deck(device, Some(true), Some(true)));
      notices := notices + [Connected(device.serial)];
      return true;
    }

    /** The first thing the monitor loop does: connect unless connected. */
    method MonitorLoopStart(devices: Option<seq<Device>>)
      modifies this`deck, this`deviceOps, this`notices
      ensures old(IsConnected()) ==> unchanged(this)
      ensures !old(IsConnected()) && devices.Some? && devices.value != [] && !devices.value[0].openFails ==>
                deck == Some(Deck(devices.value[0], Some(true), Some(true))) && notices == old(notices) + [Connected(devices.value[0].serial)]
      ensures !old(IsConnected()) && (devices.None? || devices.value == []) ==> unchanged(this)
      ensures !old(IsConnected()) && devices.Some? && devices.value != [] && devices.value[0].openFails ==>
                notices == old(notices) &&
                deck == (if old(deck).Some? && !old(deck.value.device.closeFails) then Some(old(deck.value).(isOpen := Some(false))) else old(deck))
    {
      if !IsConnected() {
        var _ := TryConnectDevice(devices);
      }
    }

    /**
     * One pass of the monitor loop after its wait: nothing once shutdown is
     * requested; otherwise the wake flag is cleared if set, a deck that
     * exists but is unhealthy is disconnected (the same test whether woken
     * or timed out), and a connect is tried whenever not connected.
     */
    method MonitorLoopStep(devices: Option<seq<Device>>)
      modifies this`deck, this`deviceOps, this`notices, this`monitorEvent
      ensures old(shutdownRequested) ==> unchanged(this)
      ensures !old(shutdownRequested) ==> !monitorEvent
      ensures !old(shutdownRequested) && old(deck).Some? && !old(IsConnected()) ==> |notices| > |old(notices)| && notices[|old(notices)|] == Disconnected
      ensures !old(shutdownRequested) && old(IsConnected()) ==> deck == old(deck) && notices == old(notices) && deviceOps == old(deviceOps)
      ensures !old(shutdownRequested) && !old(IsConnected()) && devices.Some? && devices.value != [] && !devices.value[0].openFails ==>
                IsConnected() && deck.value.device == devices.value[0] && |notices| > 0 && notices[|notices| - 1] == Connected(devices.value[0].serial)
      ensures !old(shutdownRequested) && !old(IsConnected()) && devices.Some? && devices.value != [] && !devices.value[0].openFails ==>
                deck == Some(Deck(devices.value[0], Some(true), Some(true))) &&
                notices == old(notices) + (if old(deck).Some? then [Disconnected] else []) + [Connected(devices.value[0].serial)]
      ensures !old(shutdownRequested) && !old(IsConnected()) && !(devices.Some? && devices.value != [] && !devices.value[0].openFails) ==>
                deck == None && notices == old(notices) + (if old(deck).Some? then [Disconnected] else [])
    {
      if shutdownRequested {
        return;
      }
      var triggered := monitorEvent;
      if triggered {
        monitorEvent := false;
        if deck.Some? && !IsConnected() {
          HandleDeviceDisconnection();
        }
      } else if deck.Some? && !IsConnected() {
        HandleDeviceDisconnection();
      }
      if !IsConnected() {
        var _ := TryConnectDevice(devices);
      }
    }

    /** `_device_key_callback`: a press on key `k` reports button `k + 1`; a release is ignored. */
    method DeviceKeyCallback(key: nat, pressed: bool)
      modifies this`notices
      ensures notices == if pressed then old(notices) + [KeyPressed(key + 1)] else old(notices)
    {
      var buttonId := KeyToButton(key, pressed);
      if buttonId.Some? {
        notices := notices + [KeyPressed(buttonId.value)];
      }
    }

    /** `_on_usb_event`: wakes the monitor loop for a possible deck being added or removed. */
    method OnUsbEvent(e: UsbEvent)
      modifies this`monitorEvent
      ensures monitorEvent == (old(monitorEvent) || SignalsMonitor(e))
    {
      if SignalsMonitor(e) {
        monitorEvent := true;
      }
    }

    /** The deck's health changing on its own, as when it is unplugged (the environment's step). */
    method DeckHealthChanges(connected: Option<bool>, isOpen: Option<bool>)
      modifies this`deck
      ensures deck == if old(deck).Some? then Some(old(deck.value).(connected := connected, isOpen := isOpen)) else None
    {
      if deck.Some? {
        deck := Some(deck.value.(connected := connected, isOpen := isOpen));
      }
    }
  }
}

/**
 * The event bus: subscriber lists per event type, immediate delivery, and
 * debouncing by key. A running timer is represented by its entry in
 * `debounceTimers`; its firing is the explicit step `Fire`, and every
 * callback invocation is appended to `deliveries`.
 */
module EventBus {

  import opened Wrappers

  /** The identity of a subscribed callback. */
  type HandlerId = nat

  /** An event: its type, its data and the clock reading when it was emitted. */
  datatype Event = Event(eventType: string, data: map<string, string>, timestamp: int)

  /** A scheduled timer: its delay in milliseconds and a serial number that identifies it. */
  datatype Timer = Timer(interval: nat, serial: nat)

  /** One callback invocation; `raised` when the callback raised, which is caught and logged. */
  datatype Delivery = Delivery(handler: HandlerId, event: Event, raised: bool)

  /** The interval a bus is created with, 0.5 seconds. */
  const DefaultInterval: nat := 500

  /** `subscribers.get(eventType, [])`. */
  function SubscribersOf(subscribers: map<string, seq<HandlerId>>, eventType: string): seq<HandlerId>
  {
    if eventType in subscribers then subscribers[eventType] else []
  }

  /** The invocations of `handlers` on `event`, in order, whether or not some of them raise. */
  function Calls(handlers: seq<HandlerId>, event: Event, failing: set<HandlerId>): (ds: seq<Delivery>)
    ensures |ds| == |handlers|
    ensures forall i | 0 <= i < |ds| :: ds[i].handler == handlers[i] && ds[i].event == event && ds[i].raised == (handlers[i] in failing)
  {
    if handlers == [] then []
    else
      var last := handlers[|handlers| - 1];
      Calls(handlers[..|handlers| - 1], event, failing) + [Delivery(last, event, last in failing)]
  }

  /** Index of the first occurrence of `h`, `|hs|` when there is none. */
  function FirstIndex(hs: seq<HandlerId>, h: HandlerId): (i: nat)
    ensures i <= |hs| && h !in hs[..i]
    ensures i < |hs| ==> hs[i] == h
    ensures i == |hs| <==> h !in hs
  {
    if hs == [] then 0
    else if hs[0] == h then 0
    else
      var i := 1 + FirstIndex(hs[1..], h);
      assert hs[..i] == [hs[0]] + hs[1..][..i - 1];
      i
  }

  /** `list.remove(h)` guarded by `h in list`: drops the first occurrence, if any. */
  function RemoveFirst(hs: seq<HandlerId>, h: HandlerId): (r: seq<HandlerId>)
    ensures h !in hs ==> r == hs
    ensures h in hs ==> |r| == |hs| - 1 && exists i | 0 <= i < |hs| :: hs[i] == h && h !in hs[..i] && r == hs[..i] + hs[i + 1..]
    ensures multiset(r) == multiset(hs) - multiset{h}
  {
    var i := FirstIndex(hs, h);
    if i == |hs| then
      assert multiset(hs)[h] == 0;
      hs
    else
      assert hs == hs[..i] + [h] + hs[i + 1..];
      hs[..i] + hs[i + 1..]
  }

  /** The keys a series of keyed emits used. */
  function EmitKeys(emits: seq<(string, Event)>): (keys: set<string>)
    ensures forall i | 0 <= i < |emits| :: emits[i].0 in keys
    ensures forall k | k in keys :: exists i | 0 <= i < |emits| :: emits[i].0 == k
  {
    if emits == [] then {}
    else
      var init := emits[..|emits| - 1];
      var keys := EmitKeys(init);
      assert forall i | 0 <= i < |init| :: init[i] == emits[i];
      keys + {emits[|emits| - 1].0}
  }

  /** The pending events after a series of keyed emits: for every key, the last event emitted with it. */
  function PendingAfter(pending: map<string, Event>, emits: seq<(string, Event)>): (r: map<string, Event>)
    ensures r.Keys == pending.Keys + EmitKeys(emits)
  {
    if emits == [] then pending
    else
      var (key, event) := emits[|emits| - 1];
      PendingAfter(pending, emits[..|emits| - 1])[key := event]
  }

  /** Only the last event emitted with a key is pending for it. */
  lemma {:induction false} PendingLastWins(pending: map<string, Event>, emits: seq<(string, Event)>, i: nat)
    requires i < |emits|
    requires forall j | i < j < |emits| :: emits[j].0 != emits[i].0
    ensures PendingAfter(pending, emits)[emits[i].0] == emits[i].1
    decreases |emits|
  {
    if i < |emits| - 1 {
      var init := emits[..|emits| - 1];
      assert init[i] == emits[i];
      forall j | i < j < |init| ensures init[j].0 != init[i].0 {
        assert init[j] == emits[j];
      }
      PendingLastWins(pending, init, i);
    }
  }

  /** Keys are independent: a key no emit used keeps the pending event it had, or stays without one. */
  lemma {:induction false} PendingOtherKeys(pending: map<string, Event>, emits: seq<(string, Event)>, key: string)
    requires forall j | 0 <= j < |emits| :: emits[j].0 != key
    ensures key in PendingAfter(pending, emits) <==> key in pending
    ensures key in pending ==> PendingAfter(pending, emits)[key] == pending[key]
    decreases |emits|
  {
    if emits != [] {
      var init := emits[..|emits| - 1];
      assert forall j | 0 <= j < |init| :: init[j] == emits[j];
      PendingOtherKeys(pending, init, key);
    }
  }

  /** The serial numbers of the given timers. */
  function LiveSerials(timers: map<string, Timer>): set<nat>
  {
    set k | k in timers :: timers[k].serial
  }

  /** Serials handed out so far are below `scheduled`; live timers have distinct serials, none of them cancelled. */
  ghost predicate TimersValid(timers: map<string, Timer>, cancelled: set<nat>, scheduled: nat)
  {
    (forall n | n in cancelled :: n < scheduled) &&
    (forall k1, k2 | k1 in timers && k2 in timers && k1 != k2 :: timers[k1].serial != timers[k2].serial) &&
    forall k | k in timers :: timers[k].serial < scheduled && timers[k].serial !in cancelled
  }

  /** Cancelling a key's timer, if any, and scheduling the next serial for it keeps the timers valid. */
  lemma RescheduleKeepsTimersValid(timers: map<string, Timer>, cancelled: set<nat>, scheduled: nat, key: string, interval: nat)
    requires TimersValid(timers, cancelled, scheduled)
    ensures TimersValid(timers[key := Timer(interval, scheduled)],
                        if key in timers then cancelled + {timers[key].serial} else cancelled,
                        scheduled + 1)
  {
  }

  class Debouncer {

    /** The delay of newly scheduled timers, in milliseconds. */
    var debounceInterval: nat
    var subscribers: map<string, seq<HandlerId>>
    var pendingEvents: map<string, Event>
    var debounceTimers: map<string, Timer>
    /** Serial numbers of the timers cancelled so far. */
    var cancelled: set<nat>
    /** Number of timers scheduled so far; the next one gets this serial. */
    var timersScheduled: nat
    var deliveries: seq<Delivery>

    /** Every key with a pending event has exactly its one live timer, and no live timer was cancelled. */
    ghost predicate Valid()
      reads this
    {
      pendingEvents.Keys == debounceTimers.Keys && TimersValid(debounceTimers, cancelled, timersScheduled)
    }

    constructor(debounceInterval: nat)
      ensures Valid()
      ensures this.debounceInterval == debounceInterval
      ensures subscribers == map[] && pendingEvents == map[] && debounceTimers == map[]
      ensures cancelled == {} && timersScheduled == 0 && deliveries == []
    {
      this.debounceInterval := debounceInterval;
      subscribers := map[];
      pendingEvents := map[];
      debounceTimers := map[];
      cancelled := {};
      timersScheduled := 0;
      deliveries := [];
    }

    /** `subscribe`: appends the callback to the end of its event type's list. */
    method Subscribe(eventType: string, handler: HandlerId)
      requires Valid()
      modifies this`subscribers
      ensures Valid()
      ensures subscribers == old(subscribers)[eventType := SubscribersOf(old(subscribers), eventType) + [handler]]
    {
      subscribers := subscribers[eventType := SubscribersOf(subscribers, eventType) + [handler]];
    }

    /**
     * `unsubscribe`: removes the first occurrence of the callback if present.
     * Reading the type's list leaves an empty entry behind when it had none.
     */
    method Unsubscribe(eventType: string, handler: HandlerId)
      requires Valid()
      modifies this`subscribers
      ensures Valid()
      ensures subscribers == old(subscribers)[eventType := RemoveFirst(SubscribersOf(old(subscribers), eventType), handler)]
      ensures handler !in SubscribersOf(old(subscribers), eventType) ==>
                SubscribersOf(subscribers, eventType) == SubscribersOf(old(subscribers), eventType)
    {
      var current := SubscribersOf(subscribers, eventType);
      subscribers := subscribers[eventType := RemoveFirst(current, handler)];
    }

    /** `_emit_event`: calls every current subscriber of the event's type in order; a raising one does not stop the rest. */
    method EmitEvent(event: Event, failing: set<HandlerId>)
      requires Valid()
      modifies this`deliveries
      ensures Valid()
      ensures deliveries == old(deliveries) + Calls(SubscribersOf(subscribers, event.eventType), event, failing)
    {
      var callbacks := SubscribersOf(subscribers, event.eventType);
      var i := 0;
      while i < |callbacks|
        invariant 0 <= i <= |callbacks|
        invariant deliveries == old(deliveries) + Calls(callbacks[..i], event, failing)
      {
        assert callbacks[..i + 1][..i] == callbacks[..i];
        deliveries := deliveries + [Delivery(callbacks[i], event, callbacks[i] in failing)];
        i := i + 1;
      }
      assert callbacks[..|callbacks|] == callbacks;
    }

    /**
     * `_debounce_event`: cancels the key's timer if it has one, makes the
     * event the key's only pending one and schedules one new timer for it
     * with the current interval.
     */
    method DebounceEvent(event: Event, key: string)
      requires Valid()
      modifies this`pendingEvents, this`debounceTimers, this`cancelled, this`timersScheduled
      ensures Valid()
      ensures pendingEvents == old(pendingEvents)[key := event]
      ensures debounceTimers == old(debounceTimers)[key := Timer(debounceInterval, old(timersScheduled))]
      ensures timersScheduled == old(timersScheduled) + 1
      ensures cancelled == if key in old(debounceTimers) then old(cancelled) + {old(debounceTimers)[key].serial} else old(cancelled)
    {
      RescheduleKeepsTimersValid(debounceTimers, cancelled, timersScheduled, key, debounceInterval);
      if key in debounceTimers {
        cancelled := cancelled + {debounceTimers[key].serial};
      }
      pendingEvents := pendingEvents[key := event];
      debounceTimers := debounceTimers[key := Timer(debounceInterval, timersScheduled)];
      timersScheduled := timersScheduled + 1;
    }

    /** `emit`: stamps the event with the clock and delivers it now, or defers it under its key. */
    method Emit(eventType: string, data: map<string, string>, key: Option<string>, now: int, failing: set<HandlerId>)
      requires Valid()
      modifies this`pendingEvents, this`debounceTimers, this`cancelled, this`timersScheduled, this`deliveries
      ensures Valid()
      ensures key.None? ==>
                deliveries == old(deliveries) + Calls(SubscribersOf(subscribers, eventType), Event(eventType, data, now), failing) &&
                pendingEvents == old(pendingEvents) && debounceTimers == old(debounceTimers) &&
                cancelled == old(cancelled) && timersScheduled == old(timersScheduled)
      ensures key.Some? ==>
                deliveries == old(deliveries) &&
                pendingEvents == old(pendingEvents)[key.value := Event(eventType, data, now)] &&
                debounceTimers == old(debounceTimers)[key.value := Timer(debounceInterval, old(timersScheduled))] &&
                timersScheduled == old(timersScheduled) + 1 &&
                cancelled == if key.value in old(debounceTimers) then old(cancelled) + {old(debounceTimers)[key.value].serial} else old(cancelled)
    {
      var event := Event(eventType, data, now);
      if key.None? {
        EmitEvent(event, failing);
      } else {
        DebounceEvent(event, key.value);
      }
    }

    /**
     * `_process_debounced_event`, run when the key's timer fires: removes the
     * key's pending event and timer, then delivers the event if there was one.
     */
    method Fire(key: string, failing: set<HandlerId>)
      requires Valid()
      modifies this`pendingEvents, this`debounceTimers, this`deliveries
      ensures Valid()
      ensures pendingEvents == old(pendingEvents) - {key} && debounceTimers == old(debounceTimers) - {key}
      ensures key in old(pendingEvents) ==>
                deliveries == old(deliveries) + Calls(SubscribersOf(subscribers, old(pendingEvents)[key].eventType), old(pendingEvents)[key], failing)
      ensures key !in old(pendingEvents) ==> deliveries == old(deliveries)
    {
      var event := if key in pendingEvents then Some(pendingEvents[key]) else None;
      pendingEvents := pendingEvents - {key};
      debounceTimers := debounceTimers - {key};
      if event.Some? {
        EmitEvent(event.value, failing);
      }
    }

    /** Cancels each of the given timers in turn. */
    method CancelAll(serials: set<nat>)
      modifies this`cancelled
      ensures cancelled == old(cancelled) + serials
    {
      var remaining := serials;
      while remaining != {}
        invariant remaining <= serials
        invariant cancelled == old(cancelled) + (serials - remaining)
        decreases |remaining|
      {
        var n :| n in remaining;
        cancelled := cancelled + {n};
        remaining := remaining - {n};
      }
    }

    /** `shutdown`: cancels every live timer, then empties the timers, the pending events and the subscribers. */
    method Shutdown()
      requires Valid()
      modifies this`debounceTimers, this`pendingEvents, this`subscribers, this`cancelled
      ensures Valid()
      ensures debounceTimers == map[] && pendingEvents == map[] && subscribers == map[]
      ensures cancelled == old(cancelled) + LiveSerials(old(debounceTimers))
    {
      var live := LiveSerials(debounceTimers);
      assert forall n | n in live :: n < timersScheduled;
      CancelAll(live);
      debounceTimers := map[];
      pendingEvents := map[];
      subscribers := map[];
    }
  }
}

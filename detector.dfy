/**
 * Device-change detection of `USBMonitorWorker.run`: each polling tick turns the
 * Win32_PnPEntity enumeration into a snapshot of identity strings, emits a "connect"
 * event for every identity that is new and a "disconnect" event for every identity
 * that has gone, and carries the snapshot over to the next tick.
 */
module Detector {
  import opened Wrappers

  /** One enumerated plug-and-play entity; `None` stands for a Python `None` attribute. */
  datatype PnpEntity = PnpEntity(name: Option<string>, deviceId: Option<string>)

  /** What an f-string prints for an attribute: `None` prints as "None". */
  function Render(v: Option<string>): string
  {
    match v
    case None => "None"
    case Some(s) => s
  }

  /** The test `if device.DeviceID:`: neither `None` nor the empty string. */
  predicate HasDeviceId(e: PnpEntity)
  {
    e.deviceId.Some? && e.deviceId.value != ""
  }

  /** The identity string `"<Name> (<DeviceID>)"`. */
  function Identity(e: PnpEntity): string
  {
    Render(e.name) + " (" + Render(e.deviceId) + ")"
  }

  /** The snapshot the enumeration `es` yields. */
  function SnapshotOf(es: seq<PnpEntity>): set<string>
  {
    if es == [] then {}
    else
      var last := es[|es| - 1];
      SnapshotOf(es[..|es| - 1]) + if HasDeviceId(last) then {Identity(last)} else {}
  }

  /** The snapshot holds exactly the identities of the entries that have a device id. */
  lemma {:induction false} SnapshotMembership(es: seq<PnpEntity>, x: string)
    ensures x in SnapshotOf(es) <==> exists i :: 0 <= i < |es| && HasDeviceId(es[i]) && Identity(es[i]) == x
  {
    if es != [] {
      var init := es[..|es| - 1];
      SnapshotMembership(init, x);
      if x in SnapshotOf(init) {
        var i :| 0 <= i < |init| && HasDeviceId(init[i]) && Identity(init[i]) == x;
        assert es[i] == init[i];
      }
      if exists i :: 0 <= i < |es| && HasDeviceId(es[i]) && Identity(es[i]) == x {
        var i :| 0 <= i < |es| && HasDeviceId(es[i]) && Identity(es[i]) == x;
        if i < |init| {
          assert init[i] == es[i];
        }
      }
    }
  }

  /** The loop of lines 79-82: build the snapshot with one `add` per identified entry. */
  method BuildSnapshot(entities: seq<PnpEntity>) returns (current: set<string>)
    ensures current == SnapshotOf(entities)
  {
    current := {};
    for i := 0 to |entities|
      invariant current == SnapshotOf(entities[..i])
    {
      assert entities[..i + 1][..i] == entities[..i];
      if HasDeviceId(entities[i]) {
        current := current + {Identity(entities[i])};
      }
    }
    assert entities[..|entities|] == entities;
  }

  datatype EventKind = Connect | Disconnect {
    /** The event-type string passed with the `device_changed` signal. */
    function Label(): string
    {
      if Connect? then "connect" else "disconnect"
    }
  }

  /** One emission `device_changed.emit(device, kind.Label())`. */
  datatype DeviceEvent = DeviceEvent(device: string, kind: EventKind)

  function Devices(evs: seq<DeviceEvent>): set<string>
  {
    set i | 0 <= i < |evs| :: evs[i].device
  }

  lemma DevicesAppend(evs: seq<DeviceEvent>, e: DeviceEvent)
    ensures Devices(evs + [e]) == Devices(evs) + {e.device}
  {
    var longer := evs + [e];
    forall x | x in Devices(evs) ensures x in Devices(longer) {
      var i :| 0 <= i < |evs| && evs[i].device == x;
      assert longer[i] == evs[i];
    }
    assert longer[|evs|] == e;
  }

  /** `evs` is one event of kind `kind` for each device of `devices`, in some order, without repetition. */
  ghost predicate EmitsEach(evs: seq<DeviceEvent>, devices: set<string>, kind: EventKind)
  {
    && |evs| == |devices|
    && Devices(evs) == devices
    && (forall i :: 0 <= i < |evs| ==> evs[i].kind == kind)
    && (forall i, j :: 0 <= i < j < |evs| ==> evs[i].device != evs[j].device)
  }

  /**
   * The events of one tick from `known` to `current`: first one connect event for each
   * device of `current - known`, then one disconnect event for each device of `known - current`.
   */
  ghost predicate TickEvents(evs: seq<DeviceEvent>, known: set<string>, current: set<string>)
  {
    var c := |current - known|;
    && c <= |evs|
    && EmitsEach(evs[..c], current - known, Connect)
    && EmitsEach(evs[c..], known - current, Disconnect)
  }

  /** Part-way through `EmitAll`: the events emitted so far cover `devices - rest`, once each. */
  ghost predicate EmitProgress(evs: seq<DeviceEvent>, rest: set<string>, devices: set<string>, kind: EventKind)
  {
    && rest <= devices
    && Devices(evs) == devices - rest
    && |evs| + |rest| == |devices|
    && (forall i :: 0 <= i < |evs| ==> evs[i].kind == kind)
    && (forall i, j :: 0 <= i < j < |evs| ==> evs[i].device != evs[j].device)
  }

  lemma EmitStep(evs: seq<DeviceEvent>, rest: set<string>, devices: set<string>, kind: EventKind, d: string)
    requires EmitProgress(evs, rest, devices, kind) && d in rest
    ensures EmitProgress(evs + [DeviceEvent(d, kind)], rest - {d}, devices, kind)
  {
    var longer := evs + [DeviceEvent(d, kind)];
    DevicesAppend(evs, DeviceEvent(d, kind));
    assert |rest - {d}| == |rest| - 1;
    forall i | 0 <= i < |evs| ensures longer[i].device != d {
      assert evs[i].device in Devices(evs);
    }
  }

  /** `for device in devices: emit(device, kind)`, over a set whose iteration order is unspecified. */
  method EmitAll(devices: set<string>, kind: EventKind) returns (evs: seq<DeviceEvent>)
    ensures EmitsEach(evs, devices, kind)
  {
    evs := [];
    var rest := devices;
    while rest != {}
      invariant EmitProgress(evs, rest, devices, kind)
      decreases rest
    {
      var d :| d in rest;
      EmitStep(evs, rest, devices, kind, d);
      evs := evs + [DeviceEvent(d, kind)];
      rest := rest - {d};
    }
  }

  /** Lines 85-92: the connect loop over `current - known`, then the disconnect loop over `known - current`. */
  method DiffEvents(known: set<string>, current: set<string>) returns (evs: seq<DeviceEvent>)
    ensures TickEvents(evs, known, current)
  {
    var connects := EmitAll(current - known, Connect);
    var disconnects := EmitAll(known - current, Disconnect);
    evs := connects + disconnects;
    assert evs[..|connects|] == connects;
    assert evs[|connects|..] == disconnects;
  }

  /** A connect event names exactly a device of `current - known`, a disconnect event exactly one of `known - current`. */
  lemma {:induction false} TickEventsExact(evs: seq<DeviceEvent>, known: set<string>, current: set<string>, d: string)
    requires TickEvents(evs, known, current)
    ensures DeviceEvent(d, Connect) in evs <==> d in current && d !in known
    ensures DeviceEvent(d, Disconnect) in evs <==> d in known && d !in current
  {
    var c := |current - known|;
    var connects, disconnects := evs[..c], evs[c..];
    assert evs == connects + disconnects;
    if DeviceEvent(d, Connect) in evs {
      var i :| 0 <= i < |evs| && evs[i] == DeviceEvent(d, Connect);
      assert i < c;
      assert d in Devices(connects);
    }
    if d in current - known {
      assert d in Devices(connects);
      var i :| 0 <= i < |connects| && connects[i].device == d;
      assert evs[i] == DeviceEvent(d, Connect);
    }
    if DeviceEvent(d, Disconnect) in evs {
      var i :| 0 <= i < |evs| && evs[i] == DeviceEvent(d, Disconnect);
      assert i >= c;
      assert disconnects[i - c] == evs[i];
      assert d in Devices(disconnects);
    }
    if d in known - current {
      assert d in Devices(disconnects);
      var i :| 0 <= i < |disconnects| && disconnects[i].device == d;
      assert evs[c + i] == DeviceEvent(d, Disconnect);
    }
  }

  /** No event at all names a device present in both snapshots. */
  lemma NoEventForUnchanged(evs: seq<DeviceEvent>, known: set<string>, current: set<string>)
    requires TickEvents(evs, known, current)
    ensures forall i :: 0 <= i < |evs| ==> !(evs[i].device in known && evs[i].device in current)
  {
  }

  /** Within a tick no disconnect event precedes a connect event, and no event is emitted twice. */
  lemma ConnectsPrecedeDisconnects(evs: seq<DeviceEvent>, known: set<string>, current: set<string>)
    requires TickEvents(evs, known, current)
    ensures forall i, j :: 0 <= i < j < |evs| && evs[j].kind == Connect ==> evs[i].kind == Connect
    ensures forall i, j :: 0 <= i < j < |evs| ==> evs[i] != evs[j]
  {
  }

  /** The tick emits one event per element of the symmetric difference. */
  lemma TickEventCount(evs: seq<DeviceEvent>, known: set<string>, current: set<string>)
    requires TickEvents(evs, known, current)
    ensures |evs| == |(current - known) + (known - current)|
  {
  }

  /** The first tick starts from the empty set and reports every present device as connected. */
  lemma FirstTickConnectsAll(evs: seq<DeviceEvent>, current: set<string>)
    requires TickEvents(evs, {}, current)
    ensures |evs| == |current| && Devices(evs) == current
    ensures forall i :: 0 <= i < |evs| ==> evs[i].kind == Connect
  {
  }

  /** A tick whose snapshot equals the known set emits nothing. */
  lemma UnchangedSnapshotIsQuiet(evs: seq<DeviceEvent>, s: set<string>)
    requires TickEvents(evs, s, s)
    ensures evs == []
  {
  }

  /** What one tick promises: on a failed enumeration no event and no change of the known set. */
  ghost predicate TickSpec(known: set<string>, poll: Result<seq<PnpEntity>, string>, next: set<string>, evs: seq<DeviceEvent>)
  {
    match poll
    case Failure(_) => next == known && evs == []
    case Success(es) => next == SnapshotOf(es) && TickEvents(evs, known, next)
  }

  /**
   * One iteration of the `while self.running` loop. `poll` is the outcome of
   * `Win32_PnPEntity()`; a `Failure` is the exception caught at line 97.
   */
  method Tick(known: set<string>, poll: Result<seq<PnpEntity>, string>) returns (next: set<string>, evs: seq<DeviceEvent>)
    ensures TickSpec(known, poll, next, evs)
  {
    match poll
    case Failure(_) =>
      next, evs := known, [];
    case Success(entities) =>
      var current := BuildSnapshot(entities);
      evs := DiffEvents(known, current);
      next := current;
  }

  /** The known set after a run of polls: the snapshot of the last successful one, or the empty set. */
  function KnownAfter(polls: seq<Result<seq<PnpEntity>, string>>): set<string>
  {
    if polls == [] then {}
    else
      match polls[|polls| - 1]
      case Success(es) => SnapshotOf(es)
      case Failure(_) => KnownAfter(polls[..|polls| - 1])
  }

  /**
   * `run` for as many iterations as `polls` has entries: `known_devices` starts empty
   * (line 74) and each tick sees the set left by the previous one.
   */
  method Run(polls: seq<Result<seq<PnpEntity>, string>>) returns (known: set<string>, ticks: seq<seq<DeviceEvent>>)
    ensures known == KnownAfter(polls)
    ensures |ticks| == |polls|
    ensures forall k :: 0 <= k < |polls| ==> TickSpec(KnownAfter(polls[..k]), polls[k], KnownAfter(polls[..k + 1]), ticks[k])
  {
    known, ticks := {}, [];
    for k := 0 to |polls|
      invariant known == KnownAfter(polls[..k])
      invariant |ticks| == k
      invariant forall j :: 0 <= j < k ==> TickSpec(KnownAfter(polls[..j]), polls[j], KnownAfter(polls[..j + 1]), ticks[j])
    {
      var evs;
      assert polls[..k + 1][..k] == polls[..k];
      known, evs := Tick(known, polls[k]);
      ticks := ticks + [evs];
    }
    assert polls[..|polls|] == polls;
  }

  /** Two successful ticks in a row that see the same devices: the second one emits nothing. */
  lemma RepeatedSnapshotIsQuiet(polls: seq<Result<seq<PnpEntity>, string>>, es: seq<PnpEntity>, es': seq<PnpEntity>, next: set<string>, evs: seq<DeviceEvent>)
    requires SnapshotOf(es') == SnapshotOf(es)
    requires TickSpec(KnownAfter(polls + [Success(es)]), Success(es'), next, evs)
    ensures evs == [] && next == KnownAfter(polls + [Success(es)])
  {
  }
}

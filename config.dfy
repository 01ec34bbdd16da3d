/**
 * The configuration window of `gui.py`: it lists the present devices under the same
 * identity strings the monitor uses, and edits the nested action map
 * device identity -> event type -> action in place.
 */
module Config {
  import opened Wrappers
  import opened Text
  import opened Detector
  import opened Actions

  /** The items of the action-type combo box, in the order they are added. */
  const ComboItems: seq<string> := ["Lancer une application", "Fermer une application", "Exécuter une commande"]

  /** The dialog's widgets when it is accepted: the combo box's current index and the line edit's text. */
  datatype DialogState = DialogState(typeIndex: nat, pathText: string)

  /** `ActionDialog.get_action_data`: the type is always one that `execute_action` recognises. */
  function GetActionData(d: DialogState): (r: ActionData)
    requires d.typeIndex < |ComboItems|
    ensures r.Keys == {"type", "path"}
    ensures r["type"] == ComboItems[d.typeIndex] && r["path"] == d.pathText
    ensures IsRecognised(r["type"])
  {
    MakeAction(ComboItems[d.typeIndex], d.pathText)
  }

  /** The combo box offers exactly the three action types the executor recognises. */
  lemma ComboOffersRecognisedTypes()
    ensures forall t :: t in ComboItems <==> IsRecognised(t)
  {
  }

  /** The items `update_device_list` adds, in enumeration order. */
  function DeviceItems(es: seq<PnpEntity>): seq<string>
  {
    if es == [] then []
    else
      var last := es[|es| - 1];
      DeviceItems(es[..|es| - 1]) + if HasDeviceId(last) then [Identity(last)] else []
  }

  /** The window lists exactly the identities of the monitor's snapshot, so a selected device is a key the monitor dispatches on. */
  lemma {:induction false} DeviceItemsMatchSnapshot(es: seq<PnpEntity>)
    ensures forall x :: x in DeviceItems(es) <==> x in SnapshotOf(es)
  {
    if es != [] {
      DeviceItemsMatchSnapshot(es[..|es| - 1]);
    }
  }

  /** The action-list label `"<event>: <type> - <path>"`; `None` when a key is missing and the lookup raises. */
  function ActionLabel(event: string, action: ActionData): (r: Option<string>)
    ensures r.Some? <==> "type" in action && "path" in action
    ensures r.Some? ==> event + ":" <= r.value
  {
    if "type" in action && "path" in action then Some(event + ": " + action["type"] + " - " + action["path"]) else None
  }

  /** `selected_action.text().split(':')[0]`. */
  function EventOfLabel(text: string): (r: string)
    ensures r <= text && ':' !in r
    ensures |r| < |text| ==> text[|r|] == ':'
  {
    FirstField(text, ':')
  }

  /** Parsing a label gives back its event type whenever that type holds no ':' ("connect" and "disconnect" do not). */
  lemma LabelRoundTrip(event: string, action: ActionData)
    requires ':' !in event && "type" in action && "path" in action
    ensures EventOfLabel(ActionLabel(event, action).value) == event
  {
    var rest := " " + action["type"] + " - " + action["path"];
    assert ActionLabel(event, action).value == event + [':'] + rest;
    FirstFieldOfJoin(event, ':', rest);
  }

  /** No device maps to an empty table of actions. */
  ghost predicate NoEmptyEntries(m: ActionMap)
  {
    forall d :: d in m ==> m[d] != map[]
  }

  /** The map after `device_actions[device][event] = action`, creating the inner map if needed. */
  function WithAction(m: ActionMap, device: string, event: string, action: ActionData): (r: ActionMap)
    ensures r.Keys == m.Keys + {device}
    ensures r[device].Keys == (if device in m then m[device].Keys else {}) + {event}
    ensures r[device][event] == action
    ensures forall d :: d in m && d != device ==> r[d] == m[d]
    ensures forall e :: device in m && e in m[device] && e != event ==> r[device][e] == m[device][e]
  {
    var inner := if device in m then m[device] else map[];
    m[device := inner[event := action]]
  }

  /** The map after deleting the (device, event) entry, and the device itself once it has no entry left. */
  function WithoutAction(m: ActionMap, device: string, event: string): (r: ActionMap)
    ensures !(device in m && event in m[device]) ==> r == m
    ensures device in m && event in m[device] ==>
      && (device in r <==> m[device].Keys != {event})
      && (device in r ==> r[device].Keys == m[device].Keys - {event})
    ensures forall d :: d in r ==> d in m && forall e :: e in r[d] ==> e in m[d] && r[d][e] == m[d][e]
    ensures forall d :: d in m && d != device ==> d in r && r[d] == m[d]
  {
    if device in m && event in m[device] then
      var inner := m[device] - {event};
      assert inner.Keys == m[device].Keys - {event};
      assert inner == map[] <==> m[device].Keys == {event} by {
        assert forall e :: e in m[device] && e != event ==> e in inner;
      }
      if inner == map[] then m - {device} else m[device := inner]
    else m
  }

  /** Adding keeps every device's action table non-empty. */
  lemma WithActionKeepsNoEmptyEntries(m: ActionMap, device: string, event: string, action: ActionData)
    requires NoEmptyEntries(m)
    ensures NoEmptyEntries(WithAction(m, device, event, action))
  {
  }

  /** Removing keeps every device's action table non-empty. */
  lemma WithoutActionKeepsNoEmptyEntries(m: ActionMap, device: string, event: string)
    requires NoEmptyEntries(m)
    ensures NoEmptyEntries(WithoutAction(m, device, event))
  {
  }

  /** Adding to a (device, event) pair that already holds an action replaces it: one action per pair. */
  lemma {:induction false} AddOverwrites(m: ActionMap, device: string, event: string, a: ActionData, b: ActionData)
    ensures WithAction(WithAction(m, device, event, a), device, event, b) == WithAction(m, device, event, b)
  {
    var left, right := WithAction(WithAction(m, device, event, a), device, event, b), WithAction(m, device, event, b);
    assert left[device] == right[device];
  }

  /** Removing what was just added restores the map. */
  lemma {:induction false} RemoveUndoesAdd(m: ActionMap, device: string, event: string, action: ActionData)
    requires NoEmptyEntries(m)
    requires !(device in m && event in m[device])
    ensures WithoutAction(WithAction(m, device, event, action), device, event) == m
  {
    var added := WithAction(m, device, event, action);
    var r := WithoutAction(added, device, event);
    if device in m {
      assert m[device] != map[];
      assert added[device].Keys != {event};
      assert r[device] == m[device];
    } else {
      assert added[device].Keys == {event};
    }
  }

  /** Adding back a removed action restores the map. */
  lemma {:induction false} AddUndoesRemove(m: ActionMap, device: string, event: string)
    requires device in m && event in m[device]
    ensures WithAction(WithoutAction(m, device, event), device, event, m[device][event]) == m
  {
    var removed := WithoutAction(m, device, event);
    var r := WithAction(removed, device, event, m[device][event]);
    assert r.Keys == m.Keys;
    forall d | d in m ensures r[d] == m[d] {
      if d == device {
        assert r[d].Keys == m[d].Keys;
      }
    }
  }

  /** After adding, the monitor's lookup for that pair finds the new action and every other lookup is unchanged. */
  lemma AddedActionIsDispatched(m: ActionMap, device: string, event: string, action: ActionData, d: string, e: string)
    ensures Lookup(WithAction(m, device, event, action), d, e) ==
            if d == device && e == event then Some(action) else Lookup(m, d, e)
  {
  }

  /** Removing through a label of the action list deletes exactly that label's entry. */
  lemma {:induction false} RemoveByLabel(m: ActionMap, device: string, event: string)
    requires device in m && event in m[device] && ':' !in event
    requires "type" in m[device][event] && "path" in m[device][event]
    ensures var r := WithoutAction(m, device, EventOfLabel(ActionLabel(event, m[device][event]).value));
      && (device in r ==> event !in r[device])
      && r == WithoutAction(m, device, event)
  {
    LabelRoundTrip(event, m[device][event]);
  }

  /** `USBMonitorGUI`: the configuration window and the state its buttons edit. */
  class ConfigWindow {
    /** `self.device_actions`, the persisted configuration. */
    var deviceActions: ActionMap
    /** The texts of the device list widget. */
    var deviceItems: seq<string>

    /** `load_config` (`None` when the file does not exist) followed by the initial `update_device_list`. */
    constructor (loaded: Option<ActionMap>, entities: seq<PnpEntity>)
      ensures deviceActions == (if loaded.Some? then loaded.value else map[])
      ensures deviceItems == DeviceItems(entities)
    {
      deviceActions := if loaded.Some? then loaded.value else map[];
      deviceItems := [];
      new;
      UpdateDeviceList(entities);
    }

    /** `update_device_list`: clear the list, then add the identity of each entry that has a device id. */
    method UpdateDeviceList(entities: seq<PnpEntity>)
      modifies this`deviceItems
      ensures deviceItems == DeviceItems(entities)
    {
      deviceItems := [];
      for i := 0 to |entities|
        invariant deviceItems == DeviceItems(entities[..i])
      {
        assert entities[..i + 1][..i] == entities[..i];
        if HasDeviceId(entities[i]) {
          deviceItems := deviceItems + [Identity(entities[i])];
        }
      }
      assert entities[..|entities|] == entities;
    }

    /**
     * `add_action(event)`: `selected` is the selected device item and `dialog` the
     * accepted dialog, `None` when it is cancelled.
     */
    method AddAction(event: string, selected: Option<string>, dialog: Option<DialogState>)
      requires dialog.Some? ==> dialog.value.typeIndex < |ComboItems|
      modifies this`deviceActions
      ensures selected.None? || dialog.None? ==> deviceActions == old(deviceActions)
      ensures selected.Some? && dialog.Some? ==>
        deviceActions == WithAction(old(deviceActions), selected.value, event, GetActionData(dialog.value))
      ensures NoEmptyEntries(old(deviceActions)) ==> NoEmptyEntries(deviceActions)
    {
      if selected.None? {
        return;
      }
      if dialog.None? {
        return;
      }
      var actionData := GetActionData(dialog.value);
      var device := selected.value;
      ghost var before := deviceActions;
      if device !in deviceActions {
        deviceActions := deviceActions[device := map[]];
      }
      deviceActions := deviceActions[device := deviceActions[device][event := actionData]];
      if NoEmptyEntries(before) {
        WithActionKeepsNoEmptyEntries(before, device, event, actionData);
      }
    }

    /** `remove_action`: `selectedAction` is the selected label of the action list, `selectedDevice` the selected device. */
    method RemoveAction(selectedAction: Option<string>, selectedDevice: Option<string>)
      modifies this`deviceActions
      ensures selectedAction.None? || selectedDevice.None? ==> deviceActions == old(deviceActions)
      ensures selectedAction.Some? && selectedDevice.Some? ==>
        deviceActions == WithoutAction(old(deviceActions), selectedDevice.value, EventOfLabel(selectedAction.value))
      ensures NoEmptyEntries(old(deviceActions)) ==> NoEmptyEntries(deviceActions)
    {
      if selectedAction.None? || selectedDevice.None? {
        return;
      }
      var event := EventOfLabel(selectedAction.value);
      var device := selectedDevice.value;
      ghost var before := deviceActions;
      if device in deviceActions && event in deviceActions[device] {
        deviceActions := deviceActions[device := deviceActions[device] - {event}];
        if deviceActions[device] == map[] {
          deviceActions := deviceActions - {device};
        }
      }
      if NoEmptyEntries(before) {
        WithoutActionKeepsNoEmptyEntries(before, device, event);
      }
    }
  }
}

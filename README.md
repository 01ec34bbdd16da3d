# USB device monitor: change detection, action execution and action-map editing

This project models the core of a Windows tray application that watches the
plug-and-play devices attached to the host and runs user-configured actions when a
device appears or disappears.

- **Detector** (`usb_monitor/usb_monitor.py`, `USBMonitorWorker.run`). Each polling tick
  turns the `Win32_PnPEntity` enumeration into a snapshot of identity strings
  `"<Name> (<DeviceID>)"`. Entries whose DeviceID is `None` or empty are skipped. The
  tick emits a `connect` event for every identity in `current - known`, then a
  `disconnect` event for every identity in `known - current`. It then carries the
  snapshot to the next tick. A tick whose enumeration raises emits nothing and keeps the
  old set. The event order inside each kind is the set's iteration order, which Python
  leaves unspecified, so the model picks each next device nondeterministically.
  `Run` runs the loop over a finite sequence of poll outcomes, and `DispatchEvents`
  hands each emitted event to `handle_device_change`, as the signal connection does.
- **Actions** (`execute_action`, `handle_device_change`). The dispatch looks up
  `actions[device][event]`. The executor recognises exactly three type strings:
  - "Lancer une application" spawns `path` unless a running process has the path's
    file name, compared case-insensitively.
  - "Fermer une application" terminates every process whose lowered name contains the
    lowered file name, and skips processes whose `name()` or `terminate()` raises.
  - "Exécuter une commande" spawns the command through the shell.

  Any other type does nothing. A missing key is a caught and logged `KeyError`. In the
  launch scan, `proc.name()` is called inside `any(...)` with no local handler. A
  process that raises there therefore aborts the whole action: it is logged and
  nothing is spawned. The model keeps that behaviour.
- **Config** (`usb_monitor/gui.py`). The configuration window edits the nested map
  device → event → `{type, path}` in place:
  - `add_action` creates the inner map on demand and overwrites the entry.
  - `remove_action` deletes the entry, and deletes the device once its inner map is empty.
  - `remove_action` recovers the event from the action-list label
    `"<event>: <type> - <path>"` by splitting on `':'`.
  - The device list shows the same identity strings as the monitor's snapshot.

The process table, whether `Popen` succeeds, the enumeration result, the dialog's
widgets and the list selections are inputs. Each `execute_action` call observes its own
`Host` value (process table and `Popen` outcome), because each call reads the process
list afresh. Started processes and terminated process indices are recorded in an
`Effects` value.

Other behaviour of the source that the model keeps:
- A failed enumeration keeps the previous known set (usb_monitor/usb_monitor.py:97-99).
- Events within a kind follow the set's iteration order.
- The action types are the French strings compared at usb_monitor/usb_monitor.py:42, 48 and 57.
- A missing key, a `name()` that raises during the launch scan and a `Popen` that raises are each caught and logged (usb_monitor/usb_monitor.py:61-62).

## Model

| member | source | states |
|---|---|---|
| `Text.Lower` | usb_monitor/usb_monitor.py:43 | lower-casing keeps the length, leaves no upper-case ASCII letter, changes only upper-case letters, and maps each of them to its lower-case letter |
| `Text.ContainsAt` | usb_monitor/usb_monitor.py:51 | the substring test `sub in s` holds whenever `sub` occurs at some position of `s` |
| `Text.ContainsWitness` | usb_monitor/usb_monitor.py:51 | conversely, when the substring test holds, `sub` occurs at some position of `s` |
| `Text.ContainsTrivial` | usb_monitor/usb_monitor.py:51 | every string contains the empty string and itself |
| `Text.Basename` | usb_monitor/usb_monitor.py:43 | the file name is the final component of the path: the longest separator-free suffix of the path once its trailing `/` and `\` separators are removed |
| `Text.BasenameOfPlainName` | usb_monitor/usb_monitor.py:43 | a name without separators is its own file name |
| `Text.FirstField` | usb_monitor/gui.py:178 | `split(sep)[0]` is a prefix of the text, contains no `sep`, and is followed by `sep` unless it is the whole text |
| `Text.FirstFieldOfJoin` | usb_monitor/gui.py:178 | the first field of `p + sep + rest` is `p` when `p` contains no `sep` |
| `Detector.SnapshotMembership` | usb_monitor/usb_monitor.py:79-82 | an identity is in the snapshot iff some enumerated entry with a non-empty DeviceID renders to it; other entries contribute nothing |
| `Detector.BuildSnapshot` | usb_monitor/usb_monitor.py:79-82 | the set built by the `add` loop is the snapshot of the enumeration |
| `Detector.EmitAll` | usb_monitor/usb_monitor.py:85-92 | iterating a set emits one event of the given kind per element, covering the set, without repetition |
| `Detector.DiffEvents` | usb_monitor/usb_monitor.py:84-92 | the events are the connects for `current - known` followed by the disconnects for `known - current` |
| `Detector.TickEventsExact` | usb_monitor/usb_monitor.py:85-92 | a connect event for `d` is emitted iff `d` is in `current` and not in `known`; a disconnect event iff `d` is in `known` and not in `current` |
| `Detector.NoEventForUnchanged` | usb_monitor/usb_monitor.py:85-92 | no event names a device present in both snapshots |
| `Detector.ConnectsPrecedeDisconnects` | usb_monitor/usb_monitor.py:84-92 | within a tick no disconnect precedes a connect, and no event is emitted twice |
| `Detector.TickEventCount` | usb_monitor/usb_monitor.py:85-92 | a tick emits exactly one event per element of the symmetric difference |
| `Detector.FirstTickConnectsAll` | usb_monitor/usb_monitor.py:74-92 | starting from the empty set, a tick emits one connect per present device and nothing else |
| `Detector.UnchangedSnapshotIsQuiet` | usb_monitor/usb_monitor.py:85-94 | a tick whose snapshot equals the known set emits nothing |
| `Detector.Tick` | usb_monitor/usb_monitor.py:77-99 | on success the known set becomes the snapshot and the events are the diff; when the enumeration raises, no event is emitted and the known set is unchanged |
| `Detector.Run` | usb_monitor/usb_monitor.py:72-99 | the loop starts from the empty set; each tick sees the known set left by the previous ticks, which is the snapshot of the last successful poll |
| `Detector.RepeatedSnapshotIsQuiet` | usb_monitor/usb_monitor.py:85-94 | a successful tick seeing the same devices as the previous successful tick emits nothing and keeps the known set |
| `Actions.LaunchScanNotRunning` | usb_monitor/usb_monitor.py:43-44 | the launch check finds nothing iff every process name is readable and no lowered name equals the target |
| `Actions.RunningTargetBlocksLaunch` | usb_monitor/usb_monitor.py:42-46 | a process whose lowered name equals the target always prevents the spawn |
| `Actions.Execute` | usb_monitor/usb_monitor.py:36-62 | a missing "type" or "path" key has no effect but a logged error; an unrecognised type has no effect at all; at most one spawn, never a spawn together with terminations, and a spawn only when `Popen` succeeds, with no error logged; only readable, terminable processes are terminated |
| `Actions.ExecuteLaunch` | usb_monitor/usb_monitor.py:42-46 | any action of the launch type, whatever other keys it has, terminates nothing; it spawns its path without the shell exactly when the scan on the lowered file name finds no match and no error and `Popen` succeeds; it logs an error, as lines 61-62 do, exactly when a `name()` raises during the scan or the `Popen` raises |
| `Actions.ExecuteClose` | usb_monitor/usb_monitor.py:48-55 | any action of the close type spawns nothing, logs no error, and terminates exactly the close targets of the lowered file name |
| `Actions.ExecuteRunCommand` | usb_monitor/usb_monitor.py:57-62 | any action of the run-command type terminates nothing; it spawns its path once through the shell when `Popen` succeeds, and otherwise spawns nothing and logs the error |
| `Actions.RelaunchSpawnsNothing` | usb_monitor/usb_monitor.py:42-46 | once a process named after the path's file name is in the table, wherever it is, executing the launch action again spawns nothing |
| `Actions.CloseTargetsUpdate` | usb_monitor/usb_monitor.py:49-55 | replacing process `k` by one the close loop skips removes `k` from the close targets and changes nothing else |
| `Actions.CloseSkipsFailingProcess` | usb_monitor/usb_monitor.py:48-55 | a process whose `name()` or `terminate()` raises is skipped and the loop goes on with the others |
| `Actions.CloseTerminatesMatches` | usb_monitor/usb_monitor.py:48-53 | a terminable process named exactly after the path's file name is terminated |
| `Actions.CloseEmptyNameTerminatesAll` | usb_monitor/usb_monitor.py:48-53 | a close action whose path has an empty file name terminates every readable, terminable process |
| `Actions.ScanProcesses` | usb_monitor/usb_monitor.py:43-44 | the short-circuiting `any(...)` loop computes the launch scan |
| `Actions.CloseProcesses` | usb_monitor/usb_monitor.py:49-55 | the close loop terminates exactly the close targets |
| `Actions.ExecuteAction` | usb_monitor/usb_monitor.py:36-62 | the executor's effects are those of `Execute` |
| `Actions.Lookup` | usb_monitor/usb_monitor.py:200-201 | an action is found iff the device is configured and has an entry for the event, and it is exactly that entry |
| `Actions.NotificationText` | usb_monitor/usb_monitor.py:191-194 | the notification is the device id, a space, then "connecté" for "connect" and "déconnecté" for anything else |
| `Actions.Dispatch` | usb_monitor/usb_monitor.py:200-202 | without an entry for the device and event nothing happens; with one, exactly that entry is executed |
| `Actions.HandleDeviceChange` | usb_monitor/usb_monitor.py:188-202 | the notification is always produced, and the effects are those of `Dispatch` on the host state the call observes: nothing without a configured entry, otherwise exactly that entry executed once |
| `Actions.DispatchEvents` | usb_monitor/usb_monitor.py:85-92 | every event a tick emits reaches `handle_device_change` once, in emission order, with the event kind's string as event type; each call executes against the process table and `Popen` outcome it observes, given as an input per call; that table can include what earlier events' actions started or terminated, but the model does not derive it from them |
| `Config.GetActionData` | usb_monitor/gui.py:42-46 | the dialog yields exactly the keys "type" and "path": the type is the combo box's selected item, which the executor recognises, and the path is the line edit's text |
| `Config.ComboOffersRecognisedTypes` | usb_monitor/gui.py:19 | the combo box offers exactly the three type strings the executor recognises |
| `Config.DeviceItemsMatchSnapshot` | usb_monitor/gui.py:137-142 | the device list shows exactly the identities of the monitor's snapshot of the same enumeration |
| `Config.ActionLabel` | usb_monitor/gui.py:150 | a label exists iff the action has both keys, and it starts with the event followed by ':' |
| `Config.EventOfLabel` | usb_monitor/gui.py:178 | the parsed event is the part of the label before its first ':', or the whole label when it has none |
| `Config.LabelRoundTrip` | usb_monitor/gui.py:178 | parsing the label of an event without ':' gives back that event |
| `Config.WithAction` | usb_monitor/gui.py:163-166 | adding sets the (device, event) entry, creates the device if absent, and leaves every other device and every other event of the device unchanged |
| `Config.WithoutAction` | usb_monitor/gui.py:181-184 | removing an absent entry changes nothing; otherwise it deletes only that entry, and deletes the device iff the entry was its last |
| `Config.WithActionKeepsNoEmptyEntries` | usb_monitor/gui.py:163-166 | adding keeps every device's action table non-empty |
| `Config.WithoutActionKeepsNoEmptyEntries` | usb_monitor/gui.py:181-184 | removing keeps every device's action table non-empty |
| `Config.AddOverwrites` | usb_monitor/gui.py:166 | adding twice to the same pair keeps only the second action |
| `Config.RemoveUndoesAdd` | usb_monitor/gui.py:181-184 | removing an entry just added to a free pair restores the map, given no device has an empty table |
| `Config.AddUndoesRemove` | usb_monitor/gui.py:163-166 | adding back a removed action restores the map |
| `Config.AddedActionIsDispatched` | usb_monitor/gui.py:166 | after adding, the monitor's lookup of that pair finds the new action and every other lookup is unchanged |
| `Config.RemoveByLabel` | usb_monitor/gui.py:178-184 | removing through an entry's label deletes exactly that entry |
| `Config.ConfigWindow.constructor` | usb_monitor/gui.py:68-73 | a missing configuration file gives the empty map; the device list is filled from the enumeration |
| `Config.ConfigWindow.UpdateDeviceList` | usb_monitor/gui.py:137-142 | the list holds the identities of the entries with a device id, in enumeration order |
| `Config.ConfigWindow.AddAction` | usb_monitor/gui.py:152-168 | with no selected device or a cancelled dialog nothing changes; otherwise the map becomes `WithAction` of the dialog's data; no device is left with an empty table |
| `Config.ConfigWindow.RemoveAction` | usb_monitor/gui.py:170-186 | with no selected action or device nothing changes; otherwise the map becomes `WithoutAction` of the event parsed from the label; no device is left with an empty table |

## Left out

- Threading and lifecycle are not modelled: the `QThread`, the `running` flag, `stop`/`wait`, `toggle_monitoring` and `time.sleep`. `Detector.Run` runs the loop over a finite sequence of poll outcomes.
- WMI is an input. `Win32_PnPEntity()` is a sequence of (Name, DeviceID) records, or a failure.
- psutil is an input. The process table is a sequence of entries, each with a readable or unreadable name and a flag saying whether `terminate()` succeeds.
- `subprocess.Popen` is an input: `spawnOk` says whether the call returns or raises. Which exception it raises, and the process it starts, are not modelled; a successful call appears as a `Spawn` record.
- Logging is not modelled. Only whether an error was caught and logged appears, as `Effects.errorLogged`.
- Qt presentation is not modelled: the tray icon, menus, `showMessage`, `QMessageBox` warnings, `QTimer` and the window layout. The selections and the accepted dialog are inputs.
- Actions.HandleDeviceChange: assumes the `showMessage` call returns normally. As written, its third argument at usb_monitor/usb_monitor.py:195 is the unscoped `QSystemTrayIcon.Information`. PyQt6, which the file imports at lines 11-13, only provides the scoped `QSystemTrayIcon.MessageIcon.Information` (line 185 uses the scoped form for another enum). So the call can raise `AttributeError` before the lookup at line 200, in which case no configured action runs. The model states the behaviour when the notification succeeds.
- JSON file I/O is not modelled: `load_actions`, `load_config` and `save_config`. The window's constructor takes the parsed map, or `None` for a missing file. JSON values that are not strings are not modelled: an action is a `map<string, string>`.
- The worker loads the action map once at start-up. Edits made in the window reach it only through the file, which the model does not cover.
- The contents and order of the action list built by `update_action_list` are not modelled, because they follow dict insertion order and a `KeyError` can stop the loop midway. Only the label format is modelled.
- Text.Lower: lowers ASCII letters only, not the full Unicode `str.lower`.
- Text.Basename: handles `/` and `\` separators and trailing separators. It does not handle drive prefixes such as `C:name` or `.` components the way `pathlib` does.
- Detector.Tick: only a failure of the enumeration is modelled. An exception raised while the events are being emitted is not modelled. In the source it would leave some events emitted and the known set unchanged.

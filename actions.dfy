/**
 * `USBMonitorWorker.execute_action` and `USBMonitor.handle_device_change`: an action
 * configured for a (device, event) pair launches a program unless one of that name is
 * running, terminates every process whose name contains the program's file name, or
 * runs a shell command. The process table and the processes started are explicit values.
 */
module Actions {
  import opened Wrappers
  import opened Text
  import opened Detector

  /** An action as stored in the configuration: a JSON object, normally with keys "type" and "path". */
  type ActionData = map<string, string>

  /** device identity -> event type ("connect" / "disconnect") -> action. */
  type ActionMap = map<string, map<string, ActionData>>

  const LaunchApp := "Lancer une application"
  const CloseApp := "Fermer une application"
  const RunCommand := "Exécuter une commande"

  predicate IsRecognised(kind: string)
  {
    kind == LaunchApp || kind == CloseApp || kind == RunCommand
  }

  /**
   * One entry of `psutil.process_iter`. `name` is `None` when `proc.name()` raises
   * `NoSuchProcess` or `AccessDenied`; `terminable` is false when `proc.terminate()` raises.
   */
  datatype Proc = Proc(name: Option<string>, terminable: bool)

  /** A `subprocess.Popen(target)` call; `shell` is true for `shell=True`. */
  datatype Spawn = Spawn(target: string, shell: bool)

  /** The side effects of one action: processes started, indices of the processes terminated, and whether an error was logged. */
  datatype Effects = Effects(spawned: seq<Spawn>, terminated: set<nat>, errorLogged: bool)

  const NoEffects := Effects([], {}, false)

  /** The outcome of `any(proc.name().lower() == target for proc in ...)`. */
  datatype Scan = Running | NotRunning | NameError

  /** Scans the table in order; the first `name()` that raises escapes `any` as an exception. */
  function LaunchScan(procs: seq<Proc>, target: string): Scan
  {
    if procs == [] then NotRunning
    else
      match procs[0].name
      case None => NameError
      case Some(n) => if Lower(n) == target then Running else LaunchScan(procs[1..], target)
  }

  /** The scan finds nothing exactly when every name is readable and none matches. */
  lemma {:induction false} LaunchScanNotRunning(procs: seq<Proc>, target: string)
    ensures LaunchScan(procs, target) == NotRunning <==>
      forall i :: 0 <= i < |procs| ==> procs[i].name.Some? && Lower(procs[i].name.value) != target
  {
    if procs != [] {
      LaunchScanNotRunning(procs[1..], target);
      assert forall i :: 1 <= i < |procs| ==> procs[i] == procs[1..][i - 1];
    }
  }

  /** A running process whose lowered name is the target always prevents a launch. */
  lemma {:induction false} RunningTargetBlocksLaunch(procs: seq<Proc>, target: string, k: nat)
    requires k < |procs| && procs[k].name.Some? && Lower(procs[k].name.value) == target
    ensures LaunchScan(procs, target) != NotRunning
  {
    LaunchScanNotRunning(procs, target);
  }

  /** Whether the close loop terminates `p`: its name is readable, contains the target, and `terminate` succeeds. */
  predicate Closes(p: Proc, target: string)
  {
    p.name.Some? && Contains(Lower(p.name.value), target) && p.terminable
  }

  function CloseTargets(procs: seq<Proc>, target: string): set<nat>
  {
    set i: nat | i < |procs| && Closes(procs[i], target)
  }

  /**
   * The effects `execute_action` has on the process table `procs`, where `spawnOk` says
   * whether `subprocess.Popen` returns rather than raising. A missing "type" or "path"
   * key raises `KeyError`; that and a raising `Popen` are caught and logged.
   */
  function Execute(action: ActionData, procs: seq<Proc>, spawnOk: bool): (eff: Effects)
    ensures !("type" in action && "path" in action) ==> eff == Effects([], {}, true)
    ensures "type" in action && "path" in action && !IsRecognised(action["type"]) ==> eff == NoEffects
    ensures |eff.spawned| <= 1 && (eff.spawned == [] || eff.terminated == {})
    ensures eff.spawned != [] ==> spawnOk && !eff.errorLogged
    ensures forall i :: i in eff.terminated ==> i < |procs| && procs[i].name.Some? && procs[i].terminable
  {
    if "type" !in action || "path" !in action then Effects([], {}, true)
    else
      var kind, path := action["type"], action["path"];
      if kind == LaunchApp then
        match LaunchScan(procs, Lower(Basename(path)))
        case NotRunning => SpawnOutcome(Spawn(path, false), spawnOk)
        case Running => NoEffects
        case NameError => Effects([], {}, true)
      else if kind == CloseApp then
        Effects([], CloseTargets(procs, Lower(Basename(path))), false)
      else if kind == RunCommand then
        SpawnOutcome(Spawn(path, true), spawnOk)
      else
        NoEffects
  }

  /** A `Popen` call: the process is started, or the exception is caught and logged. */
  function SpawnOutcome(spawn: Spawn, spawnOk: bool): Effects
  {
    if spawnOk then Effects([spawn], {}, false) else Effects([], {}, true)
  }

  /** The action `{"type": kind, "path": path}` that the configuration dialog produces. */
  function MakeAction(kind: string, path: string): ActionData
  {
    map["type" := kind, "path" := path]
  }

  /** `action` has both keys and its type is `kind`; other keys may be present and are ignored. */
  predicate HasKind(action: ActionData, kind: string)
  {
    "type" in action && "path" in action && action["type"] == kind
  }

  /**
   * Executing a launch action runs the scan on the lowered file name of its path, and
   * spawns the path without the shell when the scan finds nothing and `Popen` succeeds.
   */
  lemma ExecuteLaunch(action: ActionData, procs: seq<Proc>, spawnOk: bool)
    requires HasKind(action, LaunchApp)
    ensures var path := action["path"];
      var eff, scan := Execute(action, procs, spawnOk), LaunchScan(procs, Lower(Basename(path)));
      && eff.spawned == (if scan == NotRunning && spawnOk then [Spawn(path, false)] else [])
      && eff.terminated == {}
      && (eff.errorLogged <==> scan == NameError || (scan == NotRunning && !spawnOk))
  {
    var path := action["path"];
    var scan := LaunchScan(procs, Lower(Basename(path)));
    var eff := Execute(action, procs, spawnOk);
    match scan
    case NotRunning => assert eff == SpawnOutcome(Spawn(path, false), spawnOk);
    case Running => assert eff == NoEffects;
    case NameError => assert eff == Effects([], {}, true);
  }

  /** Executing a run-command action spawns its path once through the shell, or logs the failing `Popen`. */
  lemma ExecuteRunCommand(action: ActionData, procs: seq<Proc>, spawnOk: bool)
    requires HasKind(action, RunCommand)
    ensures Execute(action, procs, spawnOk) ==
      if spawnOk then Effects([Spawn(action["path"], true)], {}, false) else Effects([], {}, true)
  {
    assert RunCommand != LaunchApp && RunCommand != CloseApp;
  }

  /** Executing a close action terminates the close targets of the lowered file name of its path. */
  lemma ExecuteClose(action: ActionData, procs: seq<Proc>, spawnOk: bool)
    requires HasKind(action, CloseApp)
    ensures Execute(action, procs, spawnOk) == Effects([], CloseTargets(procs, Lower(Basename(action["path"]))), false)
  {
    assert CloseApp != LaunchApp;
  }

  /**
   * Launching is idempotent: once a process named after the target's file name is in
   * the table, executing the same launch action again starts nothing.
   */
  lemma {:induction false} RelaunchSpawnsNothing(action: ActionData, procs: seq<Proc>, k: nat, terminable: bool, spawnOk: bool)
    requires HasKind(action, LaunchApp) && k <= |procs|
    ensures var name := Basename(action["path"]);
      Execute(action, procs[..k] + [Proc(Some(name), terminable)] + procs[k..], spawnOk).spawned == []
  {
    var name := Basename(action["path"]);
    var table := procs[..k] + [Proc(Some(name), terminable)] + procs[k..];
    assert table[k] == Proc(Some(name), terminable);
    RunningTargetBlocksLaunch(table, Lower(name), k);
    ExecuteLaunch(action, table, spawnOk);
  }

  /**
   * Closing skips a process whose `name()` or `terminate()` raises and carries on with
   * the others: making process `k` fail changes the terminated set at `k` only.
   */
  lemma CloseSkipsFailingProcess(action: ActionData, procs: seq<Proc>, k: nat, failing: Proc, spawnOk: bool)
    requires HasKind(action, CloseApp) && k < |procs|
    requires failing.name.None? || !failing.terminable
    ensures Execute(action, procs[k := failing], spawnOk).terminated ==
            Execute(action, procs, spawnOk).terminated - {k}
  {
    ExecuteClose(action, procs, spawnOk);
    ExecuteClose(action, procs[k := failing], spawnOk);
    CloseTargetsUpdate(procs, Lower(Basename(action["path"])), k, failing);
  }

  /** Replacing process `k` by one the close loop skips removes `k` from the targets and nothing else. */
  lemma CloseTargetsUpdate(procs: seq<Proc>, target: string, k: nat, failing: Proc)
    requires k < |procs| && !Closes(failing, target)
    ensures CloseTargets(procs[k := failing], target) == CloseTargets(procs, target) - {k}
  {
    var changed := procs[k := failing];
    forall i: nat
      ensures i in CloseTargets(changed, target) <==> i in CloseTargets(procs, target) - {k}
    {
      if i < |procs| && i != k {
        assert changed[i] == procs[i];
      }
    }
  }

  /** A close action terminates every terminable process named exactly after the path's file name. */
  lemma {:induction false} CloseTerminatesMatches(action: ActionData, procs: seq<Proc>, i: nat, spawnOk: bool)
    requires HasKind(action, CloseApp) && i < |procs| && procs[i].terminable
    requires procs[i].name == Some(Basename(action["path"]))
    ensures i in Execute(action, procs, spawnOk).terminated
  {
    ExecuteClose(action, procs, spawnOk);
    ContainsTrivial(Lower(Basename(action["path"])));
  }

  /** A close action whose path has an empty file name (such as "" or "/") matches every readable process. */
  lemma {:induction false} CloseEmptyNameTerminatesAll(action: ActionData, procs: seq<Proc>, spawnOk: bool)
    requires HasKind(action, CloseApp) && Basename(action["path"]) == []
    ensures Execute(action, procs, spawnOk).terminated ==
            set i: nat | i < |procs| && procs[i].name.Some? && procs[i].terminable
  {
    ExecuteClose(action, procs, spawnOk);
    assert Lower(Basename(action["path"])) == [];
    CloseTargetsOfEmptyName(procs);
  }

  /** The empty name is contained in every readable name. */
  lemma CloseTargetsOfEmptyName(procs: seq<Proc>)
    ensures CloseTargets(procs, []) == set i: nat | i < |procs| && procs[i].name.Some? && procs[i].terminable
  {
    forall i: nat | i < |procs| && procs[i].name.Some?
      ensures Contains(Lower(procs[i].name.value), [])
    {
      ContainsTrivial(Lower(procs[i].name.value));
    }
  }

  /** The generator inside `any(...)`: stops at the first matching name or the first `name()` that raises. */
  method ScanProcesses(procs: seq<Proc>, target: string) returns (scan: Scan)
    ensures scan == LaunchScan(procs, target)
  {
    scan := NotRunning;
    var i := 0;
    while i < |procs| && scan == NotRunning
      invariant 0 <= i <= |procs|
      invariant scan == NotRunning ==> LaunchScan(procs[i..], target) == LaunchScan(procs, target)
      invariant scan != NotRunning ==> scan == LaunchScan(procs, target)
    {
      assert procs[i..][1..] == procs[i + 1..];
      match procs[i].name {
        case None =>
          scan := NameError;
        case Some(n) =>
          if Lower(n) == target {
            scan := Running;
          }
      }
      i := i + 1;
    }
  }

  /** The loop of lines 49-55: terminate each matching process, skipping those that raise. */
  method CloseProcesses(procs: seq<Proc>, target: string) returns (terminated: set<nat>)
    ensures terminated == CloseTargets(procs, target)
  {
    terminated := {};
    for i := 0 to |procs|
      invariant terminated == set j: nat | j < i && Closes(procs[j], target)
    {
      match procs[i].name
      case None =>
      case Some(n) =>
        if Contains(Lower(n), target) && procs[i].terminable {
          terminated := terminated + {i};
        }
    }
  }

  /** `execute_action`: the launch scan, the close loop and the command, for effect. */
  method ExecuteAction(action: ActionData, procs: seq<Proc>, spawnOk: bool) returns (eff: Effects)
    ensures eff == Execute(action, procs, spawnOk)
  {
    if "type" !in action || "path" !in action {
      return Effects([], {}, true);
    }
    var kind, path := action["type"], action["path"];
    var target := Lower(Basename(path));
    if kind == LaunchApp {
      var scan := ScanProcesses(procs, target);
      eff := match scan
        case NotRunning => SpawnOutcome(Spawn(path, false), spawnOk)
        case Running => NoEffects
        case NameError => Effects([], {}, true);
    } else if kind == CloseApp {
      var terminated := CloseProcesses(procs, target);
      eff := Effects([], terminated, false);
    } else if kind == RunCommand {
      eff := SpawnOutcome(Spawn(path, true), spawnOk);
    } else {
      eff := NoEffects;
    }
  }

  /** The lookup `actions[device_id][event_type]` guarded by the two membership tests. */
  function Lookup(actions: ActionMap, device: string, event: string): (r: Option<ActionData>)
    ensures r.Some? <==> device in actions && event in actions[device]
    ensures r.Some? ==> r.value == actions[device][event]
  {
    if device in actions && event in actions[device] then Some(actions[device][event]) else None
  }

  /** The notification text `"<device_id> connecté"` or `"<device_id> déconnecté"`. */
  function NotificationText(device: string, event: string): (r: string)
    ensures device + " " <= r
    ensures r[|device| + 1..] == (if event == "connect" then "connecté" else "déconnecté")
  {
    device + " " + if event == "connect" then "connecté" else "déconnecté"
  }

  /** What one `execute_action` call observes: the process table it iterates and whether its `Popen` returns. */
  datatype Host = Host(procs: seq<Proc>, spawnOk: bool)

  /** The effects of handling one (device, event) pair: the configured action's, or none. */
  function Dispatch(actions: ActionMap, device: string, event: string, host: Host): (eff: Effects)
    ensures !(device in actions && event in actions[device]) ==> eff == NoEffects
    ensures device in actions && event in actions[device] ==> eff == Execute(actions[device][event], host.procs, host.spawnOk)
  {
    match Lookup(actions, device, event)
    case None => NoEffects
    case Some(action) => Execute(action, host.procs, host.spawnOk)
  }

  /** `handle_device_change`: always notify, then run the configured action, if any, exactly once. */
  method HandleDeviceChange(actions: ActionMap, device: string, event: string, host: Host)
    returns (message: string, eff: Effects)
    ensures message == NotificationText(device, event)
    ensures eff == Dispatch(actions, device, event, host)
  {
    message := NotificationText(device, event);
    match Lookup(actions, device, event)
    case None =>
      eff := NoEffects;
    case Some(action) =>
      eff := ExecuteAction(action, host.procs, host.spawnOk);
  }

  /**
   * `messages` and `effects` are the results of handling the first events of `evs`, one
   * each; event `j`'s `execute_action` call observes `hosts[j]`.
   */
  ghost predicate HandledInOrder(actions: ActionMap, evs: seq<DeviceEvent>, hosts: seq<Host>,
                                 messages: seq<string>, effects: seq<Effects>)
  {
    && |hosts| == |evs|
    && |messages| == |effects| <= |evs|
    && forall j :: 0 <= j < |effects| ==>
      && messages[j] == NotificationText(evs[j].device, evs[j].kind.Label())
      && effects[j] == Dispatch(actions, evs[j].device, evs[j].kind.Label(), hosts[j])
  }

  lemma HandledExtend(actions: ActionMap, evs: seq<DeviceEvent>, hosts: seq<Host>,
                      messages: seq<string>, effects: seq<Effects>, message: string, eff: Effects)
    requires HandledInOrder(actions, evs, hosts, messages, effects) && |effects| < |evs|
    requires var i := |effects|; message == NotificationText(evs[i].device, evs[i].kind.Label())
    requires var i := |effects|; eff == Dispatch(actions, evs[i].device, evs[i].kind.Label(), hosts[i])
    ensures HandledInOrder(actions, evs, hosts, messages + [message], effects + [eff])
  {
    var messages', effects' := messages + [message], effects + [eff];
    forall j | 0 <= j < |effects'|
      ensures messages'[j] == NotificationText(evs[j].device, evs[j].kind.Label())
      ensures effects'[j] == Dispatch(actions, evs[j].device, evs[j].kind.Label(), hosts[j])
    {
      if j < |effects| {
        assert messages'[j] == messages[j] && effects'[j] == effects[j];
      } else {
        assert j == |effects| && messages'[j] == message && effects'[j] == eff;
      }
    }
  }

  /**
   * The `device_changed` signal connected to `handle_device_change` (line 111): each event
   * a tick emits is handled in emission order, with the event kind's string as event type.
   * Every `execute_action` call reads the process table afresh, so event `i`'s call
   * observes `hosts[i]`, an input: its table can include what the earlier events'
   * actions started or terminated, and its `spawnOk` says whether its `Popen` succeeds.
   */
  method DispatchEvents(actions: ActionMap, evs: seq<DeviceEvent>, hosts: seq<Host>)
    returns (messages: seq<string>, effects: seq<Effects>)
    requires |hosts| == |evs|
    ensures |messages| == |evs| && |effects| == |evs|
    ensures forall i :: 0 <= i < |evs| ==>
      && messages[i] == NotificationText(evs[i].device, evs[i].kind.Label())
      && effects[i] == Dispatch(actions, evs[i].device, evs[i].kind.Label(), hosts[i])
  {
    messages, effects := [], [];
    for i := 0 to |evs|
      invariant |effects| == i
      invariant HandledInOrder(actions, evs, hosts, messages, effects)
    {
      var message, eff := HandleDeviceChange(actions, evs[i].device, evs[i].kind.Label(), hosts[i]);
      HandledExtend(actions, evs, hosts, messages, effects, message, eff);
      messages, effects := messages + [message], effects + [eff];
    }
  }
}

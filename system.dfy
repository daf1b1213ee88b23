/**
 * The system application (class System of backend/system.py) as an object: the part of
 * its persisted configuration the modelled commands touch, the monitor device uuids,
 * the two monitoring task fields, the restart flag and the backup delay member. Every
 * call to a collaborator (config store, events, broker, tasks, drivers, backup,
 * console) is appended to `effects`, in the order the code makes it.
 */
module SystemApp {
  import opened Wrappers
  import opened Lists
  import opened Parameters
  import opened RenderKeys
  import opened NotRenderable
  import opened Host
  import opened Sampling
  import opened Lifecycle

  /** The fields of system.conf that the modelled commands read or write. */
  datatype Config = Config(
    monitoring: bool,
    eventsNotRenderable: seq<string>,
    cleepBackupDelay: int,
    needReboot: bool)

  /** DEFAULT_CONFIG, restricted to the modelled fields. */
  const DefaultConfig: Config := Config(false, [], 15, false)

  /**
   * The default configuration is one the commands accept as is: its backup delay is in
   * the range `set_cleep_backup_delay` allows, and its empty not-renderable list reads
   * back and survives reconciliation unchanged, whatever events the broker knows.
   */
  lemma DefaultConfigIsConsistent(known: set<string>)
    ensures CheckBackupDelay(DefaultConfig.cleepBackupDelay) == Ok(DefaultConfig.cleepBackupDelay)
    ensures ParseKeys(DefaultConfig.eventsNotRenderable) == Ok([])
    ensures Reconciled(DefaultConfig.eventsNotRenderable, known) == Ok(DefaultConfig.eventsNotRenderable)
    ensures !DefaultConfig.monitoring && !DefaultConfig.needReboot
  {
  }

  const SaveFailed: string := "Unable to save configuration"

  /** The `set_renderable(renderer, False)` calls made on the entries whose event resolves, in order. */
  function DisableRendering(live: seq<Entry>): (calls: seq<Effect>)
    ensures |calls| == |live|
    ensures forall i :: 0 <= i < |live| ==> calls[i] == EventSetRenderable(live[i].event, live[i].renderer, false)
    decreases |live|
  {
    if |live| == 0 then []
    else
      var prefix := live[..|live| - 1];
      assert forall i :: 0 <= i < |prefix| ==> prefix[i] == live[i];
      DisableRendering(prefix) + [EventSetRenderable(live[|live| - 1].event, live[|live| - 1].renderer, false)]
  }

  lemma DisableRenderingAppend(live: seq<Entry>, e: Entry)
    ensures DisableRendering(live + [e]) == DisableRendering(live) + [EventSetRenderable(e.event, e.renderer, false)]
  {
    assert (live + [e])[..|live|] == live;
  }

  /** One more key of the read-back loop, when it unpacks. */
  lemma ParseKeysStep(keys: seq<string>, i: int)
    requires 0 <= i < |keys| && ParseKeys(keys[..i]).Ok? && ParseKey(keys[i]).Ok?
    ensures ParseKeys(keys[..i + 1]) == Ok(ParseKeys(keys[..i]).value + [ParseKey(keys[i]).value])
  {
    ParseKeysAppend(keys[..i], keys[i]);
    assert keys[..i + 1] == keys[..i] + [keys[i]];
  }

  /** The read-back loop stops at the first key that does not unpack, with its error. */
  lemma ParseKeysStop(keys: seq<string>, i: int)
    requires 0 <= i < |keys| && ParseKeys(keys[..i]).Ok? && ParseKey(keys[i]).Err?
    ensures ParseKeys(keys) == Err(ParseKey(keys[i]).error)
  {
    forall j | 0 <= j < i
      ensures ParseKey(keys[j]).Ok?
    {
      assert keys[..i][j] == keys[j];
    }
    ParseKeysFirstError(keys, i);
  }

  /** One more step of the collection of stale keys. */
  lemma StaleKeysAppend(entries: seq<Entry>, i: int, known: set<string>)
    requires 0 <= i < |entries|
    ensures var key := EncodeKey(entries[i].renderer, entries[i].event);
      var acc := StaleKeys(entries[..i], known);
      StaleKeys(entries[..i + 1], known) == if entries[i].event in known || key in acc then acc else acc + [key]
  {
    assert entries[..i + 1][..i] == entries[..i];
  }

  /** One more step of the filtering of resolved entries, with the calls it makes. */
  lemma ResolvedStep(entries: seq<Entry>, i: int, known: set<string>)
    requires 0 <= i < |entries|
    ensures DisableRendering(Resolved(entries[..i + 1], known))
         == DisableRendering(Resolved(entries[..i], known))
            + (if entries[i].event in known then [EventSetRenderable(entries[i].event, entries[i].renderer, false)] else [])
  {
    assert entries[..i + 1] == entries[..i] + [entries[i]];
    ResolvedAppend(entries[..i], entries[i], known);
    if entries[i].event in known {
      DisableRenderingAppend(Resolved(entries[..i], known), entries[i]);
    }
  }

  /** The event sent by the driver install/uninstall commands and their completion callbacks. */
  function DriverEvent(name: string, driverType: string, driverName: string, inProgress: bool,
                       success: Option<bool>, message: Option<string>): Effect
  {
    Send(name, DriverParams(driverType, driverName, inProgress, success, message), None)
  }

  /**
   * The second loop of `_set_not_renderable_events`: `remove` each collected key from
   * the stored list. Every collected key is still present when its turn comes, so the
   * `remove` never raises.
   */
  method RemoveCollected(stored: seq<string>, toDelete: seq<string>) returns (keys: seq<string>)
    requires forall i, j :: 0 <= i < j < |toDelete| ==> toDelete[i] != toDelete[j]
    requires forall k :: k in toDelete ==> k in stored
    ensures keys == RemoveEach(stored, toDelete)
  {
    keys := stored;
    var j := 0;
    while j < |toDelete|
      invariant 0 <= j <= |toDelete|
      invariant RemoveEach(keys, toDelete[j..]) == RemoveEach(stored, toDelete)
      invariant forall k :: k in toDelete[j..] ==> k in keys
    {
      var key := toDelete[j];
      assert key in toDelete[j..];
      ghost var before := keys;
      keys := RemoveFirst(keys, key);
      assert toDelete[j..][1..] == toDelete[j + 1..];
      forall k | k in toDelete[j + 1..]
        ensures k in keys
      {
        var m :| j + 1 <= m < |toDelete| && toDelete[m] == k;
        assert toDelete[j] != toDelete[m];
        assert k in toDelete[j..];
        assert multiset(keys)[k] == multiset(before)[k] > 0;
      }
      j := j + 1;
    }
  }

  class System {
    var config: Config
    var needRestart: bool
    /** `cleep_backup_delay`: None until the application is configured. */
    var cleepBackupDelay: Option<int>
    var monitorCpuUuid: Option<string>
    var monitorMemoryUuid: Option<string>
    /** The monitoring task fields; a held task is represented by its period in seconds. */
    var cpuTask: Option<real>
    var memoryTask: Option<real>
    var effects: seq<Effect>

    /** A freshly built application over the configuration found on disk. */
    constructor(stored: Config)
      ensures config == stored && !needRestart && cleepBackupDelay.None?
      ensures monitorCpuUuid.None? && monitorMemoryUuid.None? && cpuTask.None? && memoryTask.None?
      ensures effects == []
    {
      config := stored;
      needRestart := false;
      cleepBackupDelay := None;
      monitorCpuUuid := None;
      monitorMemoryUuid := None;
      cpuTask := None;
      memoryTask := None;
      effects := [];
    }

    /** The "monitorcpu" device is reported hidden exactly when no CPU task is held. */
    predicate CpuDeviceHidden()
      reads this`cpuTask
    {
      cpuTask.None?
    }

    /** The "monitormemory" device is reported hidden exactly when no memory task is held. */
    predicate MemoryDeviceHidden()
      reads this`memoryTask
    {
      memoryTask.None?
    }

    /**
     * `_configure`: clear the reboot flag, load the backup delay, take the uuids of the
     * known monitor devices (the last device of each type wins), create the missing
     * ones, then reconcile the not-renderable list with the broker. The two configuration
     * writes succeed or fail independently (`rebootWriteOk`, `listWriteOk`); a list that
     * does not read back raises after the devices are created.
     */
    method Configure(devices: seq<Device>, known: set<string>, rebootWriteOk: bool, listWriteOk: bool)
      returns (r: Result<()>)
      modifies this`config, this`cleepBackupDelay, this`monitorCpuUuid, this`monitorMemoryUuid, this`effects
      ensures cleepBackupDelay == Some(old(config.cleepBackupDelay))
      ensures monitorCpuUuid == DiscoveredUuid(devices, "monitorcpu", old(monitorCpuUuid))
      ensures monitorMemoryUuid == DiscoveredUuid(devices, "monitormemory", old(monitorMemoryUuid))
      ensures r.Ok? <==> ParseKeys(old(config.eventsNotRenderable)).Ok?
      ensures r.Err? ==> r.error == ParseKeys(old(config.eventsNotRenderable)).error
      ensures var created := old(effects) + [ConfigWrite("needreboot", rebootWriteOk)]
          + MissingDevices(LastUuidOfType(devices, "monitor"), monitorCpuUuid, monitorMemoryUuid);
        effects == if r.Ok?
                   then created + DisableRendering(Resolved(ParseKeys(old(config.eventsNotRenderable)).value, known))
                        + [ConfigWrite("eventsnotrenderable", listWriteOk)]
                   else created
      ensures var cleared := if rebootWriteOk then old(config).(needReboot := false) else old(config);
        config == if r.Ok? && listWriteOk
                  then cleared.(eventsNotRenderable := Reconciled(old(config.eventsNotRenderable), known).value)
                  else cleared
    {
      ghost var before := effects;
      effects := effects + [ConfigWrite("needreboot", rebootWriteOk)];
      if rebootWriteOk {
        config := config.(needReboot := false);
      }
      cleepBackupDelay := Some(config.cleepBackupDelay);
      var monitorUuid := DiscoverDevices(devices);
      CreateMissingDevices(monitorUuid);
      ghost var created := effects;
      assert created == before + [ConfigWrite("needreboot", rebootWriteOk)]
        + MissingDevices(LastUuidOfType(devices, "monitor"), monitorCpuUuid, monitorMemoryUuid);
      r := SetNotRenderableEvents(known, listWriteOk);
    }

    /** The device loop of `_configure`: the last device of each monitor type gives its uuid. */
    method DiscoverDevices(devices: seq<Device>) returns (monitorUuid: Option<string>)
      modifies this`monitorCpuUuid, this`monitorMemoryUuid
      ensures monitorUuid == LastUuidOfType(devices, "monitor")
      ensures monitorCpuUuid == DiscoveredUuid(devices, "monitorcpu", old(monitorCpuUuid))
      ensures monitorMemoryUuid == DiscoveredUuid(devices, "monitormemory", old(monitorMemoryUuid))
    {
      monitorUuid := None;
      var i := 0;
      while i < |devices|
        invariant 0 <= i <= |devices|
        invariant monitorUuid == LastUuidOfType(devices[..i], "monitor")
        invariant monitorCpuUuid == DiscoveredUuid(devices[..i], "monitorcpu", old(monitorCpuUuid))
        invariant monitorMemoryUuid == DiscoveredUuid(devices[..i], "monitormemory", old(monitorMemoryUuid))
      {
        var device := devices[i];
        LastUuidStep(devices, i, "monitor");
        LastUuidStep(devices, i, "monitorcpu");
        LastUuidStep(devices, i, "monitormemory");
        if device.deviceType == "monitorcpu" {
          monitorCpuUuid := Some(device.uuid);
        } else if device.deviceType == "monitormemory" {
          monitorMemoryUuid := Some(device.uuid);
        } else if device.deviceType == "monitor" {
          monitorUuid := Some(device.uuid);
        }
        i := i + 1;
      }
      assert devices[..i] == devices;
    }

    /** The creation part of `_configure`: add each monitor device that has no truthy uuid; the new uuids are not kept. */
    method CreateMissingDevices(monitorUuid: Option<string>)
      modifies this`effects
      ensures effects == old(effects) + MissingDevices(monitorUuid, monitorCpuUuid, monitorMemoryUuid)
    {
      if !Truthy(monitorUuid) {
        effects := effects + [AddDevice("monitor", "System monitor")];
      }
      if !Truthy(monitorCpuUuid) {
        effects := effects + [AddDevice("monitorcpu", "Cpu monitor")];
      }
      if !Truthy(monitorMemoryUuid) {
        effects := effects + [AddDevice("monitormemory", "Memory monitor")];
      }
    }

    /** `get_not_renderable_events`: split every stored key in order; a key that does not unpack raises. */
    method GetNotRenderableEvents() returns (r: Result<seq<Entry>>)
      ensures r == ParseKeys(config.eventsNotRenderable)
    {
      var keys := config.eventsNotRenderable;
      var entries: seq<Entry> := [];
      var i := 0;
      assert keys[..0] == [];
      while i < |keys|
        invariant 0 <= i <= |keys|
        invariant ParseKeys(keys[..i]) == Ok(entries)
      {
        var parsed := ParseKey(keys[i]);
        if parsed.Err? {
          ParseKeysStop(keys, i);
          return Err(parsed.error);
        }
        ParseKeysStep(keys, i);
        entries := entries + [parsed.value];
        i := i + 1;
      }
      assert keys[..i] == keys;
      return Ok(entries);
    }

    /**
     * `set_event_renderable`: check the two names, edit the stored list (enabling removes
     * the pair's key, disabling appends it when absent), persist it, tell the broker and
     * return the list read back. A failed write raises before the broker is told.
     */
    method SetEventRenderable(renderer: string, event: string, renderable: bool, persistOk: bool)
      returns (r: Result<seq<Entry>>)
      modifies this`config, this`effects
      ensures var check := CheckStrings([("renderer_name", renderer), ("event_name", event)]);
        check.Err? ==> r == Err(check.error) && config == old(config) && effects == old(effects)
      ensures CheckStrings([("renderer_name", renderer), ("event_name", event)]).Ok? && !persistOk ==>
        && r == Err(CommandError(SaveFailed))
        && config == old(config)
        && effects == old(effects) + [ConfigWrite("eventsnotrenderable", false)]
      ensures CheckStrings([("renderer_name", renderer), ("event_name", event)]).Ok? && persistOk ==>
        && config == old(config).(eventsNotRenderable :=
             ToggleKey(old(config.eventsNotRenderable), EncodeKey(renderer, event), renderable))
        && effects == old(effects) + [ConfigWrite("eventsnotrenderable", true),
                                      BrokerSetEventRenderable(event, renderer, renderable)]
        && r == ParseKeys(config.eventsNotRenderable)
    {
      var check := CheckStrings([("renderer_name", renderer), ("event_name", event)]);
      if check.Err? {
        return Err(check.error);
      }
      var keys := config.eventsNotRenderable;
      var key := EncodeKey(renderer, event);
      if key in keys && renderable {
        keys := RemoveFirst(keys, key);
      } else if key !in keys && !renderable {
        keys := keys + [key];
      }
      effects := effects + [ConfigWrite("eventsnotrenderable", persistOk)];
      if !persistOk {
        return Err(CommandError(SaveFailed));
      }
      config := config.(eventsNotRenderable := keys);
      effects := effects + [BrokerSetEventRenderable(event, renderer, renderable)];
      r := GetNotRenderableEvents();
    }

    /**
     * `_set_not_renderable_events`: disable rendering of every stored pair whose event
     * the broker resolves, collect the keys of the others once each, remove each
     * collected key once from the stored list and write the list back, once.
     */
    method SetNotRenderableEvents(known: set<string>, persistOk: bool) returns (r: Result<()>)
      modifies this`config, this`effects
      ensures |old(effects)| <= |effects| && effects[..|old(effects)|] == old(effects)
      ensures r.Ok? <==> ParseKeys(old(config.eventsNotRenderable)).Ok?
      ensures r.Err? ==> (r.error == ParseKeys(old(config.eventsNotRenderable)).error
        && config == old(config) && effects == old(effects))
      ensures r.Ok? ==>
        && effects == old(effects)
             + DisableRendering(Resolved(ParseKeys(old(config.eventsNotRenderable)).value, known))
             + [ConfigWrite("eventsnotrenderable", persistOk)]
        && config == if persistOk
                     then old(config).(eventsNotRenderable := Reconciled(old(config.eventsNotRenderable), known).value)
                     else old(config)
    {
      var listed := GetNotRenderableEvents();
      if listed.Err? {
        return Err(listed.error);
      }
      var entries := listed.value;
      var toDelete := DisableResolved(entries, known);
      StaleKeysOfStoredList(config.eventsNotRenderable, known);
      var keys := RemoveCollected(config.eventsNotRenderable, toDelete);
      effects := effects + [ConfigWrite("eventsnotrenderable", persistOk)];
      if persistOk {
        config := config.(eventsNotRenderable := keys);
      }
      r := Ok(());
    }

    /**
     * The first loop of `_set_not_renderable_events`: every entry whose event resolves
     * gets `set_renderable(renderer, False)`; the keys of the others are collected once each.
     */
    method DisableResolved(entries: seq<Entry>, known: set<string>) returns (toDelete: seq<string>)
      modifies this`effects
      ensures toDelete == StaleKeys(entries, known)
      ensures effects == old(effects) + DisableRendering(Resolved(entries, known))
    {
      toDelete := [];
      var calls: seq<Effect> := [];
      var i := 0;
      assert entries[..0] == [];
      while i < |entries|
        invariant 0 <= i <= |entries|
        invariant toDelete == StaleKeys(entries[..i], known)
        invariant calls == DisableRendering(Resolved(entries[..i], known))
        invariant effects == old(effects)
      {
        var entry := entries[i];
        var key := EncodeKey(entry.renderer, entry.event);
        StaleKeysAppend(entries, i, known);
        ResolvedStep(entries, i, known);
        if entry.event in known {
          calls := calls + [EventSetRenderable(entry.event, entry.renderer, false)];
        } else if key !in toDelete {
          toDelete := toDelete + [key];
        }
        i := i + 1;
      }
      assert entries[..i] == entries;
      effects := effects + calls;
    }

    /** `__start_monitoring_tasks`: nothing while monitoring is off; otherwise both tasks are (re)created, unguarded. */
    method StartMonitoringTasks()
      modifies this`cpuTask, this`memoryTask, this`effects
      ensures !config.monitoring ==> cpuTask == old(cpuTask) && memoryTask == old(memoryTask) && effects == old(effects)
      ensures config.monitoring ==>
        && cpuTask == Some(MonitoringCpuDelay) && memoryTask == Some(MonitoringMemoryDelay)
        && effects == old(effects) + [TaskStart(CpuTask, MonitoringCpuDelay), TaskStart(MemoryTask, MonitoringMemoryDelay)]
      ensures config.monitoring ==> !CpuDeviceHidden() && !MemoryDeviceHidden()
    {
      if !config.monitoring {
        return;
      }
      cpuTask := Some(MonitoringCpuDelay);
      effects := effects + [TaskStart(CpuTask, MonitoringCpuDelay)];
      memoryTask := Some(MonitoringMemoryDelay);
      effects := effects + [TaskStart(MemoryTask, MonitoringMemoryDelay)];
    }

    /** `__stop_monitoring_tasks`: stop and drop each held task. */
    method StopMonitoringTasks()
      modifies this`cpuTask, this`memoryTask, this`effects
      ensures cpuTask.None? && memoryTask.None?
      ensures CpuDeviceHidden() && MemoryDeviceHidden()
      ensures effects == old(effects) + (if old(cpuTask).Some? then [TaskStop(CpuTask)] else [])
                                      + (if old(memoryTask).Some? then [TaskStop(MemoryTask)] else [])
    {
      if cpuTask.Some? {
        effects := effects + [TaskStop(CpuTask)];
        cpuTask := None;
      }
      if memoryTask.Some? {
        effects := effects + [TaskStop(MemoryTask)];
        memoryTask := None;
      }
    }

    /** `set_monitoring`: persist the flag (or raise), then start or stop the tasks to match it. */
    method SetMonitoring(monitoring: bool, persistOk: bool) returns (r: Result<()>)
      modifies this`config, this`cpuTask, this`memoryTask, this`effects
      ensures r.Ok? <==> persistOk
      ensures !persistOk ==> (r.error == CommandError(SaveFailed) && config == old(config)
        && cpuTask == old(cpuTask) && memoryTask == old(memoryTask)
        && effects == old(effects) + [ConfigWrite("monitoring", false)])
      ensures persistOk ==> config == old(config).(monitoring := monitoring)
      ensures persistOk && monitoring ==> (cpuTask == Some(MonitoringCpuDelay) && memoryTask == Some(MonitoringMemoryDelay)
        && effects == old(effects) + [ConfigWrite("monitoring", true),
                                      TaskStart(CpuTask, MonitoringCpuDelay), TaskStart(MemoryTask, MonitoringMemoryDelay)])
      ensures persistOk && !monitoring ==> (CpuDeviceHidden() && MemoryDeviceHidden()
        && effects == old(effects) + [ConfigWrite("monitoring", true)]
             + (if old(cpuTask).Some? then [TaskStop(CpuTask)] else [])
             + (if old(memoryTask).Some? then [TaskStop(MemoryTask)] else []))
    {
      effects := effects + [ConfigWrite("monitoring", persistOk)];
      if !persistOk {
        return Err(CommandError(SaveFailed));
      }
      config := config.(monitoring := monitoring);
      if config.monitoring {
        StartMonitoringTasks();
      } else {
        StopMonitoringTasks();
      }
      r := Ok(());
    }

    /** `_monitoring_cpu_task`: send the clamped usage for the CPU monitor device. */
    method CpuTick(systemReading: real, cleepReading: real)
      modifies this`effects
      ensures var usage := GetCpuUsage(systemReading, cleepReading);
        effects == old(effects) + [Send("system.monitoring.cpu", CpuParams(usage.system, usage.cleep), monitorCpuUuid)]
    {
      var usage := GetCpuUsage(systemReading, cleepReading);
      effects := effects + [Send("system.monitoring.cpu", CpuParams(usage.system, usage.cleep), monitorCpuUuid)];
    }

    /**
     * `_monitoring_memory_task`: send an alert with the used percent and the threshold
     * when usage reaches it, then the memory sample for the memory monitor device.
     */
    method MemoryTick(total: nat, available: nat, cleepMemory: nat) returns (r: Result<()>)
      modifies this`effects
      ensures r.Err? <==> total == 0
      ensures r.Err? ==> r.error == ZeroDivisionError && effects == old(effects)
      ensures r.Ok? ==> (effects ==
        old(effects)
        + (if MemoryAlertDue(total, available)
           then [Send("system.alert.memory", AlertParams(UsedPercent(total, available).value, ThresholdMemory), None)]
           else [])
        + [Send("system.monitoring.memory", MemoryParams(total, available, cleepMemory), monitorMemoryUuid)])
    {
      var used := UsedPercent(total, available);
      if used.Err? {
        return Err(used.error);
      }
      var percent := used.value;
      if percent >= ThresholdMemory {
        effects := effects + [Send("system.alert.memory", AlertParams(percent, ThresholdMemory), None)];
      }
      effects := effects + [Send("system.monitoring.memory", MemoryParams(total, available, cleepMemory), monitorMemoryUuid)];
      r := Ok(());
    }

    /** `backup_cleep_config`. */
    method BackupCleepConfig()
      modifies this`effects
      ensures effects == old(effects) + [Backup]
    {
      effects := effects + [Backup];
    }

    /** `reboot_device`: back up the configuration, announce the reboot, then reboot after the delay. */
    method RebootDevice(delay: real)
      modifies this`effects
      ensures effects == old(effects) + [Backup, Send("system.device.reboot", DelayParams(delay), None),
                                         ConsoleCommand("reboot -f", delay)]
    {
      BackupCleepConfig();
      effects := effects + [Send("system.device.reboot", DelayParams(delay), None)];
      effects := effects + [ConsoleCommand("reboot -f", delay)];
    }

    /**
     * `on_event`: a restart request raises the restart flag, a reboot request sets the
     * persisted reboot flag, and the time tick backs up the configuration every
     * `cleepBackupDelay` minutes.
     */
    method OnEvent(event: string, minute: Option<int>, persistOk: bool) returns (r: Result<()>)
      modifies this`needRestart, this`config, this`effects
      ensures var reaction := OnEventReaction(event, minute, old(cleepBackupDelay));
        reaction.Err? ==> (r == Err(reaction.error)
          && needRestart == old(needRestart) && config == old(config) && effects == old(effects))
      ensures var reaction := OnEventReaction(event, minute, old(cleepBackupDelay));
        reaction.Ok? ==>
          && r.Ok?
          && needRestart == (old(needRestart) || reaction.value.needRestart)
          && config == (if reaction.value.needReboot && persistOk then old(config).(needReboot := true) else old(config))
          && effects == old(effects)
               + (if reaction.value.needReboot then [ConfigWrite("needreboot", persistOk)] else [])
               + (if reaction.value.backup then [Backup] else [])
    {
      if event == "system.cleep.needrestart" {
        needRestart := true;
      } else if EndsWith(event, "device.needreboot") {
        effects := effects + [ConfigWrite("needreboot", persistOk)];
        if persistOk {
          config := config.(needReboot := true);
        }
      }
      if event == "parameters.time.now" {
        assert !EndsWith(event, "device.needreboot") by {
          assert event[|event| - 17] == event[2] == 'r';
        }
        if minute.None? {
          return Err(KeyError("minute"));
        }
        if cleepBackupDelay.None? {
          return Err(TypeError);
        }
        if cleepBackupDelay.value == 0 {
          return Err(ZeroDivisionError);
        }
        if PyMod(minute.value, cleepBackupDelay.value) == 0 {
          BackupCleepConfig();
        }
      }
      r := Ok(());
    }

    /** `set_cleep_backup_delay`: a delay outside 5..120 is refused; the member follows only a saved value. */
    method SetCleepBackupDelay(delay: int, persistOk: bool) returns (r: Result<()>)
      modifies this`config, this`cleepBackupDelay, this`effects
      ensures r.Ok? <==> 5 <= delay <= 120
      ensures r.Err? ==> (r == Err(CheckBackupDelay(delay).error)
        && config == old(config) && cleepBackupDelay == old(cleepBackupDelay) && effects == old(effects))
      ensures r.Ok? ==> effects == old(effects) + [ConfigWrite("cleepbackupdelay", persistOk)]
      ensures r.Ok? && persistOk ==> config == old(config).(cleepBackupDelay := delay) && cleepBackupDelay == Some(delay)
      ensures r.Ok? && !persistOk ==> config == old(config) && cleepBackupDelay == old(cleepBackupDelay)
    {
      var check := CheckBackupDelay(delay);
      if check.Err? {
        return Err(check.error);
      }
      effects := effects + [ConfigWrite("cleepbackupdelay", persistOk)];
      if persistOk {
        config := config.(cleepBackupDelay := delay);
        cleepBackupDelay := Some(delay);
      }
      r := Ok(());
    }

    /** `install_driver`: after the guards, launch the install and announce it as in progress. */
    method InstallDriver(driverType: string, driverName: string, force: bool, driver: Option<Driver>)
      returns (r: Result<()>)
      modifies this`effects
      ensures r == InstallGuard(driverType, driverName, force, driver)
      ensures r.Err? ==> effects == old(effects)
      ensures r.Ok? ==> effects == old(effects) + [
        DriverInstall(driverType, driverName),
        DriverEvent("system.driver.install", driverType, driverName, true, None, None)]
    {
      r := InstallGuard(driverType, driverName, force, driver);
      if r.Err? {
        return;
      }
      effects := effects + [DriverInstall(driverType, driverName)];
      effects := effects + [DriverEvent("system.driver.install", driverType, driverName, true, None, None)];
    }

    /** `_install_driver_terminated`: announce the outcome, then reboot when a successful install asks for it. */
    method InstallDriverTerminated(driverType: string, driverName: string, success: bool,
                                   message: Option<string>, driver: Option<Driver>)
      modifies this`effects
      ensures effects == old(effects)
        + [DriverEvent("system.driver.install", driverType, driverName, false, Some(success), message)]
        + (if RebootAfterTermination(success, driver)
           then [Backup, Send("system.device.reboot", DelayParams(5.0), None), ConsoleCommand("reboot -f", 5.0)]
           else [])
    {
      effects := effects + [DriverEvent("system.driver.install", driverType, driverName, false, Some(success), message)];
      if success && driver.Some? && driver.value.requiresReboot {
        RebootDevice(5.0);
      }
    }

    /** `uninstall_driver`: after the guards, launch the uninstall, announce it and return True. */
    method UninstallDriver(driverType: string, driverName: string, driver: Option<Driver>)
      returns (r: Result<bool>)
      modifies this`effects
      ensures r.Ok? <==> UninstallGuard(driverType, driverName, driver).Ok?
      ensures r.Ok? ==> r.value
      ensures r.Err? ==> r.error == UninstallGuard(driverType, driverName, driver).error && effects == old(effects)
      ensures r.Ok? ==> effects == old(effects) + [
        DriverUninstall(driverType, driverName),
        DriverEvent("system.driver.uninstall", driverType, driverName, true, None, None)]
    {
      var guard := UninstallGuard(driverType, driverName, driver);
      if guard.Err? {
        return Err(guard.error);
      }
      effects := effects + [DriverUninstall(driverType, driverName)];
      effects := effects + [DriverEvent("system.driver.uninstall", driverType, driverName, true, None, None)];
      r := Ok(true);
    }

    /** `_uninstall_driver_terminated`: announce the outcome, then reboot when a successful uninstall asks for it. */
    method UninstallDriverTerminated(driverType: string, driverName: string, success: bool,
                                     message: Option<string>, driver: Option<Driver>)
      modifies this`effects
      ensures effects == old(effects)
        + [DriverEvent("system.driver.uninstall", driverType, driverName, false, Some(success), message)]
        + (if RebootAfterTermination(success, driver)
           then [Backup, Send("system.device.reboot", DelayParams(5.0), None), ConsoleCommand("reboot -f", 5.0)]
           else [])
    {
      effects := effects + [DriverEvent("system.driver.uninstall", driverType, driverName, false, Some(success), message)];
      if success && driver.Some? && driver.value.requiresReboot {
        RebootDevice(5.0);
      }
    }
  }
}

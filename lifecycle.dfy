/**
 * Decisions of the application's lifecycle and configuration commands, on values:
 * which monitor devices exist, how an incoming event is handled, the backup delay
 * bounds and the driver install/uninstall guards.
 */
module Lifecycle {
  import opened Wrappers
  import opened Parameters
  import opened Host
  import opened Numerals

  /** One device of the application, as registered with the host. */
  datatype Device = Device(uuid: string, deviceType: string)

  /** The index of the last device of a type, or -1 when there is none. */
  function LastIndexOfType(devices: seq<Device>, deviceType: string): (k: int)
    ensures -1 <= k < |devices|
    ensures k >= 0 ==> devices[k].deviceType == deviceType
    ensures forall j :: k < j < |devices| ==> devices[j].deviceType != deviceType
    decreases |devices|
  {
    if |devices| == 0 then -1
    else if devices[|devices| - 1].deviceType == deviceType then |devices| - 1
    else LastIndexOfType(devices[..|devices| - 1], deviceType)
  }

  /** The uuid the discovery loop keeps for a type: the last device of that type wins. */
  function LastUuidOfType(devices: seq<Device>, deviceType: string): (r: Option<string>)
    ensures r.None? <==> forall i :: 0 <= i < |devices| ==> devices[i].deviceType != deviceType
    ensures r.Some? ==> r.value == devices[LastIndexOfType(devices, deviceType)].uuid
  {
    var k := LastIndexOfType(devices, deviceType);
    if k < 0 then None else Some(devices[k].uuid)
  }

  /** One more device of the discovery loop: a device of the type replaces the uuid found so far. */
  lemma LastUuidStep(devices: seq<Device>, i: int, deviceType: string)
    requires 0 <= i < |devices|
    ensures LastUuidOfType(devices[..i + 1], deviceType)
         == if devices[i].deviceType == deviceType then Some(devices[i].uuid) else LastUuidOfType(devices[..i], deviceType)
  {
    assert devices[..i + 1][..i] == devices[..i];
  }

  /** A uuid field after the discovery loop: the last device of the type, or the value it held before. */
  function DiscoveredUuid(devices: seq<Device>, deviceType: string, previous: Option<string>): Option<string>
  {
    if LastUuidOfType(devices, deviceType).Some? then LastUuidOfType(devices, deviceType) else previous
  }

  /** The devices created at configuration for each monitor that has no truthy uuid, in creation order. */
  function MissingDevices(monitorUuid: Option<string>, cpuUuid: Option<string>, memoryUuid: Option<string>)
    : (added: seq<Effect>)
    ensures |added| == (if Truthy(monitorUuid) then 0 else 1) + (if Truthy(cpuUuid) then 0 else 1)
                       + (if Truthy(memoryUuid) then 0 else 1)
    ensures AddDevice("monitor", "System monitor") in added <==> !Truthy(monitorUuid)
    ensures AddDevice("monitorcpu", "Cpu monitor") in added <==> !Truthy(cpuUuid)
    ensures AddDevice("monitormemory", "Memory monitor") in added <==> !Truthy(memoryUuid)
    ensures forall i :: 0 <= i < |added| ==> added[i].AddDevice?
  {
    (if Truthy(monitorUuid) then [] else [AddDevice("monitor", "System monitor")])
    + (if Truthy(cpuUuid) then [] else [AddDevice("monitorcpu", "Cpu monitor")])
    + (if Truthy(memoryUuid) then [] else [AddDevice("monitormemory", "Memory monitor")])
  }

  /** Python's `a % b` takes the sign of the divisor; Dafny's `%` is never negative. */
  function PyMod(a: int, b: int): (r: int)
    requires b != 0
    ensures b > 0 ==> 0 <= r < b
    ensures b < 0 ==> b < r <= 0
    ensures r == 0 <==> a % b == 0
  {
    var m := a % b;
    if b > 0 || m == 0 then m else m + b
  }

  /** The flags an incoming event raises in `on_event`. */
  datatype EventReaction = EventReaction(needRestart: bool, needReboot: bool, backup: bool)

  predicate EndsWith(s: string, suffix: string)
  {
    |suffix| <= |s| && s[|s| - |suffix|..] == suffix
  }

  /**
   * `on_event`: a restart request raises the restart flag, an event ending in
   * "device.needreboot" the reboot flag, and the time tick asks for a backup when the
   * minute is a multiple of the backup delay. The tick fails like Python when its
   * minute is missing, the delay is unset or the delay is zero.
   */
  function OnEventReaction(event: string, minute: Option<int>, backupDelay: Option<int>): (r: Result<EventReaction>)
    ensures r.Err? <==> event == "parameters.time.now" && (minute.None? || backupDelay.None? || backupDelay.value == 0)
    ensures r.Err? ==> r.error == if minute.None? then KeyError("minute") else if backupDelay.None? then TypeError else ZeroDivisionError
    ensures r.Ok? ==> !(r.value.needRestart && r.value.needReboot)
  {
    var restart := event == "system.cleep.needrestart";
    var reboot := !restart && EndsWith(event, "device.needreboot");
    if event != "parameters.time.now" then Ok(EventReaction(restart, reboot, false))
    else if minute.None? then Err(KeyError("minute"))
    else if backupDelay.None? then Err(TypeError)
    else if backupDelay.value == 0 then Err(ZeroDivisionError)
    else Ok(EventReaction(restart, reboot, PyMod(minute.value, backupDelay.value) == 0))
  }

  /** A backup happens exactly on the minutes that are a multiple of the delay. */
  lemma BackupEveryDelayMinutes(minute: int, delay: int)
    requires delay != 0
    ensures OnEventReaction("parameters.time.now", Some(minute), Some(delay)).Ok?
    ensures OnEventReaction("parameters.time.now", Some(minute), Some(delay)).value.backup
        <==> exists k :: minute == k * delay
  {
    var r := PyMod(minute, delay);
    if r == 0 {
      assert minute == (minute / delay) * delay;
    }
    if exists k :: minute == k * delay {
      var k :| minute == k * delay;
      MultipleModZero(k, delay);
    }
  }

  lemma MultipleModZero(k: int, d: int)
    requires d != 0
    ensures (k * d) % d == 0
  {
    var q := (k * d) / d;
    var m := (k * d) % d;
    assert (k - q) * d == m;
    if k - q > 0 {
      MulAtLeast(k - q, d);
    } else if k - q < 0 {
      MulAtLeast(q - k, d);
    }
  }

  /** |n * d| >= |d| for n >= 1, with either sign of n. */
  lemma {:induction false} MulAtLeast(n: int, d: int)
    requires n >= 1 && d != 0
    ensures d > 0 ==> n * d >= d && (-n) * d <= -d
    ensures d < 0 ==> n * d <= d && (-n) * d >= -d
    decreases n
  {
    if n > 1 {
      MulAtLeast(n - 1, d);
      assert n * d == (n - 1) * d + d;
      assert (-n) * d == (-(n - 1)) * d - d;
    }
  }

  /** Only the named events raise flags; the time tick never does. */
  lemma EventFlags(event: string, minute: Option<int>, backupDelay: Option<int>)
    requires OnEventReaction(event, minute, backupDelay).Ok?
    ensures OnEventReaction(event, minute, backupDelay).value.needRestart <==> event == "system.cleep.needrestart"
    ensures OnEventReaction(event, minute, backupDelay).value.needReboot <==> EndsWith(event, "device.needreboot")
    ensures OnEventReaction(event, minute, backupDelay).value.backup ==> event == "parameters.time.now"
  {
    var restart := "system.cleep.needrestart";
    assert restart[|restart| - 17] == 'c' && "device.needreboot"[0] == 'd';
  }

  /** `set_cleep_backup_delay`'s validator: a delay of 5 to 120 minutes. */
  function CheckBackupDelay(delay: int): (r: Result<int>)
    ensures r.Ok? <==> 5 <= delay <= 120
    ensures r.Ok? ==> r.value == delay
    ensures r.Err? ==> r.error == InvalidParameter("Parameter \"delay\" is invalid (specified=\"" + IntToString(delay) + "\")")
  {
    if 5 <= delay <= 120 then Ok(delay)
    else Err(InvalidParameter("Parameter \"delay\" is invalid (specified=\"" + IntToString(delay) + "\")"))
  }

  /** A delay of 4 minutes is rejected with the value shown in the message. */
  lemma BackupDelayTooShort()
    ensures CheckBackupDelay(4) == Err(InvalidParameter("Parameter \"delay\" is invalid (specified=\"4\")"))
  {
    assert IntToString(4) == "4";
  }

  /** A driver as the drivers registry reports it. */
  datatype Driver = Driver(installed: bool, requiresReboot: bool)

  /** `install_driver`'s guards, in order: parameters, driver found, not installed unless forced. */
  function InstallGuard(driverType: string, driverName: string, force: bool, driver: Option<Driver>): (r: Result<()>)
    ensures r.Ok? <==> driverType != "" && driverName != "" && driver.Some? && (force || !driver.value.installed)
    ensures driverType == "" ==> r == Err(EmptyParameter("driver_type"))
    ensures driverType != "" && driverName == "" ==>
      r == Err(EmptyParameter("driver_name"))
    ensures driverType != "" && driverName != "" && driver.None? ==>
      r == Err(InvalidParameter("No driver found for specified parameters"))
    ensures driverType != "" && driverName != "" && driver.Some? && !force && driver.value.installed ==>
      r == Err(CommandInfo("Driver is already installed"))
  {
    var params := [("driver_type", driverType), ("driver_name", driverName)];
    assert params[0].1 == driverType && params[1].1 == driverName;
    match CheckStrings(params)
    case Err(e) => Err(e)
    case Ok(_) =>
      if driver.None? then Err(InvalidParameter("No driver found for specified parameters"))
      else if !force && driver.value.installed then Err(CommandInfo("Driver is already installed"))
      else Ok(())
  }

  /** `uninstall_driver`'s guards, in order: parameters, driver found, driver installed. */
  function UninstallGuard(driverType: string, driverName: string, driver: Option<Driver>): (r: Result<()>)
    ensures r.Ok? <==> driverType != "" && driverName != "" && driver.Some? && driver.value.installed
    ensures driverType == "" ==> r == Err(EmptyParameter("driver_type"))
    ensures driverType != "" && driverName == "" ==>
      r == Err(EmptyParameter("driver_name"))
    ensures driverType != "" && driverName != "" && driver.None? ==>
      r == Err(InvalidParameter("No driver found for specified parameters"))
    ensures driverType != "" && driverName != "" && driver.Some? && !driver.value.installed ==>
      r == Err(CommandInfo("Driver is not installed"))
  {
    var params := [("driver_type", driverType), ("driver_name", driverName)];
    assert params[0].1 == driverType && params[1].1 == driverName;
    match CheckStrings(params)
    case Err(e) => Err(e)
    case Ok(_) =>
      if driver.None? then Err(InvalidParameter("No driver found for specified parameters"))
      else if !driver.value.installed then Err(CommandInfo("Driver is not installed"))
      else Ok(())
  }

  /** After an install or uninstall ends, the device reboots only on success of a driver that asks for it. */
  predicate RebootAfterTermination(success: bool, driver: Option<Driver>)
  {
    success && driver.Some? && driver.value.requiresReboot
  }
}

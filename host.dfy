/** What the system application hands to its host: events, broker calls, tasks, devices, config writes. */
module Host {
  import opened Wrappers

  /** The parameters of the events the application sends. */
  datatype EventParams =
    | CpuParams(system: real, cleep: real)
    | MemoryParams(total: nat, available: nat, cleepMemory: nat)
    | AlertParams(percent: real, threshold: real)
    | DelayParams(delay: real)
    | DriverParams(driverType: string, driverName: string, inProgress: bool,
                   success: Option<bool>, message: Option<string>)

  datatype TaskKind = CpuTask | MemoryTask

  /** One outward interaction, recorded in the order the application makes it. */
  datatype Effect =
    | ConfigWrite(field: string, saved: bool)
    | Send(event: string, params: EventParams, deviceId: Option<string>)
    | BrokerSetEventRenderable(event: string, renderer: string, renderable: bool)
    | EventSetRenderable(event: string, renderer: string, renderable: bool)
    | TaskStart(kind: TaskKind, delay: real)
    | TaskStop(kind: TaskKind)
    | AddDevice(deviceType: string, name: string)
    | Backup
    | ConsoleCommand(command: string, delay: real)
    | DriverInstall(driverType: string, driverName: string)
    | DriverUninstall(driverType: string, driverName: string)
}

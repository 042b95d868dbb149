/** The Express variant's deviceService: creates devices without checking
    their type, lists them with `live_active` taken from the worker map, and
    hands activation and deactivation to the processManager. */
module ExpressDeviceService {
  import opened Wrappers
  import opened Records
  import opened Ordering
  import opened Tables
  import opened DeviceListing
  import W = ExpressDeviceWorker
  import E = ExpressLifecycle
  import EPM = ExpressProcessManager

  /** What createDevice is handed; `metadata` may be absent. */
  datatype DeviceData = DeviceData(name: string, deviceType: string, ipAddress: string, metadata: Option<string>)

  /** The row createDevice inserts: whatever type it is handed, inactive,
      `metadata ?? null`. */
  function NewDevice(data: DeviceData, now: int): (r: Device)
    ensures r.status == Inactive && r.deviceType == data.deviceType
    ensures r.name == data.name && r.ipAddress == data.ipAddress
    ensures r.metadata == data.metadata && r.createdAt == now
  {
    Device(data.name, data.deviceType, data.ipAddress, Inactive, data.metadata, now)
  }

  /** createDevice under the fresh key `id` (standing for `randomUUID()`):
      the new device is inactive and, having no worker, not active. */
  method CreateDevice(pm: EPM.ProcessManager, id: DeviceId, data: DeviceData, now: int) returns (device: Device)
    requires pm.Valid() && id !in pm.devices
    modifies pm
    ensures pm.Valid()
    ensures device == NewDevice(data, now)
    ensures pm.Server() == E.Server(Tables.AddDevice(old(pm.Snapshot()), id, device), old(pm.Registry()))
    ensures !pm.IsActive(id)
  {
    device := Device(data.name, data.deviceType, data.ipAddress, Inactive, data.metadata, now);
    pm.AddDevice(id, device);
  }

  /** listDevices: every device once, newest first, `live_active` exactly
      when the device has a worker in the map. */
  method ListDevices(pm: EPM.ProcessManager) returns (r: seq<Listing>)
    ensures |r| == |pm.devices|
    ensures forall i :: 0 <= i < |r| ==>
      r[i].id in pm.devices && r[i].device == pm.devices[r[i].id] && (r[i].liveActive <==> r[i].id in pm.Registry())
    ensures forall id :: id in pm.devices ==> exists i :: 0 <= i < |r| && r[i].id == id
    ensures SortedDesc(r, ListingCreatedAt)
  {
    var running := pm.workersByDevice.Keys;
    r := DeviceListing.ListDevices(pm.devices, id => id in running);
  }

  /** activateDevice: startProcess's answer, unchanged. */
  method ActivateDevice(pm: EPM.ProcessManager, d: DeviceId, now: int, u: real, spawnError: Option<string>)
    returns (r: Result<StartResult, Error>)
    requires pm.Valid() && W.IsDraw(u)
    modifies pm
    ensures pm.Valid()
    ensures pm.Server() == E.StartProcess(old(pm.Server()), d, now, u, spawnError).server
    ensures r == E.StartProcess(old(pm.Server()), d, now, u, spawnError).out
  {
    r := pm.StartProcess(d, now, u, spawnError);
  }

  /** deactivateDevice: stopProcess's answer, unchanged. */
  method DeactivateDevice(pm: EPM.ProcessManager, d: DeviceId, now: int) returns (r: StopResult)
    requires pm.Valid()
    modifies pm, if d in pm.workersByDevice then {pm.workersByDevice[d]} else {}
    ensures pm.Valid()
    ensures pm.Server() == E.StopProcess(old(pm.Server()), d, now).server
    ensures r == E.StopProcess(old(pm.Server()), d, now).out
  {
    r := pm.StopProcess(d, now);
  }
}

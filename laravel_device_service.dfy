/** The Laravel variant's DeviceService: creates devices after checking
    their type, lists them with `live_active` taken from the liveness rule,
    and hands activation and deactivation to the ProcessManager. */
module LaravelDeviceService {
  import opened Wrappers
  import opened Records
  import opened Liveness
  import opened Ordering
  import opened Tables
  import opened DeviceListing
  import L = LaravelLifecycle
  import LPM = LaravelProcessManager

  /** The device types createDevice accepts. */
  const AllowedTypes: seq<string> := [AccessController, FaceReader, Anpr]

  const InvalidDeviceType: string := "Invalid device_type"

  /** What createDevice is handed; `device_type` and `metadata` may be absent. */
  datatype DeviceData = DeviceData(name: string, deviceType: Option<string>, ipAddress: string, metadata: Option<string>)

  /** The row createDevice inserts, or the 400 it throws for a type outside
      the three allowed ones (a strict `in_array`, so a missing type fails). */
  function NewDevice(data: DeviceData, now: int): (r: Result<Device, Error>)
    ensures r.Failure? <==> data.deviceType.None? || data.deviceType.value !in AllowedTypes
    ensures r.Failure? ==> r.error == HttpError(400, InvalidDeviceType)
    ensures r.Success? ==> r.value.status == Inactive && r.value.deviceType == data.deviceType.value
    ensures r.Success? ==> r.value.name == data.name && r.value.ipAddress == data.ipAddress
    ensures r.Success? ==> r.value.metadata == data.metadata && r.value.createdAt == now
  {
    match data.deviceType
    case Some(t) =>
      if t in AllowedTypes then Success(Device(data.name, t, data.ipAddress, Inactive, data.metadata, now))
      else Failure(HttpError(400, InvalidDeviceType))
    case None => Failure(HttpError(400, InvalidDeviceType))
  }

  /** createDevice under the fresh key `id` (standing for `Str::uuid()`):
      nothing is written when the type is refused; otherwise the new device
      is inactive and, having no process row, not live. */
  method CreateDevice(pm: LPM.ProcessManager, id: DeviceId, data: DeviceData, now: int) returns (r: Result<Device, Error>)
    requires pm.Valid() && id !in pm.devices
    modifies pm
    ensures pm.Valid()
    ensures r == NewDevice(data, now)
    ensures r.Failure? ==> pm.Snapshot() == old(pm.Snapshot())
    ensures r.Success? ==> pm.Snapshot() == Tables.AddDevice(old(pm.Snapshot()), id, r.value)
    ensures r.Success? ==> !HasLive(pm.processes, id, now)
  {
    var deviceType := data.deviceType;
    if deviceType.None? || deviceType.value !in AllowedTypes {
      return Failure(HttpError(400, InvalidDeviceType));
    }
    var device := Device(data.name, deviceType.value, data.ipAddress, Inactive, data.metadata, now);
    pm.AddDevice(id, device);
    return Success(device);
  }

  /** listDevices: every device once, newest first, `live_active` exactly
      when the device has a live process row. */
  method ListDevices(pm: LPM.ProcessManager, now: int) returns (r: seq<Listing>)
    ensures |r| == |pm.devices|
    ensures forall i :: 0 <= i < |r| ==>
      r[i].id in pm.devices && r[i].device == pm.devices[r[i].id] && (r[i].liveActive <==> HasLive(pm.processes, r[i].id, now))
    ensures forall id :: id in pm.devices ==> exists i :: 0 <= i < |r| && r[i].id == id
    ensures SortedDesc(r, ListingCreatedAt)
  {
    var liveIds := LiveActiveDeviceIds(pm.processes, now);
    r := DeviceListing.ListDevices(pm.devices, id => id in liveIds);
  }

  /** activateDevice: startProcess's answer, unchanged. */
  method ActivateDevice(pm: LPM.ProcessManager, d: DeviceId, now: int, launch: L.Launch) returns (r: Result<StartResult, Error>)
    requires pm.Valid()
    modifies pm
    ensures pm.Valid()
    ensures pm.Snapshot() == L.StartProcess(old(pm.Snapshot()), d, now, launch).db
    ensures r == L.StartProcess(old(pm.Snapshot()), d, now, launch).out
  {
    r := pm.StartProcess(d, now, launch);
  }

  /** deactivateDevice: stopProcess's answer, unchanged. */
  method DeactivateDevice(pm: LPM.ProcessManager, d: DeviceId, now: int) returns (r: StopResult)
    requires pm.Valid()
    modifies pm
    ensures pm.Valid()
    ensures pm.Snapshot() == L.StopProcess(old(pm.Snapshot()), d, now).db
    ensures r == L.StopProcess(old(pm.Snapshot()), d, now).out
  {
    r := pm.StopProcess(d, now);
  }
}

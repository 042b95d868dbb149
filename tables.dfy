/** The devices, device_processes and device_status_history tables both
    servers share, taken as one snapshot, and the write both servers'
    markDeviceInactive perform on them. */
module Tables {
  import opened Wrappers
  import opened Records
  import opened ProcessRows
  import opened StatusHistory

  /** The three tables, and the next fresh process key (standing for UUIDs). */
  datatype Db = Db(
    devices: map<DeviceId, Device>,
    processes: seq<ProcessRow>,
    history: seq<HistoryRow>,
    nextProcessId: nat)

  /** A new snapshot and the operation's answer. */
  datatype Step<T> = Step(db: Db, out: T)

  /** Keys are fresh and increasing, every process row belongs to a device,
      and the history log accounts for every device's status. */
  ghost predicate Valid(db: Db) {
    && WellKeyed(db.processes, db.nextProcessId, db.devices.Keys)
    && Explains(db.devices, db.history)
  }

  /** markDeviceInactive: optionally stops every open row of the device,
      then, if the device exists and is not inactive yet, logs the flip with
      `reason` and sets it inactive. Answers the device, or None. */
  function MarkDeviceInactive(db: Db, d: DeviceId, reason: string, updateProcesses: bool, now: int): (r: Step<Option<Device>>)
    ensures r.db.processes == if updateProcesses then StopOpenRowsOf(db.processes, d, now) else db.processes
    ensures r.db.devices == SetStatus(db.devices, d, Inactive)
    ensures r.db.history == db.history + FlipRows(db.devices, d, Inactive, reason, now)
    ensures r.db.nextProcessId == db.nextProcessId
    ensures r.out.Some? <==> d in db.devices
    ensures r.out.Some? ==> r.out.value == r.db.devices[d] && r.out.value.status == Inactive
  {
    var rows := if updateProcesses then StopOpenRowsOf(db.processes, d, now) else db.processes;
    if d !in db.devices then Step(db.(processes := rows), None)
    else
      var device := db.devices[d];
      if device.status != Inactive then
        var device' := device.(status := Inactive);
        Step(Db(db.devices[d := device'], rows, db.history + [HistoryRow(d, device.status, Inactive, reason, now)], db.nextProcessId), Some(device'))
      else
        Step(db.(processes := rows), Some(device))
  }

  lemma MarkDeviceInactiveKeepsValid(db: Db, d: DeviceId, reason: string, updateProcesses: bool, now: int)
    requires Valid(db)
    ensures Valid(MarkDeviceInactive(db, d, reason, updateProcesses, now).db)
  {
    var r := MarkDeviceInactive(db, d, reason, updateProcesses, now).db;
    SetStatusKeepsExplains(db.devices, db.history, d, Inactive, reason, now);
    if updateProcesses {
      WellKeyedSameKeys(db.processes, r.processes, db.nextProcessId, db.devices.Keys);
    }
  }

  /** markDeviceInactive is idempotent: repeating it, with any reason and
      later, finds no open row to stop and no status to flip. */
  lemma MarkDeviceInactiveIdempotent(db: Db, d: DeviceId, reason: string, reason': string, now: int, later: int)
    ensures var first := MarkDeviceInactive(db, d, reason, true, now);
      MarkDeviceInactive(first.db, d, reason', true, later) == first
  {
    var first := MarkDeviceInactive(db, d, reason, true, now);
    StopOpenRowsOfIdempotent(db.processes, d, now, later);
    SetStatusIdempotent(db.devices, d, Inactive, reason', later);
    assert first.db.history + [] == first.db.history;
  }

  /** The writes of startProcess's transaction once it has found the device
      not running: a new open row with pid `pid`, started and heartbeating
      `now`, and the device set active, logged with `user_clicked_activate`
      only when it was not active. */
  function OpenProcess(db: Db, d: DeviceId, pid: string, now: int): (r: Db)
    requires d in db.devices
    ensures r.processes == db.processes + [ProcessRow(db.nextProcessId, d, pid, now, now, None)]
    ensures r.devices == SetStatus(db.devices, d, Active)
    ensures r.history == db.history + FlipRows(db.devices, d, Active, UserClickedActivate, now)
    ensures r.nextProcessId == db.nextProcessId + 1
  {
    var device := db.devices[d];
    var rows := db.processes + [ProcessRow(db.nextProcessId, d, pid, now, now, None)];
    if device.status != Active then
      Db(db.devices[d := device.(status := Active)], rows,
         db.history + [HistoryRow(d, device.status, Active, UserClickedActivate, now)], db.nextProcessId + 1)
    else
      Db(db.devices, rows, db.history, db.nextProcessId + 1)
  }

  lemma OpenProcessKeepsValid(db: Db, d: DeviceId, pid: string, now: int)
    requires Valid(db) && d in db.devices
    ensures Valid(OpenProcess(db, d, pid, now))
  {
    SetStatusKeepsExplains(db.devices, db.history, d, Active, UserClickedActivate, now);
    WellKeyedAppend(db.processes, ProcessRow(db.nextProcessId, d, pid, now, now, None), db.nextProcessId, db.devices.Keys);
  }

  /** `Device::create` / `Device.create` of a new device. */
  function AddDevice(db: Db, id: DeviceId, device: Device): Db {
    db.(devices := db.devices[id := device])
  }

  /** A new device starts inactive with nothing logged, which its empty
      history replays to. */
  lemma AddDeviceKeepsValid(db: Db, id: DeviceId, device: Device)
    requires Valid(db) && id !in db.devices && device.status == Inactive
    ensures Valid(AddDevice(db, id, device))
  {
    AddInactiveDevice(db.devices, db.history, id, device);
  }
}

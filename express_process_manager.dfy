/** The Express variant's device lifecycle state machine (processManager.js):
    the three tables, the transactions table and the in-memory map from
    device to worker thread. Each `sequelize.transaction` block is one
    atomic step, `new Date()` is the `now` parameter, the `Math.random()`
    draw of the placeholder pid is `u`, and whether constructing the worker
    throws is `spawnError`. Every method performs its writes in place and is
    proved to leave the tables and the map as the matching ExpressLifecycle
    function says, so the lemmas about those functions hold of the class. */
module ExpressProcessManager {
  import opened Wrappers
  import opened Records
  import opened ProcessRows
  import opened StatusHistory
  import opened Tables
  import opened Transactions
  import W = ExpressDeviceWorker
  import E = ExpressLifecycle

  /** What a worker posts to the parent. */
  datatype Message =
    | TransactionMessage(data: W.TxData)
    | ErrorMessage(error: string)
    | OtherMessage

  class ProcessManager {
    var devices: map<DeviceId, Device>
    var processes: seq<ProcessRow>
    var history: seq<HistoryRow>
    /** Stands for `randomUUID()`: every key handed out is new. */
    var nextProcessId: nat
    /** `workersByDevice`. */
    var workersByDevice: map<DeviceId, W.Worker>
    /** The transactions table the message handler writes to. */
    const txs: TransactionTable
    /** Every worker this manager has constructed. */
    ghost var spawned: set<W.Worker>

    /** The tables as one snapshot. */
    function Snapshot(): Db
      reads this
    {
      Db(devices, processes, history, nextProcessId)
    }

    /** The map, each worker standing for the process row its handlers
        close over. */
    function Registry(): map<DeviceId, ProcessId>
      reads this
    {
      map d | d in workersByDevice :: workersByDevice[d].processId
    }

    function Server(): E.Server
      reads this
    {
      E.Server(Snapshot(), Registry())
    }

    /** Every constructed worker's row was created with it, for its device. */
    ghost predicate SpawnedValid()
      reads this
    {
      forall w :: w in spawned ==> w.processId < nextProcessId && RowOf(processes, w.processId, w.deviceId)
    }

    /** The tables are well formed, whatever the map holds. */
    ghost predicate TablesValid()
      reads this, txs
    {
      Tables.Valid(Snapshot()) && txs.Valid() && SpawnedValid()
    }

    ghost predicate Valid()
      reads this, txs
    {
      TablesValid() && E.Registered(Server())
    }

    constructor ()
      ensures Valid() && fresh(txs)
      ensures devices == map[] && processes == [] && history == [] && nextProcessId == 0
      ensures workersByDevice == map[] && txs.rows == []
    {
      devices := map[];
      processes := [];
      history := [];
      nextProcessId := 0;
      workersByDevice := map[];
      txs := new TransactionTable();
      spawned := {};
    }

    /** `Device.create` of a new inactive device (deviceService.createDevice). */
    method AddDevice(id: DeviceId, device: Device)
      requires Valid()
      requires id !in devices && device.status == Inactive
      modifies this
      ensures Valid()
      ensures Server() == E.Server(Tables.AddDevice(old(Snapshot()), id, device), old(Registry()))
    {
      E.AddDeviceKeepsValid(Server(), id, device);
      devices := devices[id := device];
    }

    /** isActive: the device has a worker in the map. */
    function IsActive(d: DeviceId): (r: bool)
      reads this
      ensures r <==> d in Registry()
    {
      d in workersByDevice
    }

    /** markDeviceInactive: stops every open row of the device, then flips
        and logs it if it exists and is not inactive yet. */
    method MarkDeviceInactive(d: DeviceId, reason: string, now: int) returns (r: Option<Device>)
      requires TablesValid()
      modifies this
      ensures TablesValid()
      ensures Snapshot() == Tables.MarkDeviceInactive(old(Snapshot()), d, reason, true, now).db
      ensures r == Tables.MarkDeviceInactive(old(Snapshot()), d, reason, true, now).out
      ensures workersByDevice == old(workersByDevice) && spawned == old(spawned)
    {
      StopRowsOf(d, now);
      r := SetInactive(d, reason, now);
    }

    /** The bulk update `stopped_at = now WHERE device_id = d AND stopped_at IS NULL`. */
    method StopRowsOf(d: DeviceId, now: int)
      requires TablesValid()
      modifies this
      ensures TablesValid()
      ensures Snapshot() == old(Snapshot()).(processes := StopOpenRowsOf(old(processes), d, now))
      ensures workersByDevice == old(workersByDevice) && spawned == old(spawned)
    {
      WellKeyedSameKeys(processes, StopOpenRowsOf(processes, d, now), nextProcessId, devices.Keys);
      KeepRowsOfSpawned(processes, StopOpenRowsOf(processes, d, now));
      processes := StopOpenRowsOf(processes, d, now);
    }

    /** Looks the device up and, if it exists and is not inactive yet, logs
        the flip with `reason` and saves it inactive; answers the device. */
    method SetInactive(d: DeviceId, reason: string, now: int) returns (r: Option<Device>)
      requires TablesValid()
      modifies this
      ensures TablesValid()
      ensures Snapshot() == Tables.MarkDeviceInactive(old(Snapshot()), d, reason, false, now).db
      ensures r == Tables.MarkDeviceInactive(old(Snapshot()), d, reason, false, now).out
      ensures workersByDevice == old(workersByDevice) && spawned == old(spawned)
    {
      ghost var after := Tables.MarkDeviceInactive(Snapshot(), d, reason, false, now);
      Tables.MarkDeviceInactiveKeepsValid(Snapshot(), d, reason, false, now);
      if d !in devices {
        return None;
      }
      var device := devices[d];
      if device.status != Inactive {
        history := history + [HistoryRow(d, device.status, Inactive, reason, now)];
        devices := devices[d := device.(status := Inactive)];
      }
      assert Snapshot() == after.db;
      return Some(devices[d]);
    }

    /** Rewriting mutable columns of the rows keeps every constructed
        worker's row on its device. */
    lemma KeepRowsOfSpawned(rows: seq<ProcessRow>, rows': seq<ProcessRow>)
      requires rows == processes && SpawnedValid() && SameKeys(rows, rows')
      ensures forall w :: w in spawned ==> RowOf(rows', w.processId, w.deviceId)
    {
      forall w | w in spawned ensures RowOf(rows', w.processId, w.deviceId) {
        RowOfSameKeys(rows, rows', w.processId, w.deviceId);
      }
    }

    /** startProcess. An unknown device throws `Device not found`; a device
        with a worker answers `alreadyRunning`. Otherwise, in one database
        transaction, the row is created, the device set active (logged only
        when it was not) and the worker constructed and registered; a worker
        that cannot be constructed throws and the transaction rolls back. */
    method StartProcess(d: DeviceId, now: int, u: real, spawnError: Option<string>) returns (r: Result<StartResult, Error>)
      requires Valid() && W.IsDraw(u)
      modifies this
      ensures Valid()
      ensures Server() == E.StartProcess(old(Server()), d, now, u, spawnError).server
      ensures r == E.StartProcess(old(Server()), d, now, u, spawnError).out
      ensures r.Success? && !r.value.alreadyRunning ==>
        && d in workersByDevice && fresh(workersByDevice[d])
        && workersByDevice[d].running && workersByDevice[d].posted == []
    {
      if d !in devices {
        return Failure(PlainError(DeviceNotFound));
      }
      if IsActive(d) {
        return Success(StartResult(devices[d], None, true));
      }
      r := Spawn(d, now, u, spawnError);
    }

    /** The transaction of startProcess for a known device without a worker:
        the writes, then the worker's construction. A construction that
        throws rolls the writes back, so that outcome is decided first and
        writes nothing. */
    method Spawn(d: DeviceId, now: int, u: real, spawnError: Option<string>) returns (r: Result<StartResult, Error>)
      requires Valid() && W.IsDraw(u) && d in devices && d !in workersByDevice
      modifies this
      ensures Valid()
      ensures Server() == E.StartProcess(old(Server()), d, now, u, spawnError).server
      ensures r == E.StartProcess(old(Server()), d, now, u, spawnError).out
      ensures r.Success? ==>
        && d in workersByDevice && fresh(workersByDevice[d])
        && workersByDevice[d].running && workersByDevice[d].posted == []
    {
      if spawnError.Some? {
        return Failure(PlainError(spawnError.value));
      }
      ghost var before := Server();
      var id, device := OpenProcess(d, E.PlaceholderPid(u), now);
      var worker := new W.Worker(d, device.deviceType, id);
      RegisterWorker(d, worker);
      assert Server() == E.StartProcess(before, d, now, u, None).server;
      E.StartProcessKeepsValid(before, d, now, u, None);
      return Success(StartResult(device, Some(processes[|processes| - 1]), false));
    }

    /** `workersByDevice.set(deviceId, worker)` for a worker just
        constructed on its own row. */
    method RegisterWorker(d: DeviceId, worker: W.Worker)
      requires TablesValid() && worker.deviceId == d
      requires worker.processId < nextProcessId && RowOf(processes, worker.processId, d)
      modifies this
      ensures TablesValid()
      ensures Snapshot() == old(Snapshot())
      ensures workersByDevice == old(workersByDevice)[d := worker]
      ensures Registry() == old(Registry())[d := worker.processId]
      ensures spawned == old(spawned) + {worker}
    {
      workersByDevice := workersByDevice[d := worker];
      spawned := spawned + {worker};
    }

    /** The writes of startProcess's transaction: the row with the worker's
        pid, and the device set active, logged only when it was not. The new
        row's key is one no constructed worker holds. */
    method OpenProcess(d: DeviceId, pid: string, now: int) returns (id: ProcessId, snapshot: Device)
      requires TablesValid() && d in devices
      modifies this
      ensures TablesValid()
      ensures Snapshot() == Tables.OpenProcess(old(Snapshot()), d, pid, now)
      ensures id == old(nextProcessId) && snapshot == devices[d]
      ensures id < nextProcessId && RowOf(processes, id, d)
      ensures workersByDevice == old(workersByDevice) && spawned == old(spawned)
    {
      ghost var after := Tables.OpenProcess(Snapshot(), d, pid, now);
      OpenProcessKeepsValid(Snapshot(), d, pid, now);
      ghost var rows := processes;
      var device := devices[d];
      if device.status != Active {
        history := history + [HistoryRow(d, device.status, Active, UserClickedActivate, now)];
        devices := devices[d := device.(status := Active)];
      }
      id := nextProcessId;
      processes := processes + [ProcessRow(id, d, pid, now, now, None)];
      nextProcessId := nextProcessId + 1;
      snapshot := devices[d];
      assert devices == after.devices && processes == after.processes;
      assert history == after.history && nextProcessId == after.nextProcessId;
      forall w | w in spawned ensures RowOf(processes, w.processId, w.deviceId) {
        assert forall i :: 0 <= i < |rows| ==> processes[i] == rows[i];
      }
    }
  
    /** The heartbeat bump after a persisted transaction:
        `last_heartbeat_at = now` on every open row of the device. */
    method BumpHeartbeats(d: DeviceId, now: int)
      requires Valid()
      modifies this
      ensures Valid()
      ensures Server() == E.Heartbeat(old(Server()), d, now)
      ensures workersByDevice == old(workersByDevice) && spawned == old(spawned)
    {
      E.HeartbeatKeepsValid(Server(), d, now);
      KeepRowsOfSpawned(processes, BumpOpenHeartbeatsOf(processes, d, now));
      processes := BumpOpenHeartbeatsOf(processes, d, now);
    }

    /** The `message` handler of worker `w`. A transaction is stored with
        the worker's username, event type, payload and timestamp, then every
        open row of the worker's device gets a heartbeat; a failure of either
        write is caught and logged, so a failed store bumps nothing and a
        failed bump keeps the stored transaction. An `error` message and
        anything else are only logged. */
    method OnWorkerMessage(w: W.Worker, msg: Message, now: int, persist: Persist)
      requires Valid()
      modifies this, txs
      ensures Valid()
      ensures workersByDevice == old(workersByDevice)
      ensures Server() == if msg.TransactionMessage? && persist == Persisted
        then E.Heartbeat(old(Server()), w.deviceId, now) else old(Server())
      ensures if msg.TransactionMessage? && persist != CreateFailed then
          && |txs.rows| == |old(txs.rows)| + 1 && txs.rows[..|old(txs.rows)|] == old(txs.rows)
          && var row := txs.rows[|old(txs.rows)|];
          && row.deviceId == msg.data.deviceId && row.username == Some(msg.data.username)
          && row.eventType == msg.data.eventType && row.payload == Some(msg.data.payload)
          && row.timestamp == msg.data.timestamp && row.createdAt == now
        else txs.rows == old(txs.rows)
    {
      match msg
      case TransactionMessage(data) =>
        if persist == CreateFailed {
          return;
        }
        var t := NewTransaction(data.deviceId, Some(data.username), data.eventType, Some(data.timestamp), Some(data.payload));
        var _ := txs.CreateTransaction(t, now);
        if persist == Persisted {
          BumpHeartbeats(w.deviceId, now);
        }
      case ErrorMessage(_) =>
      case OtherMessage =>
    }

    /** stopProcess: without a worker, marks the device inactive with
        `user_clicked_deactivate_no_worker` and answers `not_running`; with
        one, posts it `stop` (delivered at once), marks the device inactive
        with `user_clicked_deactivate`, drops the worker from the map and
        answers `stopped`. */
    method StopProcess(d: DeviceId, now: int) returns (r: StopResult)
      requires Valid()
      modifies this, if d in workersByDevice then {workersByDevice[d]} else {}
      ensures Valid()
      ensures Server() == E.StopProcess(old(Server()), d, now).server
      ensures r == E.StopProcess(old(Server()), d, now).out
      ensures d in old(workersByDevice) ==> !old(workersByDevice)[d].running
    {
      ghost var before := Server();
      E.StopProcessKeepsValid(before, d, now);
      if d !in workersByDevice {
        var _ := MarkDeviceInactive(d, UserClickedDeactivateNoWorker, now);
        return StopResult(false, Some(NotRunning));
      }
      var worker := workersByDevice[d];
      worker.OnMessage(W.Stop);
      var _ := MarkDeviceInactive(d, UserClickedDeactivate, now);
      Unregister(d);
      return StopResult(true, None);
    }

    /** The `exit` handler of worker `w` as written: drops the map entry of
        the worker's device, whichever worker it holds, stops every open row
        of the device and, finding none open, marks the device inactive with
        `worker_exit`. */
    method OnWorkerExitAsWritten(w: W.Worker, now: int)
      requires Valid()
      modifies this
      ensures Valid()
      ensures Server() == E.ExitAsWritten(old(Server()), w.deviceId, now)
    {
      ghost var before := Server();
      E.ExitAsWrittenKeepsValid(before, w.deviceId, now);
      var d := w.deviceId;
      Unregister(d);
      StopRowsOf(d, now);
      if !HasOpenRow(processes, d) {
        var _ := SetInactive(d, WorkerExit, now);
      }
    }

    /** The `exit` handler of worker `w` as its comment describes it: stops
        only `w`'s row, drops the map entry only while it still holds `w`
        (the row key identifies the worker) and marks the device inactive
        with `worker_exit` only when none of its rows is open. */
    method OnWorkerExit(w: W.Worker, now: int)
      requires Valid() && w in spawned
      modifies this
      ensures Valid()
      ensures Server() == E.Exit(old(Server()), w.deviceId, w.processId, now)
    {
      ghost var before := Server();
      var d := w.deviceId;
      assert RowOf(processes, w.processId, d);
      E.ExitKeepsValid(before, d, w.processId, now);
      var current := d in workersByDevice && workersByDevice[d].processId == w.processId;
      assert current == (d in before.workers && before.workers[d] == w.processId);
      if current {
        Unregister(d);
      }
      StopRow(w.processId, now);
      if !HasOpenRow(processes, d) {
        var _ := SetInactive(d, WorkerExit, now);
      }
    }

    /** `workersByDevice.delete(deviceId)`. */
    method Unregister(d: DeviceId)
      requires TablesValid()
      modifies this
      ensures TablesValid()
      ensures Snapshot() == old(Snapshot())
      ensures workersByDevice == old(workersByDevice) - {d}
      ensures Registry() == old(Registry()) - {d}
      ensures spawned == old(spawned)
    {
      workersByDevice := workersByDevice - {d};
    }

    /** `stopped_at = now` on row `id` if it is open. */
    method StopRow(id: ProcessId, now: int)
      requires TablesValid()
      modifies this
      ensures TablesValid()
      ensures Snapshot() == old(Snapshot()).(processes := StopOpenRowById(old(processes), id, now))
      ensures workersByDevice == old(workersByDevice) && spawned == old(spawned)
    {
      WellKeyedSameKeys(processes, StopOpenRowById(processes, id, now), nextProcessId, devices.Keys);
      KeepRowsOfSpawned(processes, StopOpenRowById(processes, id, now));
      processes := StopOpenRowById(processes, id, now);
    }
  }
}

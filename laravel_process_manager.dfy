/** The Laravel variant's device lifecycle state machine (ProcessManager).
    Its state is the three tables it works on; each `DB::transaction` block
    is one atomic step, `now()` is the `now` parameter and the outcome of
    starting the worker command is the `launch` parameter. Every method
    performs its writes in place and is proved to leave the tables as the
    matching LaravelLifecycle function says, so the lemmas about those
    functions hold of the class. */
module LaravelProcessManager {
  import opened Wrappers
  import opened Records
  import opened ProcessRows
  import opened Liveness
  import opened StatusHistory
  import opened Tables
  import L = LaravelLifecycle

  /** The devices, device_processes and device_status_history tables. */
  class ProcessManager {
    var devices: map<DeviceId, Device>
    var processes: seq<ProcessRow>
    var history: seq<HistoryRow>
    /** Stands for the UUID generator: every key handed out is new. */
    var nextProcessId: nat

    /** The tables as one snapshot. */
    function Snapshot(): Db
      reads this
    {
      Db(devices, processes, history, nextProcessId)
    }

    ghost predicate Valid()
      reads this
    {
      Tables.Valid(Snapshot())
    }

    constructor ()
      ensures Valid()
      ensures devices == map[] && processes == [] && history == [] && nextProcessId == 0
    {
      devices := map[];
      processes := [];
      history := [];
      nextProcessId := 0;
    }

    /** `Device::create` of a new inactive device (DeviceService::createDevice). */
    method AddDevice(id: DeviceId, device: Device)
      requires Valid()
      requires id !in devices && device.status == Inactive
      modifies this
      ensures Valid()
      ensures Snapshot() == Tables.AddDevice(old(Snapshot()), id, device)
    {
      AddDeviceKeepsValid(Snapshot(), id, device);
      devices := devices[id := device];
    }

    /** markDeviceInactive. */
    method MarkDeviceInactive(d: DeviceId, reason: string, updateProcesses: bool, now: int) returns (r: Option<Device>)
      requires Valid()
      modifies this
      ensures Valid()
      ensures Snapshot() == Tables.MarkDeviceInactive(old(Snapshot()), d, reason, updateProcesses, now).db
      ensures r == Tables.MarkDeviceInactive(old(Snapshot()), d, reason, updateProcesses, now).out
    {
      ghost var after := Tables.MarkDeviceInactive(Snapshot(), d, reason, updateProcesses, now);
      Tables.MarkDeviceInactiveKeepsValid(Snapshot(), d, reason, updateProcesses, now);
      if updateProcesses {
        processes := StopOpenRowsOf(processes, d, now);
      }
      if d !in devices {
        assert Snapshot() == after.db;
        return None;
      }
      var device := devices[d];
      if device.status != Inactive {
        history := history + [HistoryRow(d, device.status, Inactive, reason, now)];
        devices := devices[d := device.(status := Inactive)];
      }
      assert Snapshot() == after.db;
      return Some(devices[d]);
    }

    /** The writes of startProcess's transaction: a row with placeholder pid
        `pending`, and the device set active, logged only when it was not. */
    method OpenProcess(d: DeviceId, now: int) returns (id: ProcessId, snapshot: Device)
      requires Valid()
      requires d in devices
      modifies this
      ensures Valid()
      ensures Snapshot() == Tables.OpenProcess(old(Snapshot()), d, "pending", now)
      ensures id == old(nextProcessId) && snapshot == devices[d]
    {
      ghost var after := Tables.OpenProcess(Snapshot(), d, "pending", now);
      OpenProcessKeepsValid(Snapshot(), d, "pending", now);
      var device := devices[d];
      if device.status != Active {
        history := history + [HistoryRow(d, device.status, Active, UserClickedActivate, now)];
        devices := devices[d := device.(status := Active)];
      }
      id := nextProcessId;
      processes := processes + [ProcessRow(id, d, "pending", now, now, None)];
      nextProcessId := nextProcessId + 1;
      snapshot := devices[d];
      assert devices == after.devices && processes == after.processes;
      assert history == after.history && nextProcessId == after.nextProcessId;
    }

    /** launchWorker. */
    method LaunchWorker(d: DeviceId, id: ProcessId, launch: L.Launch, now: int)
      requires Valid()
      modifies this
      ensures Valid()
      ensures Snapshot() == L.LaunchWorker(old(Snapshot()), d, id, launch, now)
    {
      L.LaunchWorkerKeepsValid(Snapshot(), d, id, launch, now);
      match launch
      case Launched(osPid, suffix) =>
        processes := SetPidById(processes, id, L.WorkerPid(osPid, suffix));
      case LaunchFailed(_) =>
        var _ := MarkDeviceInactive(d, WorkerLaunchFailed, true, now);
    }

    /** startProcess: look the device up, answer a live row if there is one,
        otherwise open a row in a transaction, launch the worker after the
        commit and re-read the row. */
    method StartProcess(d: DeviceId, now: int, launch: L.Launch) returns (r: Result<StartResult, Error>)
      requires Valid()
      modifies this
      ensures Valid()
      ensures Snapshot() == L.StartProcess(old(Snapshot()), d, now, launch).db
      ensures r == L.StartProcess(old(Snapshot()), d, now, launch).out
    {
      if d !in devices {
        return Failure(HttpError(404, DeviceNotFound));
      }
      var active := FirstLive(processes, d, now);
      if active.Some? {
        return Success(StartResult(devices[d], active, true));
      }
      var id, snapshot := OpenProcess(d, now);
      LaunchWorker(d, id, launch, now);
      var k := FindProcess(processes, id);
      var process := if k.Some? then Some(processes[k.value]) else None;
      return Success(StartResult(snapshot, process, false));
    }

    /** stopProcess. */
    method StopProcess(d: DeviceId, now: int) returns (r: StopResult)
      requires Valid()
      modifies this
      ensures Valid()
      ensures Snapshot() == L.StopProcess(old(Snapshot()), d, now).db
      ensures r == L.StopProcess(old(Snapshot()), d, now).out
    {
      var active := FirstLive(processes, d, now);
      if active.None? {
        var _ := MarkDeviceInactive(d, UserClickedDeactivateNoWorker, true, now);
        return StopResult(false, Some(NotRunning));
      }
      var _ := MarkDeviceInactive(d, UserClickedDeactivate, true, now);
      return StopResult(true, None);
    }

    /** handleWorkerExit. */
    method HandleWorkerExit(d: DeviceId, processId: Option<ProcessId>, now: int)
      requires Valid()
      modifies this
      ensures Valid()
      ensures Snapshot() == L.HandleWorkerExit(old(Snapshot()), d, processId, now)
    {
      L.HandleWorkerExitKeepsValid(Snapshot(), d, processId, now);
      if processId.Some? {
        processes := StopOpenRowById(processes, processId.value, now);
      }
      var open := FirstLive(processes, d, now);
      if open.None? {
        var _ := MarkDeviceInactive(d, WorkerExit, false, now);
      }
    }

    /** The worker's `last_heartbeat_at = now(); save()` on its own row. */
    method Heartbeat(processId: ProcessId, now: int)
      requires Valid()
      modifies this
      ensures Valid()
      ensures Snapshot() == L.Heartbeat(old(Snapshot()), processId, now)
    {
      L.HeartbeatKeepsValid(Snapshot(), processId, now);
      processes := SetHeartbeatById(processes, processId, now);
    }
  }
}

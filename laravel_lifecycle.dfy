/** The Laravel variant's device lifecycle (ProcessManager.php) as functions
    from one database snapshot to the next. Each function is what one
    `DB::transaction` block, or one public operation, does to the devices,
    device_processes and device_status_history tables; the ProcessManager
    class performs the same writes in place and is proved equal to these. */
module LaravelLifecycle {
  import opened Wrappers
  import opened Records
  import opened ProcessRows
  import opened Liveness
  import opened StatusHistory
  import opened EventCatalog
  import opened Tables

  /** What `$process->start()` did: started, reporting the OS pid (None when
      `getPid()` is null) and the eight random characters a fallback name
      would use, or threw. */
  datatype Launch = Launched(osPid: Option<nat>, randomSuffix: string) | LaunchFailed(message: string)

  /** `$process->getPid() ?: 'worker-'.Str::random(8)`: the pid when it is a
      non-zero number, a made-up name otherwise; never the placeholder. */
  function WorkerPid(osPid: Option<nat>, randomSuffix: string): (r: string)
    ensures r != "pending"
    ensures osPid.Some? && osPid.value != 0 ==>
      (forall i :: 0 <= i < |r| ==> IsDigit(r[i])) && DecimalValue(r) == osPid.value
    ensures !(osPid.Some? && osPid.value != 0) ==> |r| >= 7 && r[..7] == "worker-" && r[7..] == randomSuffix
  {
    if osPid.Some? && osPid.value != 0 then
      DecimalRoundTrip(osPid.value);
      var r := DecimalString(osPid.value);
      assert IsDigit(r[0]) && !IsDigit("pending"[0]);
      r
    else
      assert ("worker-" + randomSuffix)[0] == 'w';
      "worker-" + randomSuffix
  }

  /** launchWorker: records the pid on success; on failure marks the device
      inactive with `worker_launch_failed`, which stops its open rows. */
  function LaunchWorker(db: Db, d: DeviceId, id: ProcessId, launch: Launch, now: int): Db {
    match launch
    case Launched(osPid, suffix) => db.(processes := SetPidById(db.processes, id, WorkerPid(osPid, suffix)))
    case LaunchFailed(_) => MarkDeviceInactive(db, d, WorkerLaunchFailed, true, now).db
  }

  /** startProcess. An unknown device is a 404 and a device with a live row
      is answered with that row and `alreadyRunning`; neither writes. Otherwise
      the transaction opens a row, the worker is launched after the commit,
      and the answer carries the device as committed and the row as re-read
      after the launch. */
  function StartProcess(db: Db, d: DeviceId, now: int, launch: Launch): (r: Step<Result<StartResult, Error>>)
    ensures d !in db.devices ==> r == Step(db, Failure(HttpError(404, DeviceNotFound)))
    ensures r.out.Success? <==> d in db.devices
    ensures r.out.Success? && r.out.value.alreadyRunning <==> d in db.devices && HasLive(db.processes, d, now)
  {
    if d !in db.devices then Step(db, Failure(HttpError(404, DeviceNotFound)))
    else
      var active := FirstLive(db.processes, d, now);
      if active.Some? then Step(db, Success(StartResult(db.devices[d], active, true)))
      else
        var withRow := OpenProcess(db, d, "pending", now);
        var launched := LaunchWorker(withRow, d, db.nextProcessId, launch, now);
        var k := FindProcess(launched.processes, db.nextProcessId);
        Step(launched, Success(StartResult(withRow.devices[d], if k.Some? then Some(launched.processes[k.value]) else None, false)))
  }

  /** stopProcess: marks the device inactive, with
      `user_clicked_deactivate_no_worker` and answer `not_running` when it has
      no live row, with `user_clicked_deactivate` and answer `stopped`
      otherwise. */
  function StopProcess(db: Db, d: DeviceId, now: int): (r: Step<StopResult>)
    ensures r.out == if HasLive(db.processes, d, now) then StopResult(true, None) else StopResult(false, Some(NotRunning))
  {
    if FirstLive(db.processes, d, now).None? then
      Step(MarkDeviceInactive(db, d, UserClickedDeactivateNoWorker, true, now).db, StopResult(false, Some(NotRunning)))
    else
      Step(MarkDeviceInactive(db, d, UserClickedDeactivate, true, now).db, StopResult(true, None))
  }

  /** handleWorkerExit: stops the worker's own row if still open, then marks
      the device inactive with `worker_exit`, leaving other rows alone, when
      no live row of the device remains. */
  function HandleWorkerExit(db: Db, d: DeviceId, processId: Option<ProcessId>, now: int): Db {
    var rows := if processId.Some? then StopOpenRowById(db.processes, processId.value, now) else db.processes;
    if FirstLive(rows, d, now).None? then MarkDeviceInactive(db.(processes := rows), d, WorkerExit, false, now).db
    else db.(processes := rows)
  }

  /** The worker's `last_heartbeat_at = now(); save()` on its own row. */
  function Heartbeat(db: Db, processId: ProcessId, now: int): Db {
    db.(processes := SetHeartbeatById(db.processes, processId, now))
  }

  // ---------------------------------------------------------------------
  // Every operation keeps the tables valid.

  lemma LaunchWorkerKeepsValid(db: Db, d: DeviceId, id: ProcessId, launch: Launch, now: int)
    requires Valid(db)
    ensures Valid(LaunchWorker(db, d, id, launch, now))
  {
    match launch
    case Launched(osPid, suffix) =>
      WellKeyedSameKeys(db.processes, SetPidById(db.processes, id, WorkerPid(osPid, suffix)), db.nextProcessId, db.devices.Keys);
    case LaunchFailed(_) =>
      MarkDeviceInactiveKeepsValid(db, d, WorkerLaunchFailed, true, now);
  }

  lemma StartProcessKeepsValid(db: Db, d: DeviceId, now: int, launch: Launch)
    requires Valid(db)
    ensures Valid(StartProcess(db, d, now, launch).db)
  {
    if d in db.devices && !HasLive(db.processes, d, now) {
      OpenProcessKeepsValid(db, d, "pending", now);
      LaunchWorkerKeepsValid(OpenProcess(db, d, "pending", now), d, db.nextProcessId, launch, now);
    }
  }

  lemma StopProcessKeepsValid(db: Db, d: DeviceId, now: int)
    requires Valid(db)
    ensures Valid(StopProcess(db, d, now).db)
  {
    MarkDeviceInactiveKeepsValid(db, d, UserClickedDeactivateNoWorker, true, now);
    MarkDeviceInactiveKeepsValid(db, d, UserClickedDeactivate, true, now);
  }

  lemma HandleWorkerExitKeepsValid(db: Db, d: DeviceId, processId: Option<ProcessId>, now: int)
    requires Valid(db)
    ensures Valid(HandleWorkerExit(db, d, processId, now))
  {
    var rows := if processId.Some? then StopOpenRowById(db.processes, processId.value, now) else db.processes;
    WellKeyedSameKeys(db.processes, rows, db.nextProcessId, db.devices.Keys);
    MarkDeviceInactiveKeepsValid(db.(processes := rows), d, WorkerExit, false, now);
  }

  lemma HeartbeatKeepsValid(db: Db, processId: ProcessId, now: int)
    requires Valid(db)
    ensures Valid(Heartbeat(db, processId, now))
  {
    WellKeyedSameKeys(db.processes, Heartbeat(db, processId, now).processes, db.nextProcessId, db.devices.Keys);
  }

  // ---------------------------------------------------------------------
  // What the operations promise.

  /** Activating a device with a live row changes nothing and answers with
      that row; activating an unknown one changes nothing either. */
  lemma StartProcessWithoutWrites(db: Db, d: DeviceId, now: int, launch: Launch)
    requires d !in db.devices || HasLive(db.processes, d, now)
    ensures StartProcess(db, d, now, launch).db == db
    ensures d in db.devices ==>
      StartProcess(db, d, now, launch).out == Success(StartResult(db.devices[d], FirstLive(db.processes, d, now), true))
  {
  }

  /** Activating a device without a live row adds exactly one row for it,
      stamped `now` for both start and heartbeat and carrying the worker's
      pid once the launch succeeded, sets the device active and logs
      `user_clicked_activate` exactly when it was not active. */
  lemma StartProcessLaunched(db: Db, d: DeviceId, now: int, osPid: Option<nat>, suffix: string)
    requires Valid(db) && d in db.devices && !HasLive(db.processes, d, now)
    ensures var r := StartProcess(db, d, now, Launched(osPid, suffix)).db;
      && r.processes == db.processes + [ProcessRow(db.nextProcessId, d, WorkerPid(osPid, suffix), now, now, None)]
      && r.devices == SetStatus(db.devices, d, Active)
      && r.history == db.history + FlipRows(db.devices, d, Active, UserClickedActivate, now)
  {
    var withRow := OpenProcess(db, d, "pending", now);
    var launched := LaunchWorker(withRow, d, db.nextProcessId, Launched(osPid, suffix), now);
    assert launched.processes == db.processes + [ProcessRow(db.nextProcessId, d, WorkerPid(osPid, suffix), now, now, None)];
  }

  /** After a successful launch the answer is the active device and its new
      row, and the device has exactly one live row. */
  lemma StartProcessLaunchedAnswer(db: Db, d: DeviceId, now: int, osPid: Option<nat>, suffix: string)
    requires Valid(db) && d in db.devices && !HasLive(db.processes, d, now)
    ensures var r := StartProcess(db, d, now, Launched(osPid, suffix));
      && r.out == Success(StartResult(r.db.devices[d], Some(r.db.processes[|db.processes|]), false))
      && r.db.devices[d].status == Active
      && LiveCount(r.db.processes, d, now) == 1
  {
    StartProcessLaunched(db, d, now, osPid, suffix);
    var id := db.nextProcessId;
    var p := ProcessRow(id, d, WorkerPid(osPid, suffix), now, now, None);
    WellKeyedAppend(db.processes, p, id, db.devices.Keys);
    FindProcessUnique(db.processes + [p], id, |db.processes|);
    StartLeavesExactlyOneLive(db.processes, p, now);
  }

  /** A failed launch rolls the device forward to inactive: every open row of
      the device is stopped, the new one included, and the log gains the
      activation (when the device was inactive) and then
      `worker_launch_failed`. */
  lemma StartProcessLaunchFailed(db: Db, d: DeviceId, now: int, message: string)
    requires d in db.devices && !HasLive(db.processes, d, now)
    ensures var r := StartProcess(db, d, now, LaunchFailed(message)).db;
      && r.processes == StopOpenRowsOf(db.processes, d, now) + [ProcessRow(db.nextProcessId, d, "pending", now, now, Some(now))]
      && r.devices == SetStatus(db.devices, d, Inactive)
      && r.history == db.history + FlipRows(db.devices, d, Active, UserClickedActivate, now)
                      + FlipRows(SetStatus(db.devices, d, Active), d, Inactive, WorkerLaunchFailed, now)
      && !HasOpenRow(r.processes, d)
  {
    var p := ProcessRow(db.nextProcessId, d, "pending", now, now, None);
    assert StopOpenRowsOf(db.processes + [p], d, now) == StopOpenRowsOf(db.processes, d, now) + [p.(stoppedAt := Some(now))];
  }

  /** After a failed launch the answer still shows the device as committed,
      active, and the new row as re-read, stopped. */
  lemma StartProcessLaunchFailedAnswer(db: Db, d: DeviceId, now: int, message: string)
    requires Valid(db) && d in db.devices && !HasLive(db.processes, d, now)
    ensures var r := StartProcess(db, d, now, LaunchFailed(message));
      && r.out == Success(StartResult(db.devices[d].(status := Active), Some(r.db.processes[|db.processes|]), false))
      && r.db.processes[|db.processes|].stoppedAt == Some(now)
  {
    StartProcessLaunchFailed(db, d, now, message);
    var id := db.nextProcessId;
    var p := ProcessRow(id, d, "pending", now, now, None);
    WellKeyedAppend(db.processes, p, id, db.devices.Keys);
    WellKeyedSameKeys(db.processes + [p], StartProcess(db, d, now, LaunchFailed(message)).db.processes, id + 1, db.devices.Keys);
    FindProcessUnique(StartProcess(db, d, now, LaunchFailed(message)).db.processes, id, |db.processes|);
  }

  /** Activation is idempotent: once a launch succeeded, activating again
      inside the heartbeat window answers `alreadyRunning` with the same
      device and writes nothing. */
  lemma ActivationIdempotent(db: Db, d: DeviceId, now: int, later: int, osPid: Option<nat>, suffix: string, launch: Launch)
    requires Valid(db) && d in db.devices && !HasLive(db.processes, d, now)
    requires now <= later <= now + HeartbeatWindowSeconds
    ensures var first := StartProcess(db, d, now, Launched(osPid, suffix));
      var second := StartProcess(first.db, d, later, launch);
      && second.db == first.db
      && second.out.Success? && second.out.value.alreadyRunning
      && second.out.value.device == first.out.value.device
  {
    var first := StartProcess(db, d, now, Launched(osPid, suffix));
    StartProcessLaunchedAnswer(db, d, now, osPid, suffix);
    assert IsLive(first.db.processes[|db.processes|], later);
  }

  /** Deactivation leaves the device inactive with no open row, whatever it
      answers. */
  lemma StopProcessLeavesNothingOpen(db: Db, d: DeviceId, now: int)
    ensures var r := StopProcess(db, d, now).db;
      && !HasOpenRow(r.processes, d)
      && (d in r.devices ==> r.devices[d].status == Inactive)
      && r.devices.Keys == db.devices.Keys
  {
  }

  /** Deactivation is idempotent: a second one finds no live row, answers
      `not_running` and writes nothing. */
  lemma StopProcessIdempotent(db: Db, d: DeviceId, now: int, later: int)
    ensures var first := StopProcess(db, d, now);
      var second := StopProcess(first.db, d, later);
      && second.out == StopResult(false, Some(NotRunning))
      && second.db == first.db
  {
    var first := StopProcess(db, d, now);
    var reason := if HasLive(db.processes, d, now) then UserClickedDeactivate else UserClickedDeactivateNoWorker;
    assert first == Step(MarkDeviceInactive(db, d, reason, true, now).db, first.out);
    MarkDeviceInactiveIdempotent(db, d, reason, UserClickedDeactivateNoWorker, now, later);
  }

  /** handleWorkerExit stops no row but its own, and marks the device
      inactive exactly when no live row of it remains. */
  lemma HandleWorkerExitScope(db: Db, d: DeviceId, processId: ProcessId, now: int)
    ensures var r := HandleWorkerExit(db, d, Some(processId), now);
      var rows := StopOpenRowById(db.processes, processId, now);
      && r.processes == rows
      && (HasLive(rows, d, now) ==> r.devices == db.devices && r.history == db.history)
      && (!HasLive(rows, d, now) ==>
            r.devices == SetStatus(db.devices, d, Inactive)
            && r.history == db.history + FlipRows(db.devices, d, Inactive, WorkerExit, now))
  {
  }

  /** The browser test's round trip: a new inactive device activated at
      `t0` and deactivated at `t1`, while its worker's heartbeat is fresh,
      logs exactly the activation and the deactivation. */
  lemma ActivateThenDeactivate(db: Db, d: DeviceId, t0: int, t1: int, osPid: Option<nat>, suffix: string)
    requires Valid(db) && d in db.devices && db.devices[d].status == Inactive
    requires !HasLive(db.processes, d, t0)
    requires t0 <= t1 <= t0 + HeartbeatWindowSeconds
    ensures var started := StartProcess(db, d, t0, Launched(osPid, suffix));
      var stopped := StopProcess(started.db, d, t1);
      && started.out.Success? && !started.out.value.alreadyRunning
      && started.out.value.device.status == Active
      && stopped.out == StopResult(true, None)
      && stopped.db.history == db.history + [HistoryRow(d, Inactive, Active, UserClickedActivate, t0),
                                             HistoryRow(d, Active, Inactive, UserClickedDeactivate, t1)]
  {
    StartProcessLaunchedAnswer(db, d, t0, osPid, suffix);
    LaunchedStaysLive(db, d, t0, t1, osPid, suffix);
    ActivationLogged(db, d, t0, osPid, suffix);
    DeactivateLive(StartProcess(db, d, t0, Launched(osPid, suffix)).db, d, t1);
  }

  /** The row a successful launch opens stays live for the heartbeat window. */
  lemma LaunchedStaysLive(db: Db, d: DeviceId, t0: int, t1: int, osPid: Option<nat>, suffix: string)
    requires Valid(db) && d in db.devices && !HasLive(db.processes, d, t0)
    requires t0 <= t1 <= t0 + HeartbeatWindowSeconds
    ensures var started := StartProcess(db, d, t0, Launched(osPid, suffix));
      HasLive(started.db.processes, d, t1) && started.db.devices[d].status == Active
  {
    StartProcessLaunched(db, d, t0, osPid, suffix);
    var started := StartProcess(db, d, t0, Launched(osPid, suffix)).db;
    var n := |db.processes|;
    assert started.processes[n].deviceId == d && IsLive(started.processes[n], t1);
  }

  /** Activating an inactive device logs exactly `user_clicked_activate`. */
  lemma ActivationLogged(db: Db, d: DeviceId, t0: int, osPid: Option<nat>, suffix: string)
    requires Valid(db) && d in db.devices && db.devices[d].status == Inactive
    requires !HasLive(db.processes, d, t0)
    ensures var started := StartProcess(db, d, t0, Launched(osPid, suffix));
      started.db.history == db.history + [HistoryRow(d, Inactive, Active, UserClickedActivate, t0)]
  {
    StartProcessLaunched(db, d, t0, osPid, suffix);
  }

  /** Deactivating a device that is active with a live row answers `stopped`
      and logs the flip to inactive with `user_clicked_deactivate`. */
  lemma DeactivateLive(db: Db, d: DeviceId, now: int)
    requires d in db.devices && db.devices[d].status == Active && HasLive(db.processes, d, now)
    ensures StopProcess(db, d, now).out == StopResult(true, None)
    ensures StopProcess(db, d, now).db.history == db.history + [HistoryRow(d, Active, Inactive, UserClickedDeactivate, now)]
  {
  }

  /** A superseded worker's late exit does not disturb its successor: with
      the successor's row live, the device keeps its status and log. */
  lemma LateExitKeepsSuccessor(db: Db, d: DeviceId, old_: ProcessId, now: int)
    requires exists i :: 0 <= i < |db.processes| && db.processes[i].deviceId == d && db.processes[i].id != old_ && IsLive(db.processes[i], now)
    ensures HandleWorkerExit(db, d, Some(old_), now).devices == db.devices
    ensures HandleWorkerExit(db, d, Some(old_), now).history == db.history
  {
    var i :| 0 <= i < |db.processes| && db.processes[i].deviceId == d && db.processes[i].id != old_ && IsLive(db.processes[i], now);
    var rows := StopOpenRowById(db.processes, old_, now);
    assert rows[i] == db.processes[i];
  }
}

/** The Express variant's device lifecycle (processManager.js) as functions
    on the shared tables together with `workersByDevice`, the in-memory map
    from a device to its worker thread. A worker stands here for the key of
    the process row it was started with; the ProcessManager class holds the
    worker objects and is proved to follow these functions. A device counts
    as running while it has an entry in the map. */
module ExpressLifecycle {
  import opened Wrappers
  import opened Records
  import opened ProcessRows
  import opened StatusHistory
  import opened EventCatalog
  import opened Tables
  import opened ExpressDeviceWorker

  /** The tables and the worker map. */
  datatype Server = Server(db: Db, workers: map<DeviceId, ProcessId>)

  /** A new server state and the operation's answer. */
  datatype Reply<T> = Reply(server: Server, out: T)

  /** A device with a worker is active. */
  ghost predicate ActiveWhileRegistered(devices: map<DeviceId, Device>, workers: map<DeviceId, ProcessId>) {
    forall d :: d in workers ==> d in devices && devices[d].status == Active
  }

  /** A device with a worker has an open row. */
  ghost predicate RegisteredRowsOpen(rows: seq<ProcessRow>, workers: map<DeviceId, ProcessId>) {
    forall d :: d in workers ==> HasOpenRow(rows, d)
  }

  /** Every open row is the row of its device's registered worker. */
  ghost predicate OpenRowsRegistered(rows: seq<ProcessRow>, workers: map<DeviceId, ProcessId>) {
    forall i :: 0 <= i < |rows| && IsOpen(rows[i]) ==> rows[i].deviceId in workers && workers[rows[i].deviceId] == rows[i].id
  }

  /** The map and the tables agree: a device with a worker is active and has
      exactly that worker's row open, and every open row is a registered
      worker's. */
  ghost predicate Registered(s: Server) {
    && ActiveWhileRegistered(s.db.devices, s.workers)
    && RegisteredRowsOpen(s.db.processes, s.workers)
    && OpenRowsRegistered(s.db.processes, s.workers)
  }

  ghost predicate Valid(s: Server) {
    Tables.Valid(s.db) && Registered(s)
  }

  /** `worker-${Math.floor(Math.random()*1e5)}`: a name with at most five
      digits, never the Laravel placeholder. */
  function PlaceholderPid(u: real): (r: string)
    requires IsDraw(u)
    ensures |r| > 7 && r[..7] == "worker-" && r != "pending"
    ensures forall i :: 7 <= i < |r| ==> IsDigit(r[i])
    ensures DecimalValue(r[7..]) == (u * 100000.0).Floor < 100000
  {
    FloorOfScaledDraw(u, 100000);
    var n := (u * 100000.0).Floor;
    DecimalRoundTrip(n);
    var r := "worker-" + DecimalString(n);
    assert r[7..] == DecimalString(n);
    assert r[0] == 'w';
    r
  }

  /** startProcess. An unknown device throws `Device not found`; a device with
      a worker answers `alreadyRunning` without a process; a worker that cannot
      be constructed throws and the transaction rolls back. Otherwise the row
      is created, the device set active (logged only when it was not) and the
      worker registered; the answer carries the device and the row. */
  function StartProcess(s: Server, d: DeviceId, now: int, u: real, spawnError: Option<string>): (r: Reply<Result<StartResult, Error>>)
    requires IsDraw(u)
    ensures r.out.Success? <==> d in s.db.devices && (d in s.workers || spawnError.None?)
    ensures r.out.Success? && r.out.value.alreadyRunning <==> d in s.db.devices && d in s.workers
  {
    if d !in s.db.devices then Reply(s, Failure(PlainError(DeviceNotFound)))
    else if d in s.workers then Reply(s, Success(StartResult(s.db.devices[d], None, true)))
    else if spawnError.Some? then Reply(s, Failure(PlainError(spawnError.value)))
    else
      var db := OpenProcess(s.db, d, PlaceholderPid(u), now);
      Reply(Server(db, s.workers[d := s.db.nextProcessId]),
            Success(StartResult(db.devices[d], Some(db.processes[|s.db.processes|]), false)))
  }

  /** The heartbeat bump after a persisted transaction: every open row of the
      worker's device. */
  function Heartbeat(s: Server, d: DeviceId, now: int): Server {
    s.(db := s.db.(processes := BumpOpenHeartbeatsOf(s.db.processes, d, now)))
  }

  /** stopProcess: without a worker, marks the device inactive with
      `user_clicked_deactivate_no_worker` and answers `not_running`; with one,
      marks it inactive with `user_clicked_deactivate`, drops the worker from
      the map and answers `stopped`. Either way every open row of the device
      is stopped. */
  function StopProcess(s: Server, d: DeviceId, now: int): (r: Reply<StopResult>)
    ensures r.out == if d in s.workers then StopResult(true, None) else StopResult(false, Some(NotRunning))
  {
    if d !in s.workers then
      Reply(Server(MarkDeviceInactive(s.db, d, UserClickedDeactivateNoWorker, true, now).db, s.workers),
            StopResult(false, Some(NotRunning)))
    else
      Reply(Server(MarkDeviceInactive(s.db, d, UserClickedDeactivate, true, now).db, s.workers - {d}),
            StopResult(true, None))
  }

  /** The worker's `exit` handler as written: it drops the map entry of the
      device, whichever worker it holds, stops every open row of the device,
      and, finding none open, marks the device inactive with `worker_exit`. */
  function ExitAsWritten(s: Server, d: DeviceId, now: int): Server {
    var workers := s.workers - {d};
    var rows := StopOpenRowsOf(s.db.processes, d, now);
    if HasOpenRow(rows, d) then Server(s.db.(processes := rows), workers)
    else Server(MarkDeviceInactive(s.db.(processes := rows), d, WorkerExit, false, now).db, workers)
  }

  /** The `exit` handler as its comment describes it: it stops only the
      exiting worker's row `pid`, drops the map entry only when it still holds
      that worker, and marks the device inactive with `worker_exit` only when
      no open row of the device remains. */
  function Exit(s: Server, d: DeviceId, pid: ProcessId, now: int): Server {
    var workers := if d in s.workers && s.workers[d] == pid then s.workers - {d} else s.workers;
    var rows := StopOpenRowById(s.db.processes, pid, now);
    if HasOpenRow(rows, d) then Server(s.db.(processes := rows), workers)
    else Server(MarkDeviceInactive(s.db.(processes := rows), d, WorkerExit, false, now).db, workers)
  }

  // ---------------------------------------------------------------------
  // Every operation keeps the map and the tables in agreement.

  /** A new inactive device has no worker, and the others keep theirs. */
  lemma AddDeviceKeepsValid(s: Server, id: DeviceId, device: Device)
    requires Valid(s) && id !in s.db.devices && device.status == Inactive
    ensures Valid(Server(Tables.AddDevice(s.db, id, device), s.workers))
  {
    Tables.AddDeviceKeepsValid(s.db, id, device);
  }

  lemma StartProcessKeepsValid(s: Server, d: DeviceId, now: int, u: real, spawnError: Option<string>)
    requires Valid(s) && IsDraw(u)
    ensures Valid(StartProcess(s, d, now, u, spawnError).server)
  {
    if d in s.db.devices && d !in s.workers && spawnError.None? {
      OpenProcessKeepsValid(s.db, d, PlaceholderPid(u), now);
      StartKeepsRegistered(s, d, now, u);
    }
  }

  lemma StartKeepsRegistered(s: Server, d: DeviceId, now: int, u: real)
    requires Registered(s) && d in s.db.devices && d !in s.workers && IsDraw(u)
    ensures Registered(StartProcess(s, d, now, u, None).server)
  {
    var p := ProcessRow(s.db.nextProcessId, d, PlaceholderPid(u), now, now, None);
    AppendRegistered(s.db.processes, s.workers, p);
  }

  /** Opening a row for a device without a worker and registering it keeps
      the rows and the map in agreement. */
  lemma AppendRegistered(rows: seq<ProcessRow>, workers: map<DeviceId, ProcessId>, p: ProcessRow)
    requires RegisteredRowsOpen(rows, workers) && OpenRowsRegistered(rows, workers)
    requires IsOpen(p) && p.deviceId !in workers
    ensures RegisteredRowsOpen(rows + [p], workers[p.deviceId := p.id])
    ensures OpenRowsRegistered(rows + [p], workers[p.deviceId := p.id])
  {
    var r := rows + [p];
    assert OpenRowOf(r[|rows|], p.deviceId);
    forall e | e in workers ensures HasOpenRow(r, e) {
      var i :| 0 <= i < |rows| && OpenRowOf(rows[i], e);
      assert r[i] == rows[i];
    }
  }

  lemma HeartbeatKeepsValid(s: Server, d: DeviceId, now: int)
    requires Valid(s)
    ensures Valid(Heartbeat(s, d, now))
  {
    var rows := BumpOpenHeartbeatsOf(s.db.processes, d, now);
    WellKeyedSameKeys(s.db.processes, rows, s.db.nextProcessId, s.db.devices.Keys);
    forall e | e in s.workers ensures HasOpenRow(rows, e) {
      var i :| 0 <= i < |s.db.processes| && OpenRowOf(s.db.processes[i], e);
      assert OpenRowOf(rows[i], e);
    }
  }

  lemma StopProcessKeepsValid(s: Server, d: DeviceId, now: int)
    requires Valid(s)
    ensures Valid(StopProcess(s, d, now).server)
  {
    var reason := if d in s.workers then UserClickedDeactivate else UserClickedDeactivateNoWorker;
    MarkDeviceInactiveKeepsValid(s.db, d, reason, true, now);
    StopKeepsRegistered(s, d, now);
  }

  lemma StopKeepsRegistered(s: Server, d: DeviceId, now: int)
    requires Registered(s)
    ensures Registered(StopProcess(s, d, now).server)
  {
    StopAllRegistered(s.db.processes, s.workers, d, now);
    assert s.workers - {d} == if d in s.workers then s.workers - {d} else s.workers;
  }

  /** Stopping every open row of a device and dropping its worker keeps the
      rows and the map in agreement. */
  lemma StopAllRegistered(rows: seq<ProcessRow>, workers: map<DeviceId, ProcessId>, d: DeviceId, now: int)
    requires RegisteredRowsOpen(rows, workers) && OpenRowsRegistered(rows, workers)
    ensures RegisteredRowsOpen(StopOpenRowsOf(rows, d, now), workers - {d})
    ensures OpenRowsRegistered(StopOpenRowsOf(rows, d, now), workers - {d})
  {
    var r := StopOpenRowsOf(rows, d, now);
    forall e | e in workers - {d} ensures HasOpenRow(r, e) {
      var i :| 0 <= i < |rows| && OpenRowOf(rows[i], e);
      assert OpenRowOf(r[i], e);
    }
  }

  lemma ExitKeepsValid(s: Server, d: DeviceId, pid: ProcessId, now: int)
    requires Valid(s) && RowOf(s.db.processes, pid, d)
    ensures Valid(Exit(s, d, pid, now))
  {
    var rows := StopOpenRowById(s.db.processes, pid, now);
    WellKeyedSameKeys(s.db.processes, rows, s.db.nextProcessId, s.db.devices.Keys);
    MarkDeviceInactiveKeepsValid(s.db.(processes := rows), d, WorkerExit, false, now);
    ExitKeepsRegistered(s, d, pid, now);
  }

  lemma ExitAsWrittenKeepsValid(s: Server, d: DeviceId, now: int)
    requires Valid(s)
    ensures Valid(ExitAsWritten(s, d, now))
  {
    var rows := StopOpenRowsOf(s.db.processes, d, now);
    WellKeyedSameKeys(s.db.processes, rows, s.db.nextProcessId, s.db.devices.Keys);
    MarkDeviceInactiveKeepsValid(s.db.(processes := rows), d, WorkerExit, false, now);
    StopAllRegistered(s.db.processes, s.workers, d, now);
  }

  lemma ExitKeepsRegistered(s: Server, d: DeviceId, pid: ProcessId, now: int)
    requires Registered(s) && RowOf(s.db.processes, pid, d)
    ensures Registered(Exit(s, d, pid, now))
  {
    StopOneRegistered(s.db.processes, s.workers, d, pid, now);
  }

  /** Stopping the row of one of a device's workers, and dropping that worker
      from the map if it is the registered one, keeps the rows and the map in
      agreement; a device whose worker is still registered keeps an open row. */
  lemma StopOneRegistered(rows: seq<ProcessRow>, workers: map<DeviceId, ProcessId>, d: DeviceId, pid: ProcessId, now: int)
    requires RegisteredRowsOpen(rows, workers) && OpenRowsRegistered(rows, workers) && RowOf(rows, pid, d)
    ensures var workers' := if d in workers && workers[d] == pid then workers - {d} else workers;
      && RegisteredRowsOpen(StopOpenRowById(rows, pid, now), workers')
      && OpenRowsRegistered(StopOpenRowById(rows, pid, now), workers')
  {
    var r := StopOpenRowById(rows, pid, now);
    var workers' := if d in workers && workers[d] == pid then workers - {d} else workers;
    forall e | e in workers' ensures HasOpenRow(r, e) {
      var i :| 0 <= i < |rows| && OpenRowOf(rows[i], e);
      assert rows[i].id == workers[e];
      assert OpenRowOf(r[i], e);
    }
  }

  // ---------------------------------------------------------------------
  // What the operations promise.

  /** `isActive` agrees with the tables: a device has a worker in the map
      exactly when it has an open process row. */
  lemma RegistryMatchesOpenRows(s: Server, d: DeviceId)
    requires Valid(s)
    ensures d in s.workers <==> HasOpenRow(s.db.processes, d)
  {
    if HasOpenRow(s.db.processes, d) {
      var i :| 0 <= i < |s.db.processes| && OpenRowOf(s.db.processes[i], d);
      assert s.db.processes[i].deviceId in s.workers;
    }
  }

  /** An unknown device, a running one or a failed spawn writes nothing. */
  lemma StartProcessWithoutWrites(s: Server, d: DeviceId, now: int, u: real, spawnError: Option<string>)
    requires IsDraw(u)
    requires d !in s.db.devices || d in s.workers || spawnError.Some?
    ensures StartProcess(s, d, now, u, spawnError).server == s
    ensures d !in s.db.devices ==> StartProcess(s, d, now, u, spawnError).out == Failure(PlainError(DeviceNotFound))
    ensures d in s.db.devices && d !in s.workers ==> StartProcess(s, d, now, u, spawnError).out == Failure(PlainError(spawnError.value))
  {
  }

  /** Activating a device without a worker adds one open row for it with a
      `worker-N` pid, sets it active, logs `user_clicked_activate` exactly when
      it was not active and registers the new worker under the row's key; the
      answer is the active device and that row. */
  lemma StartProcessSpawned(s: Server, d: DeviceId, now: int, u: real)
    requires d in s.db.devices && d !in s.workers && IsDraw(u)
    ensures var r := StartProcess(s, d, now, u, None);
      var p := ProcessRow(s.db.nextProcessId, d, PlaceholderPid(u), now, now, None);
      && r.server.db.processes == s.db.processes + [p]
      && r.server.db.devices == SetStatus(s.db.devices, d, Active)
      && r.server.db.history == s.db.history + FlipRows(s.db.devices, d, Active, UserClickedActivate, now)
      && r.server.workers == s.workers[d := p.id]
      && r.out == Success(StartResult(s.db.devices[d].(status := Active), Some(p), false))
  {
  }

  /** Activation is idempotent: once started, activating again answers
      `alreadyRunning` and writes nothing, however late. */
  lemma ActivationIdempotent(s: Server, d: DeviceId, now: int, later: int, u: real, u': real, spawnError: Option<string>)
    requires d in s.db.devices && IsDraw(u) && IsDraw(u')
    ensures var first := StartProcess(s, d, now, u, None);
      var second := StartProcess(first.server, d, later, u', spawnError);
      && second.server == first.server
      && second.out.Success? && second.out.value.alreadyRunning
  {
  }

  /** Deactivation leaves the device inactive, unregistered and without an
      open row, whatever it answers. */
  lemma StopProcessLeavesNothingOpen(s: Server, d: DeviceId, now: int)
    ensures var r := StopProcess(s, d, now).server;
      && d !in r.workers
      && !HasOpenRow(r.db.processes, d)
      && (d in r.db.devices ==> r.db.devices[d].status == Inactive)
      && r.workers == s.workers - {d}
  {
  }

  /** Deactivation is idempotent: a second one finds no worker, answers
      `not_running` and writes nothing. */
  lemma StopProcessIdempotent(s: Server, d: DeviceId, now: int, later: int)
    ensures var first := StopProcess(s, d, now);
      var second := StopProcess(first.server, d, later);
      && second.out == StopResult(false, Some(NotRunning))
      && second.server == first.server
  {
    var reason := if d in s.workers then UserClickedDeactivate else UserClickedDeactivateNoWorker;
    MarkDeviceInactiveIdempotent(s.db, d, reason, UserClickedDeactivateNoWorker, now, later);
  }

  /** The corrected handler leaves a successor alone: when the map holds a
      different worker for the device, its entry, its open row, the device's
      status and the log are untouched. */
  lemma ExitKeepsSuccessor(s: Server, d: DeviceId, pid: ProcessId, now: int)
    requires Valid(s) && d in s.workers && s.workers[d] != pid
    ensures var r := Exit(s, d, pid, now);
      && r.workers == s.workers
      && r.db.devices == s.db.devices && r.db.history == s.db.history
      && HasOpenRow(r.db.processes, d)
  {
    var rows := StopOpenRowById(s.db.processes, pid, now);
    var i :| 0 <= i < |s.db.processes| && OpenRowOf(s.db.processes[i], d);
    assert s.db.processes[i].id == s.workers[d];
    assert rows[i] == s.db.processes[i];
  }

  /** The corrected handler on the registered worker's own exit: its entry
      goes, its row is stopped and the device is marked inactive with
      `worker_exit`. */
  lemma ExitOfRegisteredWorker(s: Server, d: DeviceId, now: int)
    requires Valid(s) && d in s.workers
    ensures var r := Exit(s, d, s.workers[d], now);
      && r.workers == s.workers - {d}
      && !HasOpenRow(r.db.processes, d)
      && r.db.devices == SetStatus(s.db.devices, d, Inactive)
      && r.db.history == s.db.history + [HistoryRow(d, Active, Inactive, WorkerExit, now)]
  {
  }

  /** The handler as written stops the successor: when the map holds a
      different worker for the device, the exit of the superseded one still
      drops that entry, stops the successor's row and marks the device
      inactive, although the successor never exited. */
  lemma ExitAsWrittenDropsSuccessor(s: Server, d: DeviceId, now: int)
    requires Valid(s) && d in s.workers
    ensures var r := ExitAsWritten(s, d, now);
      && r.workers == s.workers - {d}
      && !HasOpenRow(r.db.processes, d)
      && r.db.devices[d].status == Inactive
      && r.db.history == s.db.history + [HistoryRow(d, Active, Inactive, WorkerExit, now)]
  {
  }

  /** Activate (worker 1), deactivate and activate again (worker 2): the
      tables and the map still agree, and worker 2 took worker 1's place in
      the map under the next key. */
  lemma Restart(s: Server, started: Server, stopped: Server, restarted: Server,
                d: DeviceId, t0: int, t1: int, t2: int, u0: real, u2: real)
    requires Valid(s) && d in s.db.devices && d !in s.workers && IsDraw(u0) && IsDraw(u2)
    requires started == StartProcess(s, d, t0, u0, None).server
    requires stopped == StopProcess(started, d, t1).server
    requires restarted == StartProcess(stopped, d, t2, u2, None).server
    ensures Valid(restarted)
    ensures started.workers == s.workers[d := s.db.nextProcessId]
    ensures restarted.workers == s.workers[d := s.db.nextProcessId + 1]
    ensures restarted.workers - {d} == s.workers
  {
    StartThenStop(s, started, stopped, d, t0, t1, u0);
    StartProcessKeepsValid(stopped, d, t2, u2, None);
    StartProcessSpawned(stopped, d, t2, u2);
    RemoveAdded(s.workers, d, s.db.nextProcessId + 1);
  }

  /** Activating and deactivating again leaves the map as it was, the tables
      in agreement with it and the device known. */
  lemma StartThenStop(s: Server, started: Server, stopped: Server, d: DeviceId, t0: int, t1: int, u0: real)
    requires Valid(s) && d in s.db.devices && d !in s.workers && IsDraw(u0)
    requires started == StartProcess(s, d, t0, u0, None).server
    requires stopped == StopProcess(started, d, t1).server
    ensures Valid(stopped) && d in stopped.db.devices
    ensures started.workers == s.workers[d := s.db.nextProcessId]
    ensures stopped.workers == s.workers
    ensures stopped.db.nextProcessId == s.db.nextProcessId + 1
  {
    StartProcessKeepsValid(s, d, t0, u0, None);
    StartProcessSpawned(s, d, t0, u0);
    StopProcessKeepsValid(started, d, t1);
    RemoveAdded(s.workers, d, s.db.nextProcessId);
  }

  lemma RemoveAdded<K, V>(m: map<K, V>, k: K, v: V)
    requires k !in m
    ensures m[k := v] - {k} == m
  {
  }

  /** The scenario that shows it: activate (worker 1), deactivate, activate
      again (worker 2); then worker 1's exit arrives. As written, the device
      ends inactive with nothing in the map, while worker 2 was never told to
      stop and runs on. */
  lemma SupersededWorkerExitAsWritten(s: Server, started: Server, stopped: Server, restarted: Server,
                                      d: DeviceId, t0: int, t1: int, t2: int, t3: int, u0: real, u2: real)
    requires Valid(s) && d in s.db.devices && d !in s.workers && IsDraw(u0) && IsDraw(u2)
    requires started == StartProcess(s, d, t0, u0, None).server
    requires stopped == StopProcess(started, d, t1).server
    requires restarted == StartProcess(stopped, d, t2, u2, None).server
    ensures ExitAsWritten(restarted, d, t3).workers == s.workers
    ensures ExitAsWritten(restarted, d, t3).db.devices[d].status == Inactive
  {
    Restart(s, started, stopped, restarted, d, t0, t1, t2, u0, u2);
    ExitAsWrittenDropsSuccessor(restarted, d, t3);
  }

  /** The same scenario with the corrected handler: worker 1's exit leaves
      worker 2 registered and the device active. */
  lemma SupersededWorkerExitCorrected(s: Server, started: Server, stopped: Server, restarted: Server,
                                      d: DeviceId, t0: int, t1: int, t2: int, t3: int, u0: real, u2: real)
    requires Valid(s) && d in s.db.devices && d !in s.workers && IsDraw(u0) && IsDraw(u2)
    requires started == StartProcess(s, d, t0, u0, None).server
    requires stopped == StopProcess(started, d, t1).server
    requires restarted == StartProcess(stopped, d, t2, u2, None).server
    ensures Exit(restarted, d, s.db.nextProcessId, t3).workers == restarted.workers
    ensures Exit(restarted, d, s.db.nextProcessId, t3).db.devices[d].status == Active
  {
    Restart(s, started, stopped, restarted, d, t0, t1, t2, u0, u2);
    SupersededExitCorrected(restarted, d, s.db.nextProcessId, t3);
  }

  /** The same exit with the corrected handler. */
  lemma SupersededExitCorrected(s: Server, d: DeviceId, pid: ProcessId, now: int)
    requires Valid(s) && d in s.workers && s.workers[d] == pid + 1
    ensures Exit(s, d, pid, now).workers == s.workers
    ensures Exit(s, d, pid, now).db.devices[d].status == Active
  {
    ExitKeepsSuccessor(s, d, pid, now);
  }

}

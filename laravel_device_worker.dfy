/** The Laravel variant's device worker (the `mdms:device-worker` console
    command): a separate process that, until its process row is stopped,
    sleeps 1-4 s, stores one synthetic transaction and bumps its row's
    heartbeat, then reports its exit to the ProcessManager. Every
    `random_int` and `Arr::random` is a draw handed in by the caller; the
    deactivations the web server performs meanwhile are part of the input. */
module LaravelDeviceWorker {
  import opened Wrappers
  import opened Records
  import opened ProcessRows
  import opened Liveness
  import opened EventCatalog
  import opened Transactions
  import LPM = LaravelProcessManager

  /** The draws of one iteration: the sleep, the event index, the payload's
      (method index and `random_int(0, 100)` of an access controller, the
      face number, the plate's letter indices and number, the lane index)
      and the user index. */
  datatype Draws = Draws(
    sleepMs: int,
    event: nat,
    accessMethod: nat,
    okDraw: int,
    face: int,
    letters: seq<nat>,
    plateNumber: int,
    lane: nat,
    user: nat)

  /** The draws `random_int` and `Arr::random` can make for a device type. */
  predicate ValidDraws(deviceType: string, t: Draws) {
    && 1000 <= t.sleepMs <= 4000
    && t.event < |EventsFor(deviceType)|
    && t.accessMethod < |AccessMethods|
    && 0 <= t.okDraw <= 100
    && 0 <= t.face <= 9999
    && |t.letters| == 3 && (forall i :: 0 <= i < 3 ==> t.letters[i] < |Letters|)
    && 1000 <= t.plateNumber <= 9999
    && t.lane < |Lanes|
    && t.user < |Users|
  }

  /** randomPlate: three letters drawn from A..Z, then a number in
      1000..9999, concatenated. */
  method RandomPlate(letters: seq<nat>, number: int) returns (plate: string)
    requires |letters| == 3 && forall i :: 0 <= i < 3 ==> letters[i] < |Letters|
    requires 1000 <= number <= 9999
    ensures plate == Plate(letters, number)
    ensures IsPlate(plate) && DecimalValue(plate[3..]) == number
  {
    var parts: string := [];
    for i := 0 to 3
      invariant |parts| == i
      invariant forall j :: 0 <= j < i ==> parts[j] == Letters[letters[j]]
    {
      parts := parts + [Letters[letters[i]]];
    }
    plate := parts + DecimalString(number);
  }

  /** The payload buildPayload makes from the draws, without its
      floating-point fields (match_score, confidence). */
  function PayloadOf(kind: string, t: Draws): (r: Payload)
    requires ValidDraws(kind, t)
    ensures kind == AccessController <==> r.AccessPayload?
    ensures kind == FaceReader <==> r.FacePayload?
    ensures kind == Anpr <==> r.AnprPayload?
    ensures r.AccessPayload? ==> r.doorId == DoorId && r.accessMethod in AccessMethods && (r.ok <==> t.okDraw > 20)
    ensures r.FacePayload? ==> r.faceId == FaceId(t.face)
    ensures r.AnprPayload? ==> IsPlate(r.plate) && DecimalValue(r.plate[3..]) == t.plateNumber && r.lane in Lanes
    ensures r.GenericPayload? ==> r.note == GenericNote
  {
    if kind == AccessController then AccessPayload(DoorId, AccessMethods[t.accessMethod], t.okDraw > 20)
    else if kind == FaceReader then FacePayload(FaceId(t.face))
    else if kind == Anpr then AnprPayload(Plate(t.letters, t.plateNumber), Lanes[t.lane])
    else GenericPayload(GenericNote)
  }

  /** buildPayload. */
  method BuildPayload(kind: string, t: Draws) returns (p: Payload)
    requires ValidDraws(kind, t)
    ensures p == PayloadOf(kind, t)
  {
    if kind == AccessController {
      p := AccessPayload(DoorId, AccessMethods[t.accessMethod], t.okDraw > 20);
    } else if kind == FaceReader {
      p := FacePayload(FaceId(t.face));
    } else if kind == Anpr {
      var plate := RandomPlate(t.letters, t.plateNumber);
      p := AnprPayload(plate, Lanes[t.lane]);
    } else {
      p := GenericPayload(GenericNote);
    }
  }

  /** One iteration as it happens: whether the web server deactivates the
      device before the worker re-reads its row, the draws, the clock and
      how storing the event ends. */
  datatype Tick = Tick(stopFirst: bool, draws: Draws, now: int, persist: Persist)

  predicate ValidTicks(deviceType: string, ticks: seq<Tick>) {
    forall i :: 0 <= i < |ticks| ==> ValidDraws(deviceType, ticks[i].draws)
  }

  /** The createTransaction call of one iteration. */
  function Request(deviceId: DeviceId, deviceType: string, t: Tick): (r: NewTransaction)
    requires ValidDraws(deviceType, t.draws)
    ensures r.deviceId == deviceId && r.username.Some? && r.username.value in Users
    ensures r.eventType in EventsFor(deviceType) && r.timestamp == Some(t.now) && r.payload.Some?
  {
    NewTransaction(deviceId, Some(Users[t.draws.user]), EventsFor(deviceType)[t.draws.event],
                   Some(t.now), Some(PayloadOf(deviceType, t.draws)))
  }

  /** The transactions a run of iterations stores: one per iteration whose
      createTransaction did not throw. */
  function Requests(deviceId: DeviceId, deviceType: string, ticks: seq<Tick>): seq<NewTransaction>
    requires ValidTicks(deviceType, ticks)
  {
    if ticks == [] then []
    else
      var last := ticks[|ticks| - 1];
      Requests(deviceId, deviceType, ticks[..|ticks| - 1]) +
        (if last.persist != CreateFailed then [Request(deviceId, deviceType, last)] else [])
  }

  /** Every transaction a worker stores is its device's, by a known user,
      of an event type of its device type, stamped with the iteration's clock. */
  lemma {:induction false} RequestsWellFormed(deviceId: DeviceId, deviceType: string, ticks: seq<Tick>)
    requires ValidTicks(deviceType, ticks)
    ensures |Requests(deviceId, deviceType, ticks)| <= |ticks|
    ensures forall t :: t in Requests(deviceId, deviceType, ticks) ==>
      && t.deviceId == deviceId && t.username.Some? && t.username.value in Users
      && t.eventType in EventsFor(deviceType) && t.timestamp.Some? && t.payload.Some?
  {
    if ticks != [] {
      RequestsWellFormed(deviceId, deviceType, ticks[..|ticks| - 1]);
    }
  }

  /** A run whose every store succeeds stores one transaction per iteration. */
  lemma {:induction false} RequestsCount(deviceId: DeviceId, deviceType: string, ticks: seq<Tick>)
    requires ValidTicks(deviceType, ticks)
    requires forall i :: 0 <= i < |ticks| ==> ticks[i].persist != CreateFailed
    ensures |Requests(deviceId, deviceType, ticks)| == |ticks|
  {
    if ticks != [] {
      RequestsCount(deviceId, deviceType, ticks[..|ticks| - 1]);
    }
  }

  /** One more iteration stores what it stores after the earlier ones. */
  lemma RequestsSnoc(deviceId: DeviceId, deviceType: string, ticks: seq<Tick>, n: nat)
    requires n < |ticks| && ValidTicks(deviceType, ticks)
    ensures Requests(deviceId, deviceType, ticks[..n + 1]) == Requests(deviceId, deviceType, ticks[..n]) +
      (if ticks[n].persist != CreateFailed then [Request(deviceId, deviceType, ticks[n])] else [])
  {
    assert ticks[..n + 1][..n] == ticks[..n];
  }

  /** A stored row read back as the call that stored it. */
  function AsRequest(row: TransactionRow): NewTransaction {
    NewTransaction(row.deviceId, row.username, row.eventType, Some(row.timestamp), row.payload)
  }

  function AsRequests(rows: seq<TransactionRow>): (r: seq<NewTransaction>)
    ensures |r| == |rows| && forall i :: 0 <= i < |rows| ==> r[i] == AsRequest(rows[i])
  {
    seq(|rows|, i requires 0 <= i < |rows| => AsRequest(rows[i]))
  }

  /** The row with key `id`, if any, is stopped. */
  predicate RowStopped(rows: seq<ProcessRow>, id: ProcessId) {
    exists i :: 0 <= i < |rows| && rows[i].id == id && !IsOpen(rows[i])
  }

  /** The row with key `id` belongs to device `d`. */
  predicate RowOn(rows: seq<ProcessRow>, id: ProcessId, d: DeviceId) {
    exists i :: 0 <= i < |rows| && rows[i].id == id && rows[i].deviceId == d
  }

  /** How the command ends: FAILURE for an unknown device or row, SUCCESS
      after handleWorkerExit, or still looping when the input runs out. */
  datatype Outcome = DeviceMissing | ProcessMissing | Exited | StillRunning

  /** The rows one more iteration appends, after those the earlier
      iterations stored, read back as the calls of all of them. */
  lemma StoredSnoc(rows: seq<TransactionRow>, base: seq<TransactionRow>, added: seq<TransactionRow>,
                   deviceId: DeviceId, deviceType: string, ticks: seq<Tick>, n: nat)
    requires n < |ticks| && ValidTicks(deviceType, ticks)
    requires |rows| >= |base| && rows[..|base|] == base
    requires AsRequests(rows[|base|..]) == Requests(deviceId, deviceType, ticks[..n])
    requires AsRequests(added) == if ticks[n].persist != CreateFailed then [Request(deviceId, deviceType, ticks[n])] else []
    ensures |rows + added| >= |base| && (rows + added)[..|base|] == base
    ensures AsRequests((rows + added)[|base|..]) == Requests(deviceId, deviceType, ticks[..n + 1])
  {
    assert (rows + added)[|base|..] == rows[|base|..] + added;
    assert AsRequests(rows[|base|..] + added) == AsRequests(rows[|base|..]) + AsRequests(added);
    RequestsSnoc(deviceId, deviceType, ticks, n);
  }

  /** The loop body once the re-read row is open: draw the event and the
      payload, then store the transaction and bump the row's heartbeat as far
      as `tick.persist` says those writes get. Answers the rows it stored. */
  method StoreEvent(pm: LPM.ProcessManager, txs: TransactionTable, deviceId: DeviceId, deviceType: string,
                 processId: ProcessId, k: nat, tick: Tick) returns (added: seq<TransactionRow>)
    requires pm.Valid() && txs.Valid()
    requires k < |pm.processes| && pm.processes[k].id == processId
    requires ValidDraws(deviceType, tick.draws)
    modifies pm, txs
    ensures pm.Valid() && txs.Valid()
    ensures pm.devices == old(pm.devices) && |pm.processes| == |old(pm.processes)|
    ensures pm.processes[k] == if tick.persist == Persisted then old(pm.processes[k]).(lastHeartbeatAt := tick.now) else old(pm.processes[k])
    ensures txs.rows == old(txs.rows) + added
    ensures AsRequests(added) == if tick.persist != CreateFailed then [Request(deviceId, deviceType, tick)] else []
  {
    var eventType := EventsFor(deviceType)[tick.draws.event];
    var payload := BuildPayload(deviceType, tick.draws);
    var username := Users[tick.draws.user];
    added := [];
    if tick.persist != CreateFailed {
      var row := txs.CreateTransaction(NewTransaction(deviceId, Some(username), eventType, Some(tick.now), Some(payload)), tick.now);
      added := [row];
      if tick.persist == Persisted {
        pm.Heartbeat(processId, tick.now);
      }
    }
  }

  /** The web server's stopProcess of the device, run before the worker
      re-reads its row: it stops the row when the row is the device's. */
  method DeactivateBetween(pm: LPM.ProcessManager, deviceId: DeviceId, k: nat, now: int)
    requires pm.Valid() && k < |pm.processes|
    modifies pm
    ensures pm.Valid()
    ensures pm.devices.Keys == old(pm.devices).Keys && |pm.processes| == |old(pm.processes)|
    ensures pm.processes[k].id == old(pm.processes[k]).id && pm.processes[k].deviceId == old(pm.processes[k]).deviceId
    ensures pm.processes[k].deviceId == deviceId ==> !IsOpen(pm.processes[k])
  {
    var _ := pm.StopProcess(deviceId, now);
  }

  /** handleWorkerExit after the loop: the worker's row ends up stopped, and
      the device inactive unless another live row of it remains. */
  method ReportExit(pm: LPM.ProcessManager, deviceId: DeviceId, processId: ProcessId, k: nat, now: int)
    requires pm.Valid() && deviceId in pm.devices
    requires k < |pm.processes| && pm.processes[k].id == processId
    modifies pm
    ensures pm.Valid()
    ensures RowStopped(pm.processes, processId)
    ensures !HasLive(pm.processes, deviceId, now) ==> deviceId in pm.devices && pm.devices[deviceId].status == Inactive
  {
    pm.HandleWorkerExit(deviceId, Some(processId), now);
    assert !IsOpen(pm.processes[k]);
  }

  /** What holds before iteration `n` of a worker whose row sits at
      position `k` of the table, which held `rows0` when the worker started,
      and whose transactions are the rows stored after `txs0`: the row is
      the worker's, open (after the first iteration) with the heartbeat of
      the last persisted iteration, no deactivation of the row's device has
      happened, and the iterations so far stored what they drew. */
  ghost predicate Running(pm: LPM.ProcessManager, txs: TransactionTable, deviceId: DeviceId, deviceType: string,
                          processId: ProcessId, k: nat, rows0: seq<ProcessRow>, txs0: seq<TransactionRow>,
                          ticks: seq<Tick>, n: nat)
    reads pm, txs
  {
    && pm.Valid() && txs.Valid()
    && n <= |ticks| && ValidTicks(deviceType, ticks) && deviceId in pm.devices
    && k < |rows0| == |pm.processes| && pm.processes[k].id == processId && pm.processes[k].deviceId == rows0[k].deviceId
    && (rows0[k].deviceId == deviceId ==> forall i :: 0 <= i < n ==> !ticks[i].stopFirst)
    && (n == 0 ==> pm.processes[k] == rows0[k])
    && (n > 0 ==> IsOpen(pm.processes[k]))
    && (n > 0 && ticks[n - 1].persist == Persisted ==> pm.processes[k].lastHeartbeatAt == ticks[n - 1].now)
    && |txs.rows| >= |txs0| && txs.rows[..|txs0|] == txs0
    && AsRequests(txs.rows[|txs0|..]) == Requests(deviceId, deviceType, ticks[..n])
  }

  /** One turn of the `while (true)` loop: the web server may deactivate
      the device, then the worker re-reads its row and either finds it
      stopped, which ends the loop, or stores one event. */
  method Round(pm: LPM.ProcessManager, txs: TransactionTable, deviceId: DeviceId, deviceType: string,
               processId: ProcessId, k: nat, ghost rows0: seq<ProcessRow>, ghost txs0: seq<TransactionRow>,
               ticks: seq<Tick>, n: nat) returns (stopped: bool)
    requires Running(pm, txs, deviceId, deviceType, processId, k, rows0, txs0, ticks, n) && n < |ticks|
    modifies pm, txs
    ensures stopped ==> pm.Valid() && txs.Valid() && deviceId in pm.devices && txs.rows == old(txs.rows)
    ensures stopped ==> k < |pm.processes| && pm.processes[k].id == processId
    ensures stopped ==> ticks[n].stopFirst || (n == 0 && !IsOpen(rows0[k]))
    ensures !stopped ==> Running(pm, txs, deviceId, deviceType, processId, k, rows0, txs0, ticks, n + 1)
  {
    var tick := ticks[n];
    if tick.stopFirst {
      DeactivateBetween(pm, deviceId, k, tick.now);
    }
    if pm.processes[k].stoppedAt.Some? {
      return true;
    }
    ghost var before := txs.rows;
    var added := StoreEvent(pm, txs, deviceId, deviceType, processId, k, tick);
    StoredSnoc(before, txs0, added, deviceId, deviceType, ticks, n);
    return false;
  }

  /** The `while (true)` loop, until the row is found stopped (`stopped`,
      after `n` full turns) or the input runs out. */
  method Loop(pm: LPM.ProcessManager, txs: TransactionTable, deviceId: DeviceId, deviceType: string,
              processId: ProcessId, k: nat, ghost rows0: seq<ProcessRow>, ghost txs0: seq<TransactionRow>,
              ticks: seq<Tick>) returns (stopped: bool, n: nat)
    requires Running(pm, txs, deviceId, deviceType, processId, k, rows0, txs0, ticks, 0)
    modifies pm, txs
    ensures pm.Valid() && txs.Valid() && deviceId in pm.devices && n <= |ticks|
    ensures k < |pm.processes| && pm.processes[k].id == processId
    ensures rows0[k].deviceId == deviceId ==> forall i :: 0 <= i < n ==> !ticks[i].stopFirst
    ensures |txs.rows| >= |txs0| && txs.rows[..|txs0|] == txs0
    ensures AsRequests(txs.rows[|txs0|..]) == Requests(deviceId, deviceType, ticks[..n])
    ensures stopped ==> n < |ticks| && (ticks[n].stopFirst || (n == 0 && !IsOpen(rows0[k])))
    ensures !stopped ==> n == |ticks|
    ensures !stopped && n > 0 && ticks[n - 1].persist == Persisted ==> IsLive(pm.processes[k], ticks[n - 1].now)
  {
    n := 0;
    stopped := false;
    while n < |ticks|
      invariant Running(pm, txs, deviceId, deviceType, processId, k, rows0, txs0, ticks, n) && !stopped
      decreases |ticks| - n
    {
      stopped := Round(pm, txs, deviceId, deviceType, processId, k, rows0, txs0, ticks, n);
      if stopped {
        return;
      }
      n := n + 1;
    }
  }

  /** handle: look the device and the row up (FAILURE if either is
      missing), then loop: re-read the row, leave the loop once it is
      stopped, otherwise sleep, build an event, store it and bump the row's
      heartbeat, a failure of either write being caught and logged; after
      the loop report the exit to the ProcessManager. The row keeps its
      position in the table, since rows are never deleted. */
  method Handle(pm: LPM.ProcessManager, txs: TransactionTable, deviceId: DeviceId, processId: ProcessId, ticks: seq<Tick>)
    returns (outcome: Outcome, n: nat)
    requires pm.Valid() && txs.Valid()
    requires deviceId in pm.devices ==> ValidTicks(pm.devices[deviceId].deviceType, ticks)
    modifies pm, txs
    ensures pm.Valid() && txs.Valid()
    ensures outcome == DeviceMissing <==> deviceId !in old(pm.devices)
    ensures outcome == ProcessMissing <==> deviceId in old(pm.devices) && FindProcess(old(pm.processes), processId).None?
    ensures outcome == DeviceMissing || outcome == ProcessMissing ==>
      pm.Snapshot() == old(pm.Snapshot()) && txs.rows == old(txs.rows) && n == 0
    ensures n <= |ticks|
    ensures RowOn(old(pm.processes), processId, deviceId) ==> forall i :: 0 <= i < n ==> !ticks[i].stopFirst
    ensures outcome == StillRunning ==> n == |ticks|
    ensures outcome == Exited ==> n < |ticks| && (ticks[n].stopFirst || (n == 0 && RowStopped(old(pm.processes), processId)))
    ensures outcome == Exited ==> RowStopped(pm.processes, processId)
    ensures outcome == Exited && !HasLive(pm.processes, deviceId, ticks[n].now) ==>
      deviceId in pm.devices && pm.devices[deviceId].status == Inactive
    ensures RowOn(old(pm.processes), processId, deviceId) && (exists i :: 0 <= i < |ticks| && ticks[i].stopFirst) ==>
      outcome == Exited
    ensures |txs.rows| >= |old(txs.rows)| && txs.rows[..|old(txs.rows)|] == old(txs.rows)
    ensures deviceId in old(pm.devices) ==>
      AsRequests(txs.rows[|old(txs.rows)|..]) == Requests(deviceId, old(pm.devices)[deviceId].deviceType, ticks[..n])
    ensures outcome == StillRunning && n > 0 && ticks[n - 1].persist == Persisted ==>
      exists i :: 0 <= i < |pm.processes| && pm.processes[i].id == processId && IsLive(pm.processes[i], ticks[n - 1].now)
  {
    if deviceId !in pm.devices {
      assert !RowOn(pm.processes, processId, deviceId);
      return DeviceMissing, 0;
    }
    var device := pm.devices[deviceId];
    var found := FindProcess(pm.processes, processId);
    if found.None? {
      assert !RowOn(pm.processes, processId, deviceId);
      return ProcessMissing, 0;
    }
    var k := found.value;
    ghost var rows0 := pm.processes;
    ghost var txs0 := txs.rows;
    assert RowOn(rows0, processId, deviceId) ==> rows0[k].deviceId == deviceId;
    var stopped: bool;
    stopped, n := Loop(pm, txs, deviceId, device.deviceType, processId, k, rows0, txs0, ticks);
    if stopped {
      ReportExit(pm, deviceId, processId, k, ticks[n].now);
      outcome := Exited;
    } else {
      outcome := StillRunning;
    }
  }
}

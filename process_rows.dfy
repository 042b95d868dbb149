/** The bulk `UPDATE device_processes ... WHERE ...` statements of both
    lifecycle managers and the lookups they rely on, as functions over the
    table's rows in storage order. */
module ProcessRows {
  import opened Wrappers
  import opened Records

  /** A row whose worker has not been marked stopped (`stopped_at IS NULL`). */
  predicate IsOpen(p: ProcessRow) {
    p.stoppedAt.None?
  }

  /** `WHERE device_id = d AND stopped_at IS NULL`. */
  predicate OpenRowOf(p: ProcessRow, d: DeviceId) {
    p.deviceId == d && IsOpen(p)
  }

  /** Some row of device `d` is open (`findOne({device_id, stopped_at: null})`). */
  predicate HasOpenRow(rows: seq<ProcessRow>, d: DeviceId) {
    exists i :: 0 <= i < |rows| && OpenRowOf(rows[i], d)
  }

  /** Two tables hold the same rows up to their mutable columns: same
      length, same primary key and device at every position. */
  predicate SameKeys(rows: seq<ProcessRow>, rows': seq<ProcessRow>) {
    && |rows| == |rows'|
    && forall i :: 0 <= i < |rows| ==> rows'[i].id == rows[i].id && rows'[i].deviceId == rows[i].deviceId
  }

  /** Every row satisfying `matches` replaced by `update` of it. */
  function UpdateWhere(rows: seq<ProcessRow>, matches: ProcessRow -> bool, update: ProcessRow -> ProcessRow): (r: seq<ProcessRow>)
    ensures |r| == |rows|
    ensures forall i :: 0 <= i < |rows| ==> r[i] == if matches(rows[i]) then update(rows[i]) else rows[i]
  {
    seq(|rows|, i requires 0 <= i < |rows| => if matches(rows[i]) then update(rows[i]) else rows[i])
  }

  /** `stopped_at = now` on every open row of device `d`
      (markDeviceInactive in both variants, the Express exit handler). */
  function StopOpenRowsOf(rows: seq<ProcessRow>, d: DeviceId, now: int): (r: seq<ProcessRow>)
    ensures |r| == |rows|
    ensures SameKeys(rows, r)
    ensures !HasOpenRow(r, d)
    ensures forall i :: 0 <= i < |rows| && OpenRowOf(rows[i], d) ==> r[i] == rows[i].(stoppedAt := Some(now))
    ensures forall i :: 0 <= i < |rows| && !OpenRowOf(rows[i], d) ==> r[i] == rows[i]
  {
    UpdateWhere(rows, (p: ProcessRow) => OpenRowOf(p, d), (p: ProcessRow) => p.(stoppedAt := Some(now)))
  }

  /** `stopped_at = now` on the row `id` if it is still open (Laravel handleWorkerExit). */
  function StopOpenRowById(rows: seq<ProcessRow>, id: ProcessId, now: int): (r: seq<ProcessRow>)
    ensures |r| == |rows|
    ensures SameKeys(rows, r)
    ensures forall i :: 0 <= i < |rows| && rows[i].id == id ==> r[i].stoppedAt.Some?
    ensures forall i :: 0 <= i < |rows| && rows[i].id == id && IsOpen(rows[i]) ==> r[i] == rows[i].(stoppedAt := Some(now))
    ensures forall i :: 0 <= i < |rows| && (rows[i].id != id || !IsOpen(rows[i])) ==> r[i] == rows[i]
  {
    UpdateWhere(rows, (p: ProcessRow) => p.id == id && IsOpen(p), (p: ProcessRow) => p.(stoppedAt := Some(now)))
  }

  /** `last_heartbeat_at = now` on the row `id`, stopped or not
      (the Laravel worker's `$process->save()`). */
  function SetHeartbeatById(rows: seq<ProcessRow>, id: ProcessId, now: int): (r: seq<ProcessRow>)
    ensures |r| == |rows|
    ensures SameKeys(rows, r)
    ensures forall i :: 0 <= i < |rows| && rows[i].id == id ==> r[i] == rows[i].(lastHeartbeatAt := now)
    ensures forall i :: 0 <= i < |rows| && rows[i].id != id ==> r[i] == rows[i]
  {
    UpdateWhere(rows, (p: ProcessRow) => p.id == id, (p: ProcessRow) => p.(lastHeartbeatAt := now))
  }

  /** `pid = pid` on the row `id` (launchWorker's update after the start). */
  function SetPidById(rows: seq<ProcessRow>, id: ProcessId, pid: string): (r: seq<ProcessRow>)
    ensures SameKeys(rows, r)
    ensures forall i :: 0 <= i < |rows| && rows[i].id == id ==> r[i] == rows[i].(pid := pid)
    ensures forall i :: 0 <= i < |rows| && rows[i].id != id ==> r[i] == rows[i]
  {
    UpdateWhere(rows, (p: ProcessRow) => p.id == id, (p: ProcessRow) => p.(pid := pid))
  }

  /** `last_heartbeat_at = now` on every open row of device `d`
      (the Express message handler's heartbeat bump). */
  function BumpOpenHeartbeatsOf(rows: seq<ProcessRow>, d: DeviceId, now: int): (r: seq<ProcessRow>)
    ensures |r| == |rows|
    ensures SameKeys(rows, r)
    ensures forall i :: 0 <= i < |rows| && OpenRowOf(rows[i], d) ==> r[i] == rows[i].(lastHeartbeatAt := now)
    ensures forall i :: 0 <= i < |rows| && !OpenRowOf(rows[i], d) ==> r[i] == rows[i]
  {
    UpdateWhere(rows, (p: ProcessRow) => OpenRowOf(p, d), (p: ProcessRow) => p.(lastHeartbeatAt := now))
  }

  /** The position of the row with primary key `id` (`DeviceProcess::find`). */
  function FindProcess(rows: seq<ProcessRow>, id: ProcessId): (r: Option<nat>)
    ensures r.Some? ==> r.value < |rows| && rows[r.value].id == id
    ensures r.None? ==> forall i :: 0 <= i < |rows| ==> rows[i].id != id
  {
    if rows == [] then None
    else if rows[|rows| - 1].id == id then Some(|rows| - 1)
    else FindProcess(rows[..|rows| - 1], id)
  }

  /** Stopping the open rows of a device is idempotent: a second
      markDeviceInactive finds nothing left to stop. */
  lemma StopOpenRowsOfIdempotent(rows: seq<ProcessRow>, d: DeviceId, now: int, later: int)
    ensures StopOpenRowsOf(StopOpenRowsOf(rows, d, now), d, later) == StopOpenRowsOf(rows, d, now)
  {
  }

  /** Primary keys are unique when they strictly increase in storage order, as
      the counter that hands them out guarantees. */
  ghost predicate IdsIncreasing(rows: seq<ProcessRow>) {
    forall i, j :: 0 <= i < j < |rows| ==> rows[i].id < rows[j].id
  }

  /** The table's keys are below the next key to hand out and increase in
      storage order, and every row belongs to a known device. */
  ghost predicate WellKeyed(rows: seq<ProcessRow>, nextId: nat, deviceIds: set<DeviceId>) {
    && (forall i :: 0 <= i < |rows| ==> rows[i].id < nextId && rows[i].deviceId in deviceIds)
    && IdsIncreasing(rows)
  }

  /** With unique keys the row `FindProcess` locates is the only one with that key. */
  lemma FindProcessUnique(rows: seq<ProcessRow>, id: ProcessId, k: nat)
    requires IdsIncreasing(rows)
    requires k < |rows| && rows[k].id == id
    ensures FindProcess(rows, id) == Some(k)
  {
  }

  /** Appending a row whose key is above every stored key keeps keys increasing. */
  lemma AppendFreshKey(rows: seq<ProcessRow>, p: ProcessRow)
    requires IdsIncreasing(rows)
    requires forall i :: 0 <= i < |rows| ==> rows[i].id < p.id
    ensures IdsIncreasing(rows + [p])
  {
  }

  /** Rewriting mutable columns keeps the table well keyed. */
  lemma WellKeyedSameKeys(rows: seq<ProcessRow>, rows': seq<ProcessRow>, nextId: nat, deviceIds: set<DeviceId>)
    requires WellKeyed(rows, nextId, deviceIds) && SameKeys(rows, rows')
    ensures WellKeyed(rows', nextId, deviceIds)
  {
  }

  /** Appending a row with the next key of a known device keeps the table
      well keyed under the bumped counter. */
  lemma WellKeyedAppend(rows: seq<ProcessRow>, p: ProcessRow, nextId: nat, deviceIds: set<DeviceId>)
    requires WellKeyed(rows, nextId, deviceIds)
    requires p.id == nextId && p.deviceId in deviceIds
    ensures WellKeyed(rows + [p], nextId + 1, deviceIds)
  {
  }

  /** Row `pid`, if it exists, belongs to device `d`. */
  ghost predicate RowOf(rows: seq<ProcessRow>, pid: ProcessId, d: DeviceId) {
    forall i :: 0 <= i < |rows| && rows[i].id == pid ==> rows[i].deviceId == d
  }

  /** Rewriting mutable columns keeps every row on its device. */
  lemma RowOfSameKeys(rows: seq<ProcessRow>, rows': seq<ProcessRow>, pid: ProcessId, d: DeviceId)
    requires RowOf(rows, pid, d) && SameKeys(rows, rows')
    ensures RowOf(rows', pid, d)
  {
    forall i | 0 <= i < |rows'| && rows'[i].id == pid ensures rows'[i].deviceId == d {
      assert rows[i].id == pid;
    }
  }
}

/** device_status_history as an audit log of status flips. Both lifecycle
    managers write a row only when a device's status actually changes; the
    invariant `Explains` captures that: replaying the rows of each device,
    starting from the `inactive` status every device is created with, yields
    the device's current status. */
module StatusHistory {
  import opened Wrappers
  import opened Records

  /** The rows of device `d`, oldest first. */
  function HistoryOf(history: seq<HistoryRow>, d: DeviceId): seq<HistoryRow> {
    if history == [] then []
    else
      var last := history[|history| - 1];
      HistoryOf(history[..|history| - 1], d) + (if last.deviceId == d then [last] else [])
  }

  /** The status reached by applying `rows` to `start`, or None when some row
      does not start from the status before it or does not change it. */
  function Replay(start: Status, rows: seq<HistoryRow>): Option<Status> {
    if rows == [] then Some(start)
    else
      var last := rows[|rows| - 1];
      match Replay(start, rows[..|rows| - 1])
      case Some(s) => if last.oldStatus == s && last.newStatus != s then Some(last.newStatus) else None
      case None => None
  }

  /** The log accounts for every device's status and mentions no unknown device. */
  ghost predicate Explains(devices: map<DeviceId, Device>, history: seq<HistoryRow>) {
    && (forall i :: 0 <= i < |history| ==> history[i].deviceId in devices)
    && (forall d {:trigger HistoryOf(history, d)} :: d in devices ==> Replay(Inactive, HistoryOf(history, d)) == Some(devices[d].status))
  }

  /** Appending a row touches only its own device's log. */
  lemma HistoryOfAppend(history: seq<HistoryRow>, row: HistoryRow, d: DeviceId)
    ensures HistoryOf(history + [row], d) == HistoryOf(history, d) + (if row.deviceId == d then [row] else [])
  {
    assert (history + [row])[..|history|] == history;
  }

  /** A device nobody has logged anything for has an empty log. */
  lemma {:induction false} HistoryOfUnmentioned(history: seq<HistoryRow>, d: DeviceId)
    requires forall i :: 0 <= i < |history| ==> history[i].deviceId != d
    ensures HistoryOf(history, d) == []
  {
    if history != [] {
      HistoryOfUnmentioned(history[..|history| - 1], d);
    }
  }

  /** Recording a genuine flip of `d` and setting its status keeps the log in
      step with the catalog. */
  lemma RecordFlip(devices: map<DeviceId, Device>, history: seq<HistoryRow>, d: DeviceId, newStatus: Status, reason: string, at: int)
    requires Explains(devices, history)
    requires d in devices && devices[d].status != newStatus
    ensures Explains(devices[d := devices[d].(status := newStatus)],
                     history + [HistoryRow(d, devices[d].status, newStatus, reason, at)])
  {
    var row := HistoryRow(d, devices[d].status, newStatus, reason, at);
    var devices' := devices[d := devices[d].(status := newStatus)];
    var history' := history + [row];
    forall i | 0 <= i < |history'| ensures history'[i].deviceId in devices' {
      if i < |history| {
        assert history'[i] == history[i];
      }
    }
    HistoryOfAppend(history, row, d);
    var rows := HistoryOf(history', d);
    assert rows[..|rows| - 1] == HistoryOf(history, d);
    assert Replay(Inactive, rows) == Some(newStatus);
    forall e | e in devices' ensures Replay(Inactive, HistoryOf(history', e)) == Some(devices'[e].status) {
      if e != d {
        HistoryOfAppend(history, row, e);
        assert HistoryOf(history, e) + [] == HistoryOf(history, e);
        assert e in devices && devices'[e] == devices[e];
        assert Replay(Inactive, HistoryOf(history, e)) == Some(devices[e].status);
      } else {
        assert devices'[e].status == newStatus;
      }
    }
  }

  /** A device added to the catalog with status inactive and no log keeps the
      log in step. */
  lemma AddInactiveDevice(devices: map<DeviceId, Device>, history: seq<HistoryRow>, d: DeviceId, device: Device)
    requires Explains(devices, history)
    requires d !in devices && device.status == Inactive
    ensures Explains(devices[d := device], history)
  {
    HistoryOfUnmentioned(history, d);
  }

  /** A log that replays is a sequence of genuine flips, each starting where the
      previous one ended: no row records a non-transition and no two
      consecutive rows record the same flip. */
  lemma {:induction false} ReplayedLogAlternates(start: Status, rows: seq<HistoryRow>)
    requires Replay(start, rows).Some?
    ensures forall i :: 0 <= i < |rows| ==> rows[i].oldStatus != rows[i].newStatus
    ensures forall i :: 0 < i < |rows| ==> rows[i].oldStatus == rows[i - 1].newStatus
    ensures rows != [] ==> rows[0].oldStatus == start
    ensures rows != [] ==> Replay(start, rows) == Some(rows[|rows| - 1].newStatus)
  {
    if rows != [] {
      var prefix := rows[..|rows| - 1];
      ReplayedLogAlternates(start, prefix);
      assert forall i :: 0 <= i < |prefix| ==> rows[i] == prefix[i];
    }
  }

  /** The catalog after `device.status = s` on `d`, when `d` exists. */
  function SetStatus(devices: map<DeviceId, Device>, d: DeviceId, s: Status): (r: map<DeviceId, Device>)
    ensures r.Keys == devices.Keys
    ensures d in devices ==> r[d] == devices[d].(status := s)
    ensures forall e :: e in devices && e != d ==> r[e] == devices[e]
  {
    if d in devices then devices[d := devices[d].(status := s)] else devices
  }

  /** The history rows a status write on `d` adds: one, from the old status
      to `s`, exactly when `d` exists and its status is not already `s`. */
  function FlipRows(devices: map<DeviceId, Device>, d: DeviceId, s: Status, reason: string, at: int): (r: seq<HistoryRow>)
    ensures |r| <= 1
    ensures r != [] <==> d in devices && devices[d].status != s
    ensures r != [] ==> r[0] == HistoryRow(d, devices[d].status, s, reason, at)
  {
    if d in devices && devices[d].status != s then [HistoryRow(d, devices[d].status, s, reason, at)] else []
  }

  /** A guarded status write with its audit row keeps the log in step. */
  lemma SetStatusKeepsExplains(devices: map<DeviceId, Device>, history: seq<HistoryRow>, d: DeviceId, s: Status, reason: string, at: int)
    requires Explains(devices, history)
    ensures Explains(SetStatus(devices, d, s), history + FlipRows(devices, d, s, reason, at))
  {
    if d in devices && devices[d].status != s {
      RecordFlip(devices, history, d, s, reason, at);
    } else {
      assert history + FlipRows(devices, d, s, reason, at) == history;
      if d in devices {
        assert SetStatus(devices, d, s) == devices;
      }
    }
  }

  /** Writing the same status twice writes nothing the second time. */
  lemma SetStatusIdempotent(devices: map<DeviceId, Device>, d: DeviceId, s: Status, reason: string, at: int)
    ensures SetStatus(SetStatus(devices, d, s), d, s) == SetStatus(devices, d, s)
    ensures FlipRows(SetStatus(devices, d, s), d, s, reason, at) == []
  {
  }
}

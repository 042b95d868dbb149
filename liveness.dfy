/** The Laravel variant's liveness rule: a process row is live while it is
    open and its heartbeat is at most HEARTBEAT_WINDOW_SECONDS old
    (`activeProcessQuery`), and the listing's `liveActiveDeviceIds`. */
module Liveness {
  import opened Wrappers
  import opened Records
  import opened ProcessRows

  const HeartbeatWindowSeconds: int := 10

  /** `whereNull('stopped_at')->where('last_heartbeat_at', '>=', now - 10s)`. */
  predicate IsLive(p: ProcessRow, now: int) {
    IsOpen(p) && p.lastHeartbeatAt >= now - HeartbeatWindowSeconds
  }

  /** `activeProcessQuery()->where('device_id', $d)` is non-empty. */
  predicate HasLive(rows: seq<ProcessRow>, d: DeviceId, now: int) {
    exists i :: 0 <= i < |rows| && rows[i].deviceId == d && IsLive(rows[i], now)
  }

  /** `activeProcessQuery()->where('device_id', $d)->first()`. */
  function FirstLive(rows: seq<ProcessRow>, d: DeviceId, now: int): (r: Option<ProcessRow>)
    ensures r.Some? <==> HasLive(rows, d, now)
    ensures r.Some? ==> r.value in rows && r.value.deviceId == d && IsLive(r.value, now)
  {
    if rows == [] then None
    else if rows[0].deviceId == d && IsLive(rows[0], now) then Some(rows[0])
    else
      var r := FirstLive(rows[1..], d, now);
      assert HasLive(rows, d, now) ==> HasLive(rows[1..], d, now) by {
        if HasLive(rows, d, now) {
          var i :| 0 <= i < |rows| && rows[i].deviceId == d && IsLive(rows[i], now);
          assert i != 0;
          assert rows[1..][i - 1] == rows[i];
        }
      }
      r
  }

  /** `activeProcessQuery()->pluck('device_id')`: the device of every live row. */
  function LiveDeviceIds(rows: seq<ProcessRow>, now: int): (r: seq<DeviceId>)
    ensures forall d :: d in r <==> HasLive(rows, d, now)
  {
    if rows == [] then []
    else
      var last := rows[|rows| - 1];
      var prefix := LiveDeviceIds(rows[..|rows| - 1], now);
      HasLiveSnoc(rows, now);
      if IsLive(last, now) then prefix + [last.deviceId] else prefix
  }

  /** Liveness of a device over the table split into all but the last row and the last row. */
  lemma HasLiveSnoc(rows: seq<ProcessRow>, now: int)
    requires rows != []
    ensures forall d :: HasLive(rows, d, now) <==>
      HasLive(rows[..|rows| - 1], d, now) || (rows[|rows| - 1].deviceId == d && IsLive(rows[|rows| - 1], now))
  {
    var prefix := rows[..|rows| - 1];
    forall d ensures HasLive(rows, d, now) ==> HasLive(prefix, d, now) || (rows[|rows| - 1].deviceId == d && IsLive(rows[|rows| - 1], now)) {
      if HasLive(rows, d, now) {
        var i :| 0 <= i < |rows| && rows[i].deviceId == d && IsLive(rows[i], now);
        if i < |rows| - 1 {
          assert prefix[i] == rows[i];
        }
      }
    }
    forall d | HasLive(prefix, d, now) ensures HasLive(rows, d, now) {
      var i :| 0 <= i < |prefix| && prefix[i].deviceId == d && IsLive(prefix[i], now);
      assert rows[i] == prefix[i];
    }
  }

  /** No value occurs twice. */
  ghost predicate NoDuplicates<T>(s: seq<T>) {
    forall i, j :: 0 <= i < j < |s| ==> s[i] != s[j]
  }

  /** Laravel's `->unique()->values()`: the same values, each once. The
      caller only tests membership, so the order kept is not stated. */
  function Unique(s: seq<DeviceId>): (r: seq<DeviceId>)
    ensures forall x :: x in r <==> x in s
    ensures NoDuplicates(r)
  {
    if s == [] then []
    else
      var prefix := s[..|s| - 1];
      var last := s[|s| - 1];
      assert s == prefix + [last];
      if last in prefix then Unique(prefix) else Unique(prefix) + [last]
  }

  /** The ids of the devices that currently have a live process, each once. */
  function LiveActiveDeviceIds(rows: seq<ProcessRow>, now: int): (r: seq<DeviceId>)
    ensures forall d :: d in r <==> HasLive(rows, d, now)
    ensures NoDuplicates(r)
  {
    Unique(LiveDeviceIds(rows, now))
  }

  /** How many live rows device `d` has. */
  function LiveCount(rows: seq<ProcessRow>, d: DeviceId, now: int): nat {
    if rows == [] then 0
    else LiveCount(rows[..|rows| - 1], d, now) + (if rows[|rows| - 1].deviceId == d && IsLive(rows[|rows| - 1], now) then 1 else 0)
  }

  /** A device without a live row has a live count of zero. */
  lemma {:induction false} NoLiveMeansZero(rows: seq<ProcessRow>, d: DeviceId, now: int)
    requires !HasLive(rows, d, now)
    ensures LiveCount(rows, d, now) == 0
  {
    if rows != [] {
      var prefix := rows[..|rows| - 1];
      NoLiveMeansZero(prefix, d, now);
    }
  }

  /** Activation only adds a row when the device has no live one, so right
      after it the device has exactly one live process. */
  lemma StartLeavesExactlyOneLive(rows: seq<ProcessRow>, p: ProcessRow, now: int)
    requires !HasLive(rows, p.deviceId, now)
    requires IsOpen(p) && p.lastHeartbeatAt == now
    ensures LiveCount(rows + [p], p.deviceId, now) == 1
  {
    assert (rows + [p])[..|rows|] == rows;
    NoLiveMeansZero(rows, p.deviceId, now);
  }
}

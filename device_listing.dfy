/** `Device.findAll` / `Device::get()` ordered by `created_at` descending and
    annotated with `live_active`: the device listing both servers answer
    GET /devices with. Only the rule deciding `live_active` differs. */
module DeviceListing {
  import opened Records
  import opened Ordering

  /** One entry of the listing: the device's columns and `live_active`. */
  datatype Listing = Listing(id: DeviceId, device: Device, liveActive: bool)

  /** The ordering key of `ORDER BY created_at DESC`. */
  function CreatedAt(e: (DeviceId, Device)): int {
    e.1.createdAt
  }

  function ListingCreatedAt(l: Listing): int {
    l.device.createdAt
  }

  /** The ids a table scan produced. */
  ghost function Ids(rows: seq<(DeviceId, Device)>): set<DeviceId> {
    set i | 0 <= i < |rows| :: rows[i].0
  }

  /** Every row is the table's row under its key. */
  ghost predicate RowsOf(rows: seq<(DeviceId, Device)>, devices: map<DeviceId, Device>) {
    forall i :: 0 <= i < |rows| ==> rows[i].0 in devices && devices[rows[i].0] == rows[i].1
  }

  /** A full scan of the devices table, in whatever order the table yields. */
  method Scan(devices: map<DeviceId, Device>) returns (rows: seq<(DeviceId, Device)>)
    ensures |rows| == |devices| && Ids(rows) == devices.Keys && RowsOf(rows, devices)
  {
    rows := [];
    var left := devices.Keys;
    while left != {}
      invariant Ids(rows) + left == devices.Keys && Ids(rows) !! left
      invariant |rows| + |left| == |devices|
      invariant RowsOf(rows, devices)
      decreases left
    {
      var id :| id in left;
      ScanSnoc(rows, id, devices);
      rows := rows + [(id, devices[id])];
      left := left - {id};
    }
  }

  /** `->map(fn ($device) => [...$device->toArray(), 'live_active' => ...])`. */
  function Annotate(rows: seq<(DeviceId, Device)>, live: DeviceId -> bool): (r: seq<Listing>)
    ensures |r| == |rows|
    ensures forall i :: 0 <= i < |rows| ==> r[i] == Listing(rows[i].0, rows[i].1, live(rows[i].0))
  {
    seq(|rows|, i requires 0 <= i < |rows| => Listing(rows[i].0, rows[i].1, live(rows[i].0)))
  }

  /** What a listing promises: one entry per device, each carrying the
      device's row, newest first, `live_active` as `live` says. */
  ghost predicate ListsAll(r: seq<Listing>, devices: map<DeviceId, Device>, live: DeviceId -> bool) {
    && |r| == |devices|
    && (forall i :: 0 <= i < |r| ==> r[i].id in devices && r[i].device == devices[r[i].id] && (r[i].liveActive <==> live(r[i].id)))
    && (forall id :: id in devices ==> exists i :: 0 <= i < |r| && r[i].id == id)
    && SortedDesc(r, ListingCreatedAt)
  }

  /** listDevices: scan the table, sort it newest first, annotate it. */
  method ListDevices(devices: map<DeviceId, Device>, live: DeviceId -> bool) returns (r: seq<Listing>)
    ensures ListsAll(r, devices, live)
  {
    var rows := Scan(devices);
    var sorted := SortDesc(rows, CreatedAt);
    SortedKeepsRows(rows, sorted, devices);
    r := Annotate(sorted, live);
    AnnotateLists(sorted, devices, live);
  }

  /** Annotating a sorted scan of every row lists every device. */
  lemma AnnotateLists(sorted: seq<(DeviceId, Device)>, devices: map<DeviceId, Device>, live: DeviceId -> bool)
    requires |sorted| == |devices| && Ids(sorted) == devices.Keys && RowsOf(sorted, devices)
    requires SortedDesc(sorted, CreatedAt)
    ensures ListsAll(Annotate(sorted, live), devices, live)
  {
    var r := Annotate(sorted, live);
    forall id | id in devices ensures exists i :: 0 <= i < |r| && r[i].id == id {
      var i :| 0 <= i < |sorted| && sorted[i].0 == id;
      assert r[i].id == id;
    }
    forall i, j | 0 <= i < j < |r| ensures ListingCreatedAt(r[i]) >= ListingCreatedAt(r[j]) {
      assert CreatedAt(sorted[i]) >= CreatedAt(sorted[j]);
    }
  }

  /** One more row of the table, not scanned yet. */
  lemma ScanSnoc(rows: seq<(DeviceId, Device)>, id: DeviceId, devices: map<DeviceId, Device>)
    requires id in devices && RowsOf(rows, devices)
    ensures Ids(rows + [(id, devices[id])]) == Ids(rows) + {id}
    ensures RowsOf(rows + [(id, devices[id])], devices)
  {
    var rows' := rows + [(id, devices[id])];
    assert rows'[|rows|].0 == id;
    forall x | x in Ids(rows) ensures x in Ids(rows') {
      var i :| 0 <= i < |rows| && rows[i].0 == x;
      assert rows'[i] == rows[i];
    }
  }

  /** Reordering the scan keeps its rows and its ids. */
  lemma SortedKeepsRows(rows: seq<(DeviceId, Device)>, sorted: seq<(DeviceId, Device)>, devices: map<DeviceId, Device>)
    requires multiset(sorted) == multiset(rows) && RowsOf(rows, devices)
    ensures RowsOf(sorted, devices) && Ids(sorted) == Ids(rows)
  {
    forall i | 0 <= i < |sorted| ensures sorted[i] in rows {
      assert sorted[i] in multiset(rows);
    }
    forall x | x in Ids(rows) ensures x in Ids(sorted) {
      var i :| 0 <= i < |rows| && rows[i].0 == x;
      assert rows[i] in multiset(sorted);
      var j :| 0 <= j < |sorted| && sorted[j] == rows[i];
    }
  }
}

/** The transactions table both variants' TransactionService write to and
    list from: `createTransaction` fills in defaults, `listTransactions`
    filters, orders by timestamp descending and limits. */
module Transactions {
  import opened Wrappers
  import opened Records
  import opened EventCatalog
  import opened Ordering

  /** What a caller hands to createTransaction; absent fields are None. */
  datatype NewTransaction = NewTransaction(
    deviceId: DeviceId,
    username: Option<string>,
    eventType: string,
    timestamp: Option<int>,
    payload: Option<Payload>)

  /** A transactions row. */
  datatype TransactionRow = TransactionRow(
    transactionId: nat,
    deviceId: DeviceId,
    username: Option<string>,
    eventType: string,
    timestamp: int,
    payload: Option<Payload>,
    createdAt: int)

  /** How a worker's `try` block around storing an event ends: both writes
      succeed, `createTransaction` throws, or the heartbeat update after it
      throws, leaving the transaction stored. */
  datatype Persist = Persisted | CreateFailed | BumpFailed

  /** The ordering key of the listing. */
  function TimestampOf(t: TransactionRow): int {
    t.timestamp
  }

  /** The table; transaction ids come from a counter, standing for UUIDs. */
  class TransactionTable {
    var rows: seq<TransactionRow>
    var nextId: nat

    /** Every stored id is below the counter, so the next one is fresh. */
    ghost predicate Valid()
      reads this
    {
      forall i :: 0 <= i < |rows| ==> rows[i].transactionId < nextId
    }

    constructor ()
      ensures Valid() && rows == []
    {
      rows := [];
      nextId := 0;
    }

    /** createTransaction: `username` and `payload` default to null, `timestamp`
        to the current time; `created_at` is the current time. */
    method CreateTransaction(t: NewTransaction, now: int) returns (row: TransactionRow)
      requires Valid()
      modifies this
      ensures Valid()
      ensures rows == old(rows) + [row]
      ensures forall i :: 0 <= i < |old(rows)| ==> old(rows)[i].transactionId != row.transactionId
      ensures row.deviceId == t.deviceId && row.eventType == t.eventType
      ensures row.username == t.username && row.payload == t.payload
      ensures row.timestamp == t.timestamp.GetOr(now) && row.createdAt == now
    {
      row := TransactionRow(nextId, t.deviceId, t.username, t.eventType, t.timestamp.GetOr(now), t.payload, now);
      rows := rows + [row];
      nextId := nextId + 1;
    }
  }

  /** Which server's listing rules apply. */
  datatype Variant = Laravel | Express

  /** Whether a filter value restricts the listing. Laravel tests
      `! empty($v)`, which also treats the string "0" as absent; Express tests
      JavaScript truthiness, which only drops "" and undefined. */
  predicate Applies(v: Variant, filter: Option<string>) {
    match filter
    case None => false
    case Some(s) => if v == Laravel then PhpTruthy(s) else JsTruthy(s)
  }

  /** A row passes the device and event-type filters that apply. */
  predicate Matches(v: Variant, t: TransactionRow, deviceFilter: Option<string>, eventFilter: Option<string>) {
    && (Applies(v, deviceFilter) ==> t.deviceId == deviceFilter.value)
    && (Applies(v, eventFilter) ==> t.eventType == eventFilter.value)
  }

  /** The `WHERE` clause. */
  function Filter(v: Variant, rows: seq<TransactionRow>, deviceFilter: Option<string>, eventFilter: Option<string>): (r: seq<TransactionRow>)
    ensures forall t :: t in r <==> t in rows && Matches(v, t, deviceFilter, eventFilter)
    ensures multiset(r) <= multiset(rows)
  {
    if rows == [] then []
    else
      var prefix := rows[..|rows| - 1];
      var last := rows[|rows| - 1];
      assert rows == prefix + [last];
      Filter(v, prefix, deviceFilter, eventFilter) + (if Matches(v, last, deviceFilter, eventFilter) then [last] else [])
  }

  /** The `LIMIT`, or None for none. Both servers default to 100; Laravel's
      query builder drops a negative limit, and a negative Express limit is
      taken the same way. */
  function EffectiveLimit(limit: Option<int>): Option<nat> {
    match limit
    case None => Some(100)
    case Some(n) => if n >= 0 then Some(n) else None
  }

  /** The number of rows `LIMIT` keeps out of `count` matching ones. */
  function Kept(limit: Option<int>, count: nat): nat {
    match EffectiveLimit(limit)
    case Some(n) => n
    case None => count
  }

  /** listTransactions: the matching rows, newest first, cut to the limit
      (100 when the caller gives none): exactly `limit` rows when more match,
      all of them otherwise. */
  function ListTransactions(v: Variant, rows: seq<TransactionRow>, deviceFilter: Option<string>, eventFilter: Option<string>, limit: Option<int>): (r: seq<TransactionRow>)
    ensures SortedDesc(r, TimestampOf)
    ensures EffectiveLimit(limit).Some? ==> |r| <= EffectiveLimit(limit).value
    ensures limit.None? ==> |r| <= 100
    ensures var m := |Filter(v, rows, deviceFilter, eventFilter)|;
      var k := Kept(limit, m);
      |r| == if k < m then k else m
  {
    var matching := Filter(v, rows, deviceFilter, eventFilter);
    Take(SortDesc(matching, TimestampOf), Kept(limit, |matching|))
  }

  /** The listing holds only rows of the table that pass the filters, each at
      most as often as the table does. */
  lemma ListingMatches(v: Variant, rows: seq<TransactionRow>, deviceFilter: Option<string>, eventFilter: Option<string>, limit: Option<int>)
    ensures var r := ListTransactions(v, rows, deviceFilter, eventFilter, limit);
      && multiset(r) <= multiset(rows)
      && forall t :: t in r ==> t in rows && Matches(v, t, deviceFilter, eventFilter)
  {
    var matching := Filter(v, rows, deviceFilter, eventFilter);
    var n := Kept(limit, |matching|);
    TopOfSorted(matching, n, TimestampOf);
    var r := Take(SortDesc(matching, TimestampOf), n);
    forall t | t in r ensures t in matching {
      assert multiset(r)[t] > 0;
    }
  }

  /** The cut keeps the newest rows: a matching row newer than some listed
      row is listed, and when the limit does not bite every matching row is. */
  lemma ListingKeepsNewest(v: Variant, rows: seq<TransactionRow>, deviceFilter: Option<string>, eventFilter: Option<string>, limit: Option<int>)
    ensures var r := ListTransactions(v, rows, deviceFilter, eventFilter, limit);
      && (forall t, i :: t in rows && Matches(v, t, deviceFilter, eventFilter) && 0 <= i < |r| && t.timestamp > r[i].timestamp ==> t in r)
      && (EffectiveLimit(limit).None? || |Filter(v, rows, deviceFilter, eventFilter)| <= EffectiveLimit(limit).value ==>
            forall t :: t in rows && Matches(v, t, deviceFilter, eventFilter) ==> t in r)
  {
    var matching := Filter(v, rows, deviceFilter, eventFilter);
    TopOfSorted(matching, Kept(limit, |matching|), TimestampOf);
  }
}

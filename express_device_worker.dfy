/** The Express variant's device worker thread (deviceWorker.js): a loop
    that, while its `running` flag is set, waits a random 1-4 s and posts one
    synthetic transaction to the parent; a `stop` message clears the flag.
    Every `Math.random()` call is a draw `u` with 0 <= u < 1 handed in by
    the caller, in the order the code makes them. */
module ExpressDeviceWorker {
  import opened Records
  import opened EventCatalog

  /** A value `Math.random()` can return. */
  predicate IsDraw(u: real) {
    0.0 <= u < 1.0
  }

  /** Scaling a draw by `n` and flooring lands in 0..n-1. */
  lemma FloorOfScaledDraw(u: real, n: nat)
    requires IsDraw(u) && n > 0
    ensures 0 <= (u * n as real).Floor < n
  {
    assert u * (n as real) < 1.0 * (n as real);
  }

  /** The draw that makes a scaled floor come out at `k`. */
  lemma DrawFor(k: nat, n: nat)
    requires k < n
    ensures IsDraw(k as real / n as real)
    ensures ((k as real / n as real) * n as real).Floor == k
  {
  }

  /** randomOf: `arr[Math.floor(Math.random() * arr.length)]`. */
  function RandomOf<T>(arr: seq<T>, u: real): (r: T)
    requires |arr| > 0 && IsDraw(u)
    ensures r in arr
  {
    FloorOfScaledDraw(u, |arr|);
    arr[(u * |arr| as real).Floor]
  }

  /** Every element of the array can be picked. */
  lemma RandomOfReachesAll<T>(arr: seq<T>, i: nat)
    requires i < |arr|
    ensures IsDraw(i as real / |arr| as real)
    ensures RandomOf(arr, i as real / |arr| as real) == arr[i]
  {
    DrawFor(i, |arr|);
  }

  /** randomDelay: `Math.floor(Math.random() * (max - min + 1)) + min`. */
  function RandomDelay(minMs: int, maxMs: int, u: real): (r: int)
    requires minMs <= maxMs && IsDraw(u)
    ensures minMs <= r <= maxMs
  {
    FloorOfScaledDraw(u, maxMs - minMs + 1);
    (u * (maxMs - minMs + 1) as real).Floor + minMs
  }

  /** Every delay between the bounds can come out. */
  lemma RandomDelayReachesAll(minMs: int, maxMs: int, k: int)
    requires minMs <= k <= maxMs
    ensures IsDraw((k - minMs) as real / (maxMs - minMs + 1) as real)
    ensures RandomDelay(minMs, maxMs, (k - minMs) as real / (maxMs - minMs + 1) as real) == k
  {
    DrawFor(k - minMs, maxMs - minMs + 1);
  }

  /** `Math.floor(Math.random() * letters.length)`: a position in A..Z. */
  function LetterIndex(u: real): (r: nat)
    requires IsDraw(u)
    ensures r < |Letters| && r == (u * |Letters| as real).Floor
  {
    FloorOfScaledDraw(u, |Letters|);
    (u * |Letters| as real).Floor
  }

  /** randomPlate: three letters `letters[floor(u * 26)]` and the number
      `floor(u * 9000 + 1000)`, from four draws. */
  function RandomPlate(u0: real, u1: real, u2: real, u3: real): (r: string)
    requires IsDraw(u0) && IsDraw(u1) && IsDraw(u2) && IsDraw(u3)
    ensures IsPlate(r)
    ensures 1000 <= DecimalValue(r[3..]) <= 9999
    ensures DecimalValue(r[3..]) == (u3 * 9000.0 + 1000.0).Floor
    ensures r[0] == Letters[LetterIndex(u0)] && r[1] == Letters[LetterIndex(u1)] && r[2] == Letters[LetterIndex(u2)]
  {
    FloorOfScaledDraw(u3, 9000);
    assert (u3 * 9000.0 + 1000.0).Floor == (u3 * 9000.0).Floor + 1000;
    Plate([LetterIndex(u0), LetterIndex(u1), LetterIndex(u2)], (u3 * 9000.0 + 1000.0).Floor)
  }

  /** How many draws buildPayload consumes at most (the ANPR branch: four
      for the plate, one for the confidence, one for the lane). */
  const PayloadDraws: nat := 6

  /** buildPayload without its floating-point fields; `us` are the draws in
      call order, including the ones spent on the omitted fields. */
  function BuildPayload(kind: string, us: seq<real>): (r: Payload)
    requires |us| >= PayloadDraws && forall i :: 0 <= i < |us| ==> IsDraw(us[i])
    ensures kind == AccessController <==> r.AccessPayload?
    ensures kind == FaceReader <==> r.FacePayload?
    ensures kind == Anpr <==> r.AnprPayload?
    ensures r.AccessPayload? ==> r.doorId == DoorId && r.accessMethod in AccessMethods && (r.ok <==> us[1] > 0.2)
    ensures r.FacePayload? ==> 0 <= (us[0] * 10000.0).Floor <= 9999 && r.faceId == FaceId((us[0] * 10000.0).Floor)
    ensures r.AnprPayload? ==> IsPlate(r.plate) && DecimalValue(r.plate[3..]) == (us[3] * 9000.0 + 1000.0).Floor && r.lane in Lanes
    ensures r.GenericPayload? ==> r.note == GenericNote
  {
    if kind == AccessController then
      AccessPayload(DoorId, RandomOf(AccessMethods, us[0]), us[1] > 0.2)
    else if kind == FaceReader then
      FloorOfScaledDraw(us[0], 10000);
      FacePayload(FaceId((us[0] * 10000.0).Floor))
    else if kind == Anpr then
      AnprPayload(RandomPlate(us[0], us[1], us[2], us[3]), RandomOf(Lanes, us[5]))
    else
      GenericPayload(GenericNote)
  }

  /** The `data` of a `transaction` message. */
  datatype TxData = TxData(deviceId: DeviceId, username: string, eventType: string, payload: Payload, timestamp: int)

  /** What happens during one iteration's wait: the draws the iteration
      makes (delay, username, event type, then the payload's), the messages
      the parent delivers meanwhile, and the clock when it posts. */
  datatype Tick = Tick(us: seq<real>, inbox: seq<string>, now: int)

  /** Draws per iteration: delay, username, event type and the payload's. */
  const TickDraws: nat := 3 + PayloadDraws

  predicate ValidTick(t: Tick) {
    |t.us| >= TickDraws && forall i :: 0 <= i < |t.us| ==> IsDraw(t.us[i])
  }

  /** The message one iteration posts. */
  function EventOf(deviceId: DeviceId, deviceType: string, t: Tick): (r: TxData)
    requires ValidTick(t)
    ensures r.deviceId == deviceId && r.timestamp == t.now
    ensures r.username in Users
    ensures r.eventType in EventsFor(deviceType)
  {
    TxData(deviceId, RandomOf(Users, t.us[1]), RandomOf(EventsFor(deviceType), t.us[2]),
           BuildPayload(deviceType, t.us[3..]), t.now)
  }

  /** The messages a run of iterations posts, one per iteration. */
  function EventsOf(deviceId: DeviceId, deviceType: string, ticks: seq<Tick>): (r: seq<TxData>)
    requires forall i :: 0 <= i < |ticks| ==> ValidTick(ticks[i])
    ensures |r| == |ticks|
    ensures forall i :: 0 <= i < |r| ==> r[i] == EventOf(deviceId, deviceType, ticks[i])
  {
    seq(|ticks|, i requires 0 <= i < |ticks| => EventOf(deviceId, deviceType, ticks[i]))
  }

  /** One more iteration posts one more message. */
  lemma EventsOfSnoc(deviceId: DeviceId, deviceType: string, ticks: seq<Tick>, n: nat)
    requires n < |ticks| && forall i :: 0 <= i < |ticks| ==> ValidTick(ticks[i])
    ensures EventsOf(deviceId, deviceType, ticks[..n + 1]) == EventsOf(deviceId, deviceType, ticks[..n]) + [EventOf(deviceId, deviceType, ticks[n])]
  {
    assert ticks[..n + 1] == ticks[..n] + [ticks[n]];
  }

  /** What a worker has posted after `n` iterations, and after one more. */
  lemma PostedSnoc(start: seq<TxData>, posted: seq<TxData>, deviceId: DeviceId, deviceType: string, ticks: seq<Tick>, n: nat)
    requires n < |ticks| && forall i :: 0 <= i < |ticks| ==> ValidTick(ticks[i])
    requires posted == start + EventsOf(deviceId, deviceType, ticks[..n])
    ensures posted + [EventOf(deviceId, deviceType, ticks[n])] == start + EventsOf(deviceId, deviceType, ticks[..n + 1])
  {
    EventsOfSnoc(deviceId, deviceType, ticks, n);
  }

  /** No `stop` reached the worker during the first `n` iterations. */
  ghost predicate NoStopBefore(ticks: seq<Tick>, n: nat) {
    forall i :: 0 <= i < n && i < |ticks| ==> !StopsIn(ticks[i])
  }

  lemma NoStopSnoc(ticks: seq<Tick>, n: nat)
    requires n < |ticks|
    ensures NoStopBefore(ticks, n + 1) <==> NoStopBefore(ticks, n) && !StopsIn(ticks[n])
  {
  }

  /** The stop message. */
  const Stop: string := "stop"

  /** A `stop` reaches the worker during this iteration's wait. */
  predicate StopsIn(t: Tick) {
    Stop in t.inbox
  }

  /** One worker thread. `processId` is the row the parent's handlers close
      over; `posted` is what it has sent to the parent so far. */
  class Worker {
    const deviceId: DeviceId
    const deviceType: string
    const processId: ProcessId
    var running: bool
    var posted: seq<TxData>

    constructor (deviceId: DeviceId, deviceType: string, processId: ProcessId)
      ensures this.deviceId == deviceId && this.deviceType == deviceType && this.processId == processId
      ensures running && posted == []
    {
      this.deviceId := deviceId;
      this.deviceType := deviceType;
      this.processId := processId;
      running := true;
      posted := [];
    }

    /** The `message` handler: `stop` clears the flag, anything else is ignored. */
    method OnMessage(msg: string)
      modifies this
      ensures running == (old(running) && msg != Stop)
      ensures posted == old(posted)
    {
      if msg == Stop {
        running := false;
      }
    }

    /** The event loop dispatching queued messages to the handler, in order. */
    method Deliver(msgs: seq<string>)
      modifies this
      ensures running == (old(running) && Stop !in msgs)
      ensures posted == old(posted)
    {
      for i := 0 to |msgs|
        invariant running == (old(running) && Stop !in msgs[..i])
        invariant posted == old(posted)
      {
        OnMessage(msgs[i]);
      }
    }

    /** loop: while `running`, wait (receiving messages meanwhile) and post one
        transaction. The flag is tested only at the top, so the iteration in
        progress when `stop` arrives still posts. Runs for at most `|ticks|`
        iterations and returns how many it made. */
    method Loop(ticks: seq<Tick>) returns (n: nat)
      requires forall i :: 0 <= i < |ticks| ==> ValidTick(ticks[i])
      modifies this
      ensures n <= |ticks|
      ensures posted == old(posted) + EventsOf(deviceId, deviceType, ticks[..n])
      ensures !old(running) ==> n == 0
      ensures forall i :: 0 <= i < n - 1 ==> !StopsIn(ticks[i])
      ensures n < |ticks| ==> !running
      ensures 0 < n && StopsIn(ticks[n - 1]) ==> !running
    {
      ghost var start := posted;
      ghost var wasRunning := running;
      n := 0;
      while running && n < |ticks|
        invariant n <= |ticks|
        invariant posted == start + EventsOf(deviceId, deviceType, ticks[..n])
        invariant running == (wasRunning && NoStopBefore(ticks, n))
        invariant !wasRunning ==> n == 0
        invariant n > 0 ==> NoStopBefore(ticks, n - 1)
        decreases |ticks| - n
      {
        var tick := ticks[n];
        var _ := RandomDelay(1000, 4000, tick.us[0]);
        Deliver(tick.inbox);
        NoStopSnoc(ticks, n);
        PostedSnoc(start, posted, deviceId, deviceType, ticks, n);
        posted := posted + [EventOf(deviceId, deviceType, tick)];
        n := n + 1;
      }
    }
  }
}

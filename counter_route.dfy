/** The ingestion and current-state endpoint (app/api/counter/route.ts): one in-memory
    `lastState`, the `counter_logs` and `counter_events` tables, and the publications
    sent on the 'counter-channel'. */
module CounterRoute {
  import opened Wrappers
  import opened Seqs
  import opened Store

  /** A count field of the request body: a number, or anything else. */
  datatype Field = Num(n: int) | NotNumber

  /** The JSON body. `timestamp` is None when absent or falsy; `recentEvents` is None
      when absent or not an array; `deviceId` is the raw value (None when absent). */
  datatype Body = Body(
    inCount: Field,
    outCount: Field,
    aforo: Field,
    timestamp: Option<Timestamp>,
    deviceId: Option<string>,
    recentEvents: Option<seq<MicroEvent>>)

  /** `lastState`. After a GET its timestamp and device come from a row and may be NULL. */
  datatype State = State(inCount: int, outCount: int, aforo: int, timestamp: Option<Timestamp>, deviceId: Option<string>)

  /** The payload of a 'counter-update' publication. */
  datatype Publication = Publication(inCount: int, outCount: int, aforo: int, timestamp: Timestamp, deviceId: Option<string>)

  /** POST answers: 200 with the echoed reading, 400 'Datos inválidos', 500. */
  datatype PostResponse =
    | Accepted(inCount: int, outCount: int, aforo: int, timestamp: Timestamp)
    | InvalidData
    | InternalError

  /** The GET answer `{ current, history }`. */
  datatype Snapshot = Snapshot(current: State, history: seq<LogRow>)

  /** The three counts are numbers. */
  predicate ValidCounts(b: Body) {
    b.inCount.Num? && b.outCount.Num? && b.aforo.Num?
  }

  /** `timestamp || new Date().toISOString()`. */
  function FinalTimestamp(b: Body, now: Timestamp): (t: Timestamp)
    ensures b.timestamp.Some? ==> t == b.timestamp.value
    ensures b.timestamp.None? ==> t == now
  {
    b.timestamp.GetOr(now)
  }

  /** The state a valid POST stores, whole. */
  function PostedState(b: Body, now: Timestamp): (s: State)
    requires ValidCounts(b)
    ensures s.inCount == b.inCount.n && s.outCount == b.outCount.n && s.aforo == b.aforo.n
    ensures s.timestamp.Some? && (b.timestamp.Some? ==> s.timestamp == b.timestamp)
    ensures b.timestamp.None? ==> s.timestamp == Some(now)
    ensures s.deviceId.Some? && s.deviceId.value != ""
    ensures b.deviceId.None? || b.deviceId == Some("") ==> s.deviceId == Some("unknown")
    ensures b.deviceId.Some? && b.deviceId.value != "" ==> s.deviceId == b.deviceId
  {
    State(b.inCount.n, b.outCount.n, b.aforo.n, Some(FinalTimestamp(b, now)), Some(DeviceOrUnknown(b.deviceId)))
  }

  /** Statements `0..k` of a POST all run without throwing, when `dbFailAt` is the
      first that throws: 0 is `CREATE TABLE`, 1 the log insert, `2 + j` the insert of
      `recentEvents[j]`. Nothing after the one that throws runs. */
  predicate RunsThrough(dbFailAt: Option<nat>, k: nat) {
    dbFailAt.None? || k < dbFailAt.value
  }

  /** How many of `n` `recentEvents` rows a POST stores: the inserts run in array order
      and stop at the first that throws, so the last stored event's insert ran and the
      next one's did not. */
  function EventsStored(n: nat, dbFailAt: Option<nat>): (k: nat)
    ensures k <= n
    ensures 0 < k ==> RunsThrough(dbFailAt, 2 + (k - 1))
    ensures k < n ==> !RunsThrough(dbFailAt, 2 + k)
  {
    if dbFailAt.None? || dbFailAt.value >= 2 + n then n
    else if dbFailAt.value < 2 then 0
    else dbFailAt.value - 2
  }

  function EventRows(deviceId: Option<string>, events: seq<MicroEvent>): (rows: seq<EventRow>)
    ensures |rows| == |events|
    ensures forall j :: 0 <= j < |events| ==> rows[j] == EventRow(deviceId, events[j])
  {
    seq(|events|, j requires 0 <= j < |events| => EventRow(deviceId, events[j]))
  }

  /** `ORDER BY created_at DESC LIMIT 100`: the 100 newest rows, or all of them when
      there are fewer, newest `created_at` first; no row left out is newer than the
      last one kept. */
  function Newest100(rows: seq<LogRow>): (r: seq<LogRow>)
    ensures |r| == if |rows| < 100 then |rows| else 100
    ensures multiset(r) <= multiset(rows)
    ensures forall k :: 0 <= k < |r| ==> r[k] in rows
    ensures forall i, j :: 0 <= i < j < |r| ==> r[i].createdAt >= r[j].createdAt
    ensures r != [] ==> forall row :: row in rows ==> r[0].createdAt >= row.createdAt
    ensures r != [] ==> forall row :: row in multiset(rows) - multiset(r) ==> r[|r| - 1].createdAt >= row.createdAt
  {
    var sorted := SortNewestFirst(ByCreatedAt, rows);
    var r := Take(sorted, 100);
    forall k | 0 <= k < |r| ensures r[k] in rows {
      assert sorted[k] in multiset(sorted);
    }
    if rows == [] then r
    else
      SortedHeadFirst(ByCreatedAt, rows);
      assert r == sorted[..|r|];
      SortedPrefix(ByCreatedAt, sorted, |r|);
      r
  }

  /** The state a row stands for, as GET copies it. */
  function RowState(row: LogRow): State {
    State(row.inCount, row.outCount, row.aforo, row.timestamp, row.deviceId)
  }

  /** GET's reconciliation: the newest row, if any, replaces the state. */
  function Reconcile(last: State, history: seq<LogRow>): (s: State)
    ensures history == [] ==> s == last
    ensures history != [] ==> s == RowState(history[0])
  {
    if history == [] then last else RowState(history[0])
  }

  /** The route module's state. `dbConfigured` is `POSTGRES_URL`, `pusherConfigured`
      `PUSHER_APP_ID`; `nextId` is the `SERIAL` counter of `counter_logs.id`. */
  class CounterServer {
    var lastState: State
    var logRows: seq<LogRow>
    var eventRows: seq<EventRow>
    var published: seq<Publication>
    var nextId: int
    const dbConfigured: bool
    const pusherConfigured: bool

    /** Module load: the start-up state, and whatever the database already holds. */
    constructor (startTime: Timestamp, dbConfigured: bool, pusherConfigured: bool,
                 logRows: seq<LogRow>, eventRows: seq<EventRow>, nextId: int)
      ensures lastState == State(0, 0, 0, Some(startTime), Some("unknown"))
      ensures this.logRows == logRows && this.eventRows == eventRows && published == []
      ensures this.nextId == nextId
      ensures this.dbConfigured == dbConfigured && this.pusherConfigured == pusherConfigured
    {
      lastState := State(0, 0, 0, Some(startTime), Some("unknown"));
      this.logRows, this.eventRows, published := logRows, eventRows, [];
      this.nextId := nextId;
      this.dbConfigured, this.pusherConfigured := dbConfigured, pusherConfigured;
    }

    /** POST /api/counter. `body` is None when the request is not JSON or is `null`;
        `now` is the clock of both the server and the database; `dbFailAt` is the
        first statement that throws; `publishFails` says whether the trigger throws. */
    method Post(body: Option<Body>, now: Timestamp, dbFailAt: Option<nat>, publishFails: bool)
      returns (resp: PostResponse)
      modifies this
      ensures body.None? ==> resp == InternalError
      ensures body.Some? && !ValidCounts(body.value) ==> resp == InvalidData
      ensures body.None? || !ValidCounts(body.value) ==>
        lastState == old(lastState) && logRows == old(logRows) && eventRows == old(eventRows)
        && published == old(published) && nextId == old(nextId)
      ensures body.Some? && ValidCounts(body.value) ==>
        var b := body.value;
        var ts := FinalTimestamp(b, now);
        var logged := dbConfigured && RunsThrough(dbFailAt, 1);
        var events := if logged && b.recentEvents.Some? then b.recentEvents.value else [];
        && resp == Accepted(b.inCount.n, b.outCount.n, b.aforo.n, ts)
        && lastState == PostedState(b, now)
        && logRows == old(logRows) + (if logged then [LogRow(old(nextId), b.inCount.n, b.outCount.n, b.aforo.n, b.deviceId, Some(ts), now)] else [])
        && nextId == old(nextId) + (if logged then 1 else 0)
        && eventRows == old(eventRows) + EventRows(b.deviceId, events[..EventsStored(|events|, dbFailAt)])
        && published == old(published) + (if pusherConfigured && !publishFails then [Publication(b.inCount.n, b.outCount.n, b.aforo.n, ts, b.deviceId)] else [])
    {
      if body.None? {
        return InternalError;
      }
      var b := body.value;
      if !ValidCounts(b) {
        return InvalidData;
      }
      var ts := FinalTimestamp(b, now);
      lastState := State(b.inCount.n, b.outCount.n, b.aforo.n, Some(ts), Some(DeviceOrUnknown(b.deviceId)));
      if dbConfigured && RunsThrough(dbFailAt, 1) {
        logRows := logRows + [LogRow(nextId, b.inCount.n, b.outCount.n, b.aforo.n, b.deviceId, Some(ts), now)];
        nextId := nextId + 1;
        if b.recentEvents.Some? {
          var events := b.recentEvents.value;
          var j := 0;
          while j < |events| && RunsThrough(dbFailAt, 2 + j)
            invariant 0 <= j <= |events|
            invariant j <= EventsStored(|events|, dbFailAt)
            invariant lastState == PostedState(b, now) && published == old(published)
            invariant logRows == old(logRows) + [LogRow(old(nextId), b.inCount.n, b.outCount.n, b.aforo.n, b.deviceId, Some(ts), now)]
            invariant nextId == old(nextId) + 1
            invariant eventRows == old(eventRows) + EventRows(b.deviceId, events[..j])
          {
            eventRows := eventRows + [EventRow(b.deviceId, events[j])];
            j := j + 1;
            assert EventRows(b.deviceId, events[..j]) == EventRows(b.deviceId, events[..j - 1]) + [EventRow(b.deviceId, events[j - 1])];
          }
          assert j == EventsStored(|events|, dbFailAt);
        }
      }
      if pusherConfigured && !publishFails {
        published := published + [Publication(b.inCount.n, b.outCount.n, b.aforo.n, ts, b.deviceId)];
      }
      resp := Accepted(b.inCount.n, b.outCount.n, b.aforo.n, ts);
    }

    /** GET /api/counter. `dbFails` says whether the SELECT throws. */
    method Get(dbFails: bool) returns (resp: Snapshot)
      modifies this
      ensures dbConfigured && !dbFails ==>
        resp.history == Newest100(logRows) && lastState == Reconcile(old(lastState), resp.history)
      ensures !(dbConfigured && !dbFails) ==> resp.history == [] && lastState == old(lastState)
      ensures resp.current == lastState
      ensures logRows == old(logRows) && eventRows == old(eventRows)
      ensures published == old(published) && nextId == old(nextId)
    {
      if dbConfigured && !dbFails {
        var rows := Newest100(logRows);
        if rows != [] {
          var latest := rows[0];
          lastState := State(latest.inCount, latest.outCount, latest.aforo, latest.timestamp, latest.deviceId);
        }
        return Snapshot(lastState, rows);
      }
      resp := Snapshot(lastState, []);
    }
  }

  /** A reading stored by POST and read back by GET: when its `created_at` is later
      than every older row, GET reports its counts and timestamp, but the raw device id,
      so a reading posted without one comes back with a NULL device instead of 'unknown'. */
  lemma {:induction false} PostThenGet(rows: seq<LogRow>, b: Body, now: Timestamp, id: int, last: State)
    requires ValidCounts(b)
    requires forall row :: row in rows ==> row.createdAt < now
    ensures var row := LogRow(id, b.inCount.n, b.outCount.n, b.aforo.n, b.deviceId, Some(FinalTimestamp(b, now)), now);
      var s := Reconcile(last, Newest100(rows + [row]));
      && s == RowState(row)
      && s.inCount == PostedState(b, now).inCount
      && s.outCount == PostedState(b, now).outCount
      && s.aforo == PostedState(b, now).aforo
      && s.timestamp == PostedState(b, now).timestamp
      && s.deviceId == b.deviceId
      && (b.deviceId.None? ==> s.deviceId != PostedState(b, now).deviceId)
  {
    var row := LogRow(id, b.inCount.n, b.outCount.n, b.aforo.n, b.deviceId, Some(FinalTimestamp(b, now)), now);
    var all := rows + [row];
    var h := Newest100(all);
    assert row in all;
    assert h[0] in all;
    if h[0] != row {
      assert h[0] in rows;
    }
  }
}

/** The `counter_logs` and `counter_events` tables as the two endpoints see them: rows,
    the `ORDER BY ... DESC` orders they ask for, and the aggregates of the stats query. */
module Store {
  import opened Wrappers
  import Readings

  type Timestamp = Readings.Timestamp

  /** A row of `counter_logs`. The count columns are `INTEGER NOT NULL`; `device_id`
      and `timestamp` may hold NULL. `created_at` is filled by the database clock. */
  datatype LogRow = LogRow(
    id: int,
    inCount: int,
    outCount: int,
    aforo: int,
    deviceId: Option<string>,
    timestamp: Option<Timestamp>,
    createdAt: Timestamp)

  /** One element of a reading's `recentEvents` array. */
  datatype MicroEvent = MicroEvent(isEntry: bool, aforoAtTime: int, timestamp: Timestamp)

  /** A row of `counter_events`. */
  datatype EventRow = EventRow(deviceId: Option<string>, event: MicroEvent)

  /** `device || 'unknown'`, as both endpoints default a device id: absent or empty
      becomes 'unknown'. */
  function DeviceOrUnknown(d: Option<string>): (r: string)
    ensures (d.None? || d == Some("")) <==> r == "unknown" && d != Some("unknown")
    ensures d.Some? && d.value != "" ==> r == d.value
  {
    if d.Some? && d.value != "" then d.value else "unknown"
  }

  /** The sort keys the endpoints use, always descending. */
  datatype Order = ByCreatedAt | ByTimestamp

  /** `a` may precede `b` under `ORDER BY <key> DESC`; PostgreSQL puts NULLs first in
      a descending order. */
  predicate Before(o: Order, a: LogRow, b: LogRow) {
    match o
    case ByCreatedAt => a.createdAt >= b.createdAt
    case ByTimestamp => a.timestamp.None? || (b.timestamp.Some? && a.timestamp.value >= b.timestamp.value)
  }

  lemma BeforeTotal(o: Order, a: LogRow, b: LogRow)
    ensures Before(o, a, b) || Before(o, b, a)
  {
  }

  ghost predicate Sorted(o: Order, s: seq<LogRow>) {
    forall i, j :: 0 <= i < j < |s| ==> Before(o, s[i], s[j])
  }

  /** Insert `x` into a sorted list at the first place it may go. */
  function Insert(o: Order, x: LogRow, s: seq<LogRow>): (r: seq<LogRow>)
    requires Sorted(o, s)
    ensures Sorted(o, r)
    ensures multiset(r) == multiset(s) + multiset{x}
    ensures |r| == |s| + 1
  {
    if s == [] then [x]
    else if Before(o, x, s[0]) then
      assert forall j :: 0 <= j < |s| ==> Before(o, s[0], s[j]);
      [x] + s
    else
      var rest := Insert(o, x, s[1..]);
      assert s == [s[0]] + s[1..];
      BeforeTotal(o, x, s[0]);
      forall y | y in rest ensures Before(o, s[0], y) {
        assert y in multiset(rest);
        if y != x {
          assert y in multiset(s[1..]);
          var j :| 0 <= j < |s[1..]| && s[1..][j] == y;
          assert s[j + 1] == y;
        }
      }
      [s[0]] + rest
  }

  /** The rows in `ORDER BY <key> DESC` order: the same rows, each allowed to precede
      every later one. Rows with equal keys may come out in any order in SQL; this is
      one admissible order. */
  function SortNewestFirst(o: Order, s: seq<LogRow>): (r: seq<LogRow>)
    ensures Sorted(o, r)
    ensures multiset(r) == multiset(s)
    ensures |r| == |s|
  {
    if s == [] then []
    else
      assert s == [s[0]] + s[1..];
      Insert(o, s[0], SortNewestFirst(o, s[1..]))
  }

  /** The head of the sorted rows precedes every row of the table. */
  lemma {:induction false} SortedHeadFirst(o: Order, s: seq<LogRow>)
    requires s != []
    ensures var r := SortNewestFirst(o, s);
      r != [] && forall row :: row in s ==> Before(o, r[0], row)
  {
    var r := SortNewestFirst(o, s);
    assert |r| == |s|;
    forall row | row in s ensures Before(o, r[0], row) {
      assert row in multiset(s);
      assert row in multiset(r);
      var j :| 0 <= j < |r| && r[j] == row;
      if j == 0 {
        BeforeTotal(o, row, row);
      }
    }
  }

  /** Cutting a sorted list after `n` rows keeps some of its rows, and every row left
      out comes no earlier in the order than the last row kept. */
  lemma SortedPrefix(o: Order, s: seq<LogRow>, n: nat)
    requires Sorted(o, s) && 0 < n <= |s|
    ensures multiset(s[..n]) <= multiset(s)
    ensures forall row :: row in multiset(s) - multiset(s[..n]) ==> Before(o, s[n - 1], row)
  {
    assert s == s[..n] + s[n..];
    assert multiset(s) == multiset(s[..n]) + multiset(s[n..]);
    forall row | row in multiset(s) - multiset(s[..n]) ensures Before(o, s[n - 1], row) {
      assert row in multiset(s[n..]);
      var j :| 0 <= j < |s[n..]| && s[n..][j] == row;
      assert s[n + j] == row;
    }
  }

  /** `MAX(column)` over the non-NULL values: NULL for none, else a value of the column
      that bounds all the others. */
  function Max(xs: seq<int>): (m: Option<int>)
    ensures m.None? <==> xs == []
    ensures m.Some? ==> m.value in xs && forall x :: x in xs ==> x <= m.value
  {
    if xs == [] then None
    else
      var tail := Max(xs[1..]);
      assert xs == [xs[0]] + xs[1..];
      if tail.Some? && tail.value > xs[0] then tail else Some(xs[0])
  }

  /** `MIN(column)` over the non-NULL values. */
  function Min(xs: seq<int>): (m: Option<int>)
    ensures m.None? <==> xs == []
    ensures m.Some? ==> m.value in xs && forall x :: x in xs ==> m.value <= x
  {
    if xs == [] then None
    else
      var tail := Min(xs[1..]);
      assert xs == [xs[0]] + xs[1..];
      if tail.Some? && tail.value < xs[0] then tail else Some(xs[0])
  }

  /** The non-NULL values of a nullable column, in order. */
  function Present(xs: seq<Option<int>>): (r: seq<int>)
    ensures forall x :: x in r <==> Some(x) in xs
  {
    if xs == [] then []
    else
      assert xs == [xs[0]] + xs[1..];
      (if xs[0].Some? then [xs[0].value] else []) + Present(xs[1..])
  }
}

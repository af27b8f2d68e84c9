/** The history endpoint (app/api/history/route.ts): a parameterised query built clause
    by clause, its meaning over `counter_logs`, row normalisation and whole-table stats. */
module HistoryRoute {
  import opened Wrappers
  import opened Seqs
  import opened Store
  import Text

  /** What `parseInt` yields: an integer or NaN. */
  datatype Number = Int(n: int) | NaN

  /** The search parameters. `limit` and `offset` are None when absent or empty, and
      otherwise the `parseInt` of the text; the other three are None when absent or
      empty, and a date is the instant the database reads from its text. */
  datatype Request = Request(
    limit: Option<Number>,
    offset: Option<Number>,
    deviceId: Option<string>,
    startDate: Option<Timestamp>,
    endDate: Option<Timestamp>)

  /** `parseInt(searchParams.get('limit') || '50')`. */
  function LimitOf(q: Request): (n: Number)
    ensures q.limit.None? ==> n == Int(50)
    ensures q.limit.Some? ==> n == q.limit.value
  {
    q.limit.GetOr(Int(50))
  }

  /** `parseInt(searchParams.get('offset') || '0')`. */
  function OffsetOf(q: Request): (n: Number)
    ensures q.offset.None? ==> n == Int(0)
    ensures q.offset.Some? ==> n == q.offset.value
  {
    q.offset.GetOr(Int(0))
  }

  /** A query parameter: a search-parameter string, a date, or a number. */
  datatype Value = Text(s: string) | Time(t: Timestamp) | Num(x: Number)

  /** The pieces appended to the query text; `k` is the placeholder number `$k`. */
  datatype Clause =
    | DeviceIs(k: nat)
    | From(k: nat)
    | Until(k: nat)
    | NewestFirst
    | LimitTo(k: nat)
    | OffsetBy(k: nat)

  const BaseQuery: string := "\n      SELECT * FROM counter_logs\n      WHERE 1=1\n    "

  function ClauseSql(c: Clause): string {
    match c
    case DeviceIs(k) => " AND device_id = $" + Text.NatToString(k)
    case From(k) => " AND timestamp >= $" + Text.NatToString(k)
    case Until(k) => " AND timestamp <= $" + Text.NatToString(k)
    case NewestFirst => " ORDER BY timestamp DESC"
    case LimitTo(k) => " LIMIT $" + Text.NatToString(k)
    case OffsetBy(k) => " OFFSET $" + Text.NatToString(k)
  }

  /** The query text after appending `clauses` in order. */
  function Sql(clauses: seq<Clause>): string
    decreases |clauses|
  {
    if clauses == [] then BaseQuery else Sql(clauses[..|clauses| - 1]) + ClauseSql(clauses[|clauses| - 1])
  }

  function PlaceholderOf(c: Clause): seq<nat> {
    if c.NewestFirst? then [] else [c.k]
  }

  /** The placeholder numbers in the order they appear in the text. */
  function Placeholders(clauses: seq<Clause>): seq<nat>
    decreases |clauses|
  {
    if clauses == [] then [] else Placeholders(clauses[..|clauses| - 1]) + PlaceholderOf(clauses[|clauses| - 1])
  }

  /** `$1, $2, ..., $n`. */
  function Ones(n: nat): (r: seq<nat>)
    ensures |r| == n && forall i :: 0 <= i < n ==> r[i] == i + 1
  {
    seq(n, i requires 0 <= i < n => i + 1)
  }

  /** What a query asks for. A None limit or offset means the clause is absent. */
  datatype Spec = Spec(
    deviceId: Option<string>,
    from: Option<Timestamp>,
    until: Option<Timestamp>,
    newestFirst: bool,
    limit: Option<Number>,
    offset: Option<Number>)

  const Unfiltered: Spec := Spec(None, None, None, false, None, None)

  /** `$k`'s value. */
  function Resolve(params: seq<Value>, k: nat): Option<Value> {
    if 1 <= k <= |params| then Some(params[k - 1]) else None
  }

  /** How the database reads one more clause; None when its placeholder has no value of
      the kind the clause compares with. */
  function Apply(spec: Spec, c: Clause, params: seq<Value>): Option<Spec> {
    match c
    case NewestFirst => Some(spec.(newestFirst := true))
    case DeviceIs(k) =>
      (match Resolve(params, k) case Some(Text(d)) => Some(spec.(deviceId := Some(d))) case _ => None)
    case From(k) =>
      (match Resolve(params, k) case Some(Time(t)) => Some(spec.(from := Some(t))) case _ => None)
    case Until(k) =>
      (match Resolve(params, k) case Some(Time(t)) => Some(spec.(until := Some(t))) case _ => None)
    case LimitTo(k) =>
      (match Resolve(params, k) case Some(Num(x)) => Some(spec.(limit := Some(x))) case _ => None)
    case OffsetBy(k) =>
      (match Resolve(params, k) case Some(Num(x)) => Some(spec.(offset := Some(x))) case _ => None)
  }

  /** The meaning of the query text together with its parameters. */
  function Decode(clauses: seq<Clause>, params: seq<Value>): Option<Spec>
    decreases |clauses|
  {
    if clauses == [] then Some(Unfiltered)
    else match Decode(clauses[..|clauses| - 1], params)
      case None => None
      case Some(spec) => Apply(spec, clauses[|clauses| - 1], params)
  }

  /** Appending parameters does not change what the placeholders already in the text
      refer to. */
  lemma {:induction false} DecodeExtend(clauses: seq<Clause>, params: seq<Value>, more: seq<Value>)
    requires forall k :: k in Placeholders(clauses) ==> 1 <= k <= |params|
    ensures Decode(clauses, params + more) == Decode(clauses, params)
    decreases |clauses|
  {
    if clauses != [] {
      var init, last := clauses[..|clauses| - 1], clauses[|clauses| - 1];
      assert clauses == init + [last];
      assert Placeholders(clauses) == Placeholders(init) + PlaceholderOf(last);
      assert forall k :: k in Placeholders(init) ==> k in Placeholders(clauses);
      DecodeExtend(init, params, more);
      if !last.NewestFirst? {
        assert last.k in Placeholders(clauses);
        assert Resolve(params + more, last.k) == Resolve(params, last.k);
      }
    }
  }

  /** The query the handler means to send: the device filter only for a non-empty id. */
  function Intended(q: Request): Spec {
    Spec(if q.deviceId == Some("") then None else q.deviceId,
         q.startDate, q.endDate, true, Some(LimitOf(q)), Some(OffsetOf(q)))
  }

  /** The text, the parameter list and the clause list agree: the text renders the
      clauses, the placeholders are `$1..$n` in order, and the database reads `spec`. */
  ghost predicate Built(query: string, params: seq<Value>, clauses: seq<Clause>, spec: Spec) {
    && query == Sql(clauses)
    && Placeholders(clauses) == Ones(|params|)
    && Decode(clauses, params) == Some(spec)
  }

  /** The filters the handler means to apply: a device id only when non-empty, and the
      two date bounds. */
  function FilterSpec(q: Request): Spec {
    Spec(if q.deviceId == Some("") then None else q.deviceId, q.startDate, q.endDate, false, None, None)
  }

  /** The query text and its parameter list grow together, each new clause
      naming the parameter just pushed, so the placeholders are `$1..$n` in order, the
      list ends with limit and offset, and the database reads the intended query. */
  method BuildQuery(q: Request) returns (query: string, params: seq<Value>, clauses: seq<Clause>)
    ensures Built(query, params, clauses, Intended(q))
    ensures |params| >= 2 && params[|params| - 2] == Num(LimitOf(q)) && params[|params| - 1] == Num(OffsetOf(q))
  {
    query, params, clauses := BuildFilters(q);
    OrderStep(query, params, clauses, FilterSpec(q));
    clauses := clauses + [NewestFirst];
    query := query + " ORDER BY timestamp DESC";
    ghost var spec := FilterSpec(q).(newestFirst := true);
    query, params, clauses := AddLimit(query, params, clauses, spec, LimitOf(q));
    spec := spec.(limit := Some(LimitOf(q)));
    ghost var withLimit := params;
    query, params, clauses := AddOffset(query, params, clauses, spec, OffsetOf(q));
    assert params[|params| - 2] == withLimit[|withLimit| - 1];
  }

  /** The `WHERE 1=1` base and the optional conditions, each with its own parameter. */
  method BuildFilters(q: Request) returns (query: string, params: seq<Value>, clauses: seq<Clause>)
    ensures Built(query, params, clauses, FilterSpec(q))
  {
    query, params, clauses := BaseQuery, [], [];
    ghost var device := FilterSpec(q).deviceId;
    assert Built(query, params, clauses, Unfiltered);
    if q.deviceId.Some? && q.deviceId.value != "" {
      query, params, clauses := AddDevice(query, params, clauses, Unfiltered, q.deviceId.value);
    }
    ghost var spec := Spec(device, None, None, false, None, None);
    assert Built(query, params, clauses, spec);
    if q.startDate.Some? {
      query, params, clauses := AddStart(query, params, clauses, spec, q.startDate.value);
    }
    spec := Spec(device, q.startDate, None, false, None, None);
    assert Built(query, params, clauses, spec);
    if q.endDate.Some? {
      query, params, clauses := AddEnd(query, params, clauses, spec, q.endDate.value);
    }
  }

  /** `AND device_id = $n`, with the device id pushed as parameter `n`. */
  method AddDevice(query: string, params: seq<Value>, clauses: seq<Clause>, ghost spec: Spec, deviceId: string)
    returns (query2: string, params2: seq<Value>, clauses2: seq<Clause>)
    requires Built(query, params, clauses, spec)
    ensures params2 == params + [Text(deviceId)]
    ensures Built(query2, params2, clauses2, spec.(deviceId := Some(deviceId)))
  {
    params2 := params + [Text(deviceId)];
    var k := |params2|;
    clauses2 := clauses + [DeviceIs(k)];
    query2 := query + " AND device_id = $" + Text.NatToString(k);
    PushStep(query, params, clauses, spec, Text(deviceId), DeviceIs(k), spec.(deviceId := Some(deviceId)));
    assert query2 == query + ClauseSql(DeviceIs(k));
  }

  /** `AND timestamp >= $n`, with the start date pushed as parameter `n`. */
  method AddStart(query: string, params: seq<Value>, clauses: seq<Clause>, ghost spec: Spec, start: Timestamp)
    returns (query2: string, params2: seq<Value>, clauses2: seq<Clause>)
    requires Built(query, params, clauses, spec)
    ensures params2 == params + [Time(start)]
    ensures Built(query2, params2, clauses2, spec.(from := Some(start)))
  {
    params2 := params + [Time(start)];
    var k := |params2|;
    clauses2 := clauses + [From(k)];
    query2 := query + " AND timestamp >= $" + Text.NatToString(k);
    PushStep(query, params, clauses, spec, Time(start), From(k), spec.(from := Some(start)));
    assert query2 == query + ClauseSql(From(k));
  }

  /** `AND timestamp <= $n`, with the end date pushed as parameter `n`. */
  method AddEnd(query: string, params: seq<Value>, clauses: seq<Clause>, ghost spec: Spec, end: Timestamp)
    returns (query2: string, params2: seq<Value>, clauses2: seq<Clause>)
    requires Built(query, params, clauses, spec)
    ensures params2 == params + [Time(end)]
    ensures Built(query2, params2, clauses2, spec.(until := Some(end)))
  {
    params2 := params + [Time(end)];
    var k := |params2|;
    clauses2 := clauses + [Until(k)];
    query2 := query + " AND timestamp <= $" + Text.NatToString(k);
    PushStep(query, params, clauses, spec, Time(end), Until(k), spec.(until := Some(end)));
    assert query2 == query + ClauseSql(Until(k));
  }

  /** `LIMIT $n`, with the limit pushed as parameter `n`. */
  method AddLimit(query: string, params: seq<Value>, clauses: seq<Clause>, ghost spec: Spec, limit: Number)
    returns (query2: string, params2: seq<Value>, clauses2: seq<Clause>)
    requires Built(query, params, clauses, spec)
    ensures params2 == params + [Num(limit)]
    ensures Built(query2, params2, clauses2, spec.(limit := Some(limit)))
  {
    params2 := params + [Num(limit)];
    var k := |params2|;
    clauses2 := clauses + [LimitTo(k)];
    query2 := query + " LIMIT $" + Text.NatToString(k);
    PushStep(query, params, clauses, spec, Num(limit), LimitTo(k), spec.(limit := Some(limit)));
    assert query2 == query + ClauseSql(LimitTo(k));
  }

  /** `OFFSET $n`, with the offset pushed as parameter `n`. */
  method AddOffset(query: string, params: seq<Value>, clauses: seq<Clause>, ghost spec: Spec, offset: Number)
    returns (query2: string, params2: seq<Value>, clauses2: seq<Clause>)
    requires Built(query, params, clauses, spec)
    ensures params2 == params + [Num(offset)]
    ensures Built(query2, params2, clauses2, spec.(offset := Some(offset)))
  {
    params2 := params + [Num(offset)];
    var k := |params2|;
    clauses2 := clauses + [OffsetBy(k)];
    query2 := query + " OFFSET $" + Text.NatToString(k);
    PushStep(query, params, clauses, spec, Num(offset), OffsetBy(k), spec.(offset := Some(offset)));
    assert query2 == query + ClauseSql(OffsetBy(k));
  }

  /** Pushing a value and appending the clause that names it as `$(n+1)`. */
  lemma PushStep(query: string, params: seq<Value>, clauses: seq<Clause>, spec: Spec, v: Value, c: Clause, spec2: Spec)
    requires Built(query, params, clauses, spec)
    requires !c.NewestFirst? && c.k == |params| + 1
    requires Apply(spec, c, params + [v]) == Some(spec2)
    ensures Built(query + ClauseSql(c), params + [v], clauses + [c], spec2)
  {
    Push(clauses, params, v);
    Appended(clauses, c, params + [v]);
  }

  /** Appending the ORDER BY clause, which has no placeholder. */
  lemma OrderStep(query: string, params: seq<Value>, clauses: seq<Clause>, spec: Spec)
    requires Built(query, params, clauses, spec)
    ensures Built(query + " ORDER BY timestamp DESC", params, clauses + [NewestFirst], spec.(newestFirst := true))
  {
    Appended(clauses, NewestFirst, params);
  }

  /** Appending a clause extends the text, the placeholder list and the reading. */
  lemma Appended(clauses: seq<Clause>, c: Clause, params: seq<Value>)
    ensures Sql(clauses + [c]) == Sql(clauses) + ClauseSql(c)
    ensures Placeholders(clauses + [c]) == Placeholders(clauses) + PlaceholderOf(c)
    ensures Decode(clauses + [c], params) ==
      if Decode(clauses, params).None? then None else Apply(Decode(clauses, params).value, c, params)
  {
    assert (clauses + [c])[..|clauses|] == clauses;
  }

  /** One push: the clauses already written keep their meaning, and the new value is
      `$(n+1)`. */
  lemma Push(clauses: seq<Clause>, params: seq<Value>, v: Value)
    requires Placeholders(clauses) == Ones(|params|)
    ensures Decode(clauses, params + [v]) == Decode(clauses, params)
    ensures Resolve(params + [v], |params| + 1) == Some(v)
    ensures Placeholders(clauses) + [|params| + 1] == Ones(|params| + 1)
  {
    forall k | k in Placeholders(clauses) ensures 1 <= k <= |params| {
      var i :| 0 <= i < |params| && Ones(|params|)[i] == k;
    }
    DecodeExtend(clauses, params, [v]);
  }

  /** The row satisfies the query's filters; a NULL timestamp fails a date bound. */
  predicate Matches(spec: Spec, row: LogRow) {
    && (spec.deviceId.Some? ==> row.deviceId == spec.deviceId)
    && (spec.from.Some? ==> row.timestamp.Some? && row.timestamp.value >= spec.from.value)
    && (spec.until.Some? ==> row.timestamp.Some? && row.timestamp.value <= spec.until.value)
  }

  function MatchFlags(table: seq<LogRow>, spec: Spec): (flags: seq<bool>)
    ensures |flags| == |table|
    ensures forall i :: 0 <= i < |table| ==> flags[i] == Matches(spec, table[i])
  {
    seq(|table|, i requires 0 <= i < |table| => Matches(spec, table[i]))
  }

  /** The rows the filters keep, in table order: exactly the matching table rows. */
  function Matching(table: seq<LogRow>, spec: Spec): (m: seq<LogRow>)
    ensures forall x :: x in m ==> x in table && Matches(spec, x)
    ensures forall row :: row in table && Matches(spec, row) ==> row in m
  {
    MatchingFacts(table, spec);
    Select(table, MatchFlags(table, spec))
  }

  lemma {:induction false} MatchingFacts(table: seq<LogRow>, spec: Spec)
    ensures var m := Select(table, MatchFlags(table, spec));
      && (forall x :: x in m ==> x in table && Matches(spec, x))
      && (forall row :: row in table && Matches(spec, row) ==> row in m)
  {
    var flags := MatchFlags(table, spec);
    var kept := Select(table, flags);
    SelectAt(table, flags);
    var idx := Kept(flags);
    forall x | x in kept ensures x in table && Matches(spec, x) {
      var j :| 0 <= j < |kept| && kept[j] == x;
      assert kept[j] == table[idx[j]] && flags[idx[j]];
    }
    forall row | row in table && Matches(spec, row) ensures row in kept {
      var i :| 0 <= i < |table| && table[i] == row;
      assert flags[i];
      var k :| 0 <= k < |idx| && idx[k] == i;
      assert kept[k] == row;
    }
  }

  /** The matching rows in the query's order: the same rows, newest timestamp first
      when the query has ORDER BY. */
  function Ordered(table: seq<LogRow>, spec: Spec): (r: seq<LogRow>)
    ensures multiset(r) == multiset(Matching(table, spec))
    ensures spec.newestFirst ==> Sorted(ByTimestamp, r)
  {
    if spec.newestFirst then SortNewestFirst(ByTimestamp, Matching(table, spec)) else Matching(table, spec)
  }

  /** The largest `bigint`, the type PostgreSQL reads a LIMIT or OFFSET as. */
  const BigintMax: int := 0x7FFF_FFFF_FFFF_FFFF

  /** A LIMIT or OFFSET value PostgreSQL accepts: a `bigint` that is not negative. */
  predicate Bound(x: Option<Number>) {
    x.None? || (x.value.Int? && 0 <= x.value.n <= BigintMax)
  }

  /** The rows the query returns, or None when PostgreSQL rejects a LIMIT or OFFSET
      that is NaN, negative or beyond the `bigint` range. */
  function Run(table: seq<LogRow>, spec: Spec): (r: Option<seq<LogRow>>)
    ensures r.Some? <==> Bound(spec.limit) && Bound(spec.offset)
  {
    if !(Bound(spec.limit) && Bound(spec.offset)) then None
    else
      var ordered := Ordered(table, spec);
      var offset := if spec.offset.Some? then spec.offset.value.n else 0;
      var limit := if spec.limit.Some? then spec.limit.value.n else |ordered|;
      Some(Window(ordered, offset, limit))
  }

  function Min2(a: int, b: int): int {
    if a < b then a else b
  }

  /** A window of a sorted list is sorted. */
  lemma WindowSorted(o: Order, s: seq<LogRow>, offset: nat, limit: nat)
    requires Sorted(o, s)
    ensures Sorted(o, Window(s, offset, limit))
  {
    var r := Window(s, offset, limit);
    forall i, j | 0 <= i < j < |r| ensures Before(o, r[i], r[j]) {
      assert r[i] == s[offset + i] && r[j] == s[offset + j];
    }
  }

  /** Every row the query returns is a table row satisfying every filter present. */
  lemma {:induction false} RunRowsMatch(table: seq<LogRow>, spec: Spec)
    requires Run(table, spec).Some?
    ensures var r := Run(table, spec).value;
      forall k :: 0 <= k < |r| ==> r[k] in table && Matches(spec, r[k])
  {
    var ordered := Ordered(table, spec);
    var r := Run(table, spec).value;
    var offset := if spec.offset.Some? then spec.offset.value.n else 0;
    forall k | 0 <= k < |r| ensures r[k] in Matching(table, spec) {
      assert r[k] == ordered[offset + k];
      assert r[k] in multiset(ordered);
    }
  }

  /** Without an offset, and with no more matching rows than the limit, every matching
      row is returned. */
  lemma {:induction false} RunComplete(table: seq<LogRow>, spec: Spec)
    requires Run(table, spec).Some?
    requires spec.offset.None? || spec.offset.value.n == 0
    requires spec.limit.Some? ==> |Matching(table, spec)| <= spec.limit.value.n
    ensures forall row :: row in table && Matches(spec, row) ==> row in Run(table, spec).value
  {
    var ordered := Ordered(table, spec);
    assert Run(table, spec).value == ordered;
    forall row | row in table && Matches(spec, row) ensures row in ordered {
      assert row in multiset(Matching(table, spec));
    }
  }

  /** OFFSET and LIMIT: the answer is the ordered matching rows from position
      `offset` on, as many as the limit allows. */
  lemma RunWindow(table: seq<LogRow>, q: Request)
    requires Run(table, Intended(q)).Some?
    ensures var r := Run(table, Intended(q)).value;
      var ordered := Ordered(table, Intended(q));
      && |r| == (if OffsetOf(q).n >= |ordered| then 0 else Min2(|ordered| - OffsetOf(q).n, LimitOf(q).n))
      && (forall k :: 0 <= k < |r| ==> OffsetOf(q).n + k < |ordered| && r[k] == ordered[OffsetOf(q).n + k])
  {
    var spec := Intended(q);
    assert spec.offset == Some(OffsetOf(q)) && spec.limit == Some(LimitOf(q));
    assert Run(table, spec).value == Window(Ordered(table, spec), OffsetOf(q).n, LimitOf(q).n);
  }

  /** The rows of the intended query: matching table rows, newest timestamp (NULL
      first) first, at most `limit` of them, and all of them when nothing is skipped
      and the limit is not reached. */
  lemma RunRows(table: seq<LogRow>, q: Request)
    requires Run(table, Intended(q)).Some?
    ensures var r := Run(table, Intended(q)).value;
      && |r| <= LimitOf(q).n
      && (forall k :: 0 <= k < |r| ==> r[k] in table && Matches(Intended(q), r[k]))
      && Sorted(ByTimestamp, r)
      && (OffsetOf(q).n == 0 && |Matching(table, Intended(q))| <= LimitOf(q).n ==>
            forall row :: row in table && Matches(Intended(q), row) ==> row in r)
  {
    var spec := Intended(q);
    WindowSorted(ByTimestamp, Ordered(table, spec), OffsetOf(q).n, LimitOf(q).n);
    RunRowsMatch(table, spec);
    if OffsetOf(q).n == 0 && |Matching(table, spec)| <= LimitOf(q).n {
      RunComplete(table, spec);
    }
  }

  /** A row of the answer's `history`. */
  datatype Entry = Entry(id: int, inCount: int, outCount: int, aforo: int, timestamp: Timestamp,
                         deviceId: string, createdAt: Timestamp)

  /** One row of the answer's `history`. The count columns are NOT NULL integers, so `|| 0` keeps them. */
  function Normalize(row: LogRow): (e: Entry)
    ensures e.id == row.id && e.createdAt == row.createdAt
    ensures e.inCount == row.inCount && e.outCount == row.outCount && e.aforo == row.aforo
    ensures e.timestamp == if row.timestamp.Some? then row.timestamp.value else row.createdAt
    ensures e.deviceId == "unknown" <==> row.deviceId in {None, Some(""), Some("unknown")}
    ensures row.deviceId.Some? && row.deviceId.value != "" ==> e.deviceId == row.deviceId.value
  {
    Entry(row.id, if row.inCount == 0 then 0 else row.inCount, if row.outCount == 0 then 0 else row.outCount,
          if row.aforo == 0 then 0 else row.aforo, row.timestamp.GetOr(row.createdAt),
          DeviceOrUnknown(row.deviceId), row.createdAt)
  }

  /** `result.rows.map(...)`: one entry per row, in order. */
  function NormalizeAll(rows: seq<LogRow>): (es: seq<Entry>)
    ensures |es| == |rows|
    ensures forall k :: 0 <= k < |rows| ==> es[k] == Normalize(rows[k])
  {
    seq(|rows|, k requires 0 <= k < |rows| => Normalize(rows[k]))
  }

  /** The stats query's single row. */
  datatype Stats = Stats(totalRecords: nat, maxEntries: Option<int>, maxExits: Option<int>,
                         maxAforo: Option<int>, firstRecord: Option<Timestamp>, lastRecord: Option<Timestamp>)

  /** A column of the table: one value per row, in order. */
  function Column<V(!new)>(table: seq<LogRow>, f: LogRow -> V): (xs: seq<V>)
    ensures forall x :: x in xs <==> exists row :: row in table && f(row) == x
    ensures forall row :: row in table ==> f(row) in xs
  {
    if table == [] then []
    else
      assert table == [table[0]] + table[1..];
      [f(table[0])] + Column(table[1..], f)
  }

  /** `MAX(column)` over the whole table: NULL for an empty table, else the value of
      some row that no row exceeds. */
  function MaxOver(table: seq<LogRow>, f: LogRow -> int): (m: Option<int>)
    ensures m.None? <==> table == []
    ensures m.Some? ==> (exists row :: row in table && f(row) == m.value) && forall row :: row in table ==> f(row) <= m.value
  {
    var xs := Column(table, f);
    assert table != [] ==> f(table[0]) in xs;
    Max(xs)
  }

  /** `MIN(timestamp)` and `MAX(timestamp)`: NULLs are skipped, and a table without a
      timestamp gives NULL. */
  function StampBounds(table: seq<LogRow>): (b: (Option<Timestamp>, Option<Timestamp>))
    ensures b.0.None? <==> forall row :: row in table ==> row.timestamp.None?
    ensures b.1.None? <==> forall row :: row in table ==> row.timestamp.None?
    ensures b.0.Some? ==> exists row :: row in table && row.timestamp == b.0
    ensures b.0.Some? ==> forall row :: row in table && row.timestamp.Some? ==> b.0.value <= row.timestamp.value
    ensures b.1.Some? ==> exists row :: row in table && row.timestamp == b.1
    ensures b.1.Some? ==> forall row :: row in table && row.timestamp.Some? ==> row.timestamp.value <= b.1.value
  {
    var stamps := Present(Column(table, (row: LogRow) => row.timestamp));
    assert forall row :: row in table && row.timestamp.Some? ==> row.timestamp.value in stamps;
    (Min(stamps), Max(stamps))
  }

  /** The stats query: the row count, the largest counts and the timestamp range,
      computed over the whole table whatever the filters. */
  function TableStats(table: seq<LogRow>): (st: Stats)
    ensures st.totalRecords == |table|
    ensures st.maxEntries == MaxOver(table, (row: LogRow) => row.inCount)
    ensures st.maxExits == MaxOver(table, (row: LogRow) => row.outCount)
    ensures st.maxAforo == MaxOver(table, (row: LogRow) => row.aforo)
    ensures (st.firstRecord, st.lastRecord) == StampBounds(table)
  {
    var bounds := StampBounds(table);
    Stats(|table|, MaxOver(table, (row: LogRow) => row.inCount), MaxOver(table, (row: LogRow) => row.outCount),
          MaxOver(table, (row: LogRow) => row.aforo), bounds.0, bounds.1)
  }

  /** `pagination`: the numbers echoed as parsed, and the whole table's size. */
  datatype Pagination = Pagination(limit: Number, offset: Number, total: int)

  datatype HistoryResponse =
    | Unconfigured(pagination: Pagination)
    | Page(history: seq<Entry>, stats: Stats, pagination: Pagination)
    | Failed

  /** GET /api/history over `table`. `dbConfigured` is `POSTGRES_URL`; `dbFails` says
      whether either query throws for a reason outside the model (a date text the
      database cannot read, a missing table, the connection). */
  method HistoryGet(table: seq<LogRow>, q: Request, dbConfigured: bool, dbFails: bool) returns (resp: HistoryResponse)
    ensures !dbConfigured ==> resp == Unconfigured(Pagination(LimitOf(q), OffsetOf(q), 0))
    ensures dbConfigured && (dbFails || Run(table, Intended(q)).None?) ==> resp == Failed
    ensures dbConfigured && !dbFails && Run(table, Intended(q)).Some? ==>
      var rows := Run(table, Intended(q)).value;
      && resp.Page?
      && resp.history == NormalizeAll(rows)
      && resp.stats == TableStats(table)
      && resp.pagination == Pagination(LimitOf(q), OffsetOf(q), |table|)
  {
    var limit, offset := LimitOf(q), OffsetOf(q);
    if !dbConfigured {
      return Unconfigured(Pagination(limit, offset, 0));
    }
    var query, params, clauses := BuildQuery(q);
    ghost var spec := Decode(clauses, params).value;
    assert spec == Intended(q);
    var result := Run(table, Decode(clauses, params).value);
    assert result == Run(table, Intended(q));
    if dbFails || result.None? {
      return Failed;
    }
    var rows := result.value;
    var history := NormalizeAll(rows);
    var stats := TableStats(table);
    resp := Page(history, stats, Pagination(limit, offset, stats.totalRecords));
  }
}

/** The readings the browser pages hold, and the entry/exit events they derive from them.
    Both pages compare a reading with the one after it in a newest-first list. */
module Readings {
  import opened Wrappers
  import opened Seqs

  /** An instant, abstracted to an integer (milliseconds). */
  type Timestamp = int
  /** The calendar day of an instant as the browser's `toDateString` sees it. */
  type Day = int

  /** A history record as the pages hold it (`HistoryRecord`). */
  datatype Record = Record(inCount: int, outCount: int, aforo: int, timestamp: Timestamp, deviceId: Option<string>)

  datatype EventKind = Entrada | Salida

  /** A derived event: its kind and the rise of the counter that caused it. */
  datatype Event = Event(kind: EventKind, change: int)

  /** The type selector of both pages: 'all', 'entrada' or 'salida'. */
  datatype FilterType = All | Only(kind: EventKind)

  /** The event a reading shows against its predecessor: an entry when `inCount` rose
      (even if `outCount` rose as well), else an exit when `outCount` rose, else none. */
  function Classify(log: Record, prev: Record): (r: Option<Event>)
    ensures r.Some? ==> r.value.change > 0
    ensures (r.Some? && r.value.kind == Entrada) <==> log.inCount > prev.inCount
    ensures (r.Some? && r.value.kind == Salida) <==> log.inCount <= prev.inCount && log.outCount > prev.outCount
    ensures r.Some? && r.value.kind == Entrada ==> r.value.change == log.inCount - prev.inCount
    ensures r.Some? && r.value.kind == Salida ==> r.value.change == log.outCount - prev.outCount
  {
    var entryChange := log.inCount - prev.inCount;
    var exitChange := log.outCount - prev.outCount;
    if entryChange > 0 then Some(Event(Entrada, entryChange))
    else if exitChange > 0 then Some(Event(Salida, exitChange))
    else None
  }

  /** `getEventType(logs[i], i, logs)`: the predecessor is `logs[i + 1]`, and the last
      record has none. */
  function EventAt(logs: seq<Record>, i: nat): (r: Option<Event>)
    requires i < |logs|
    ensures i == |logs| - 1 ==> r.None?
    ensures i < |logs| - 1 ==> r == Classify(logs[i], logs[i + 1])
  {
    if i + 1 < |logs| then Classify(logs[i], logs[i + 1]) else None
  }

  /** The events of a whole list, one per record (what the tables show row by row). */
  function Events(logs: seq<Record>): (r: seq<Option<Event>>)
    ensures |r| == |logs|
    ensures forall i :: 0 <= i < |logs| ==> r[i] == EventAt(logs, i)
  {
    seq(|logs|, i requires 0 <= i < |logs| => EventAt(logs, i))
  }

  /** Whether an event passes the type selector; no event passes a specific type. */
  predicate MatchesType(e: Option<Event>, ft: FilterType) {
    ft.All? || (e.Some? && e.value.kind == ft.kind)
  }

  function DayFlags(logs: seq<Record>, day: Day, dayOf: Timestamp -> Day): (flags: seq<bool>)
    ensures |flags| == |logs|
    ensures forall i :: 0 <= i < |logs| ==> flags[i] == (dayOf(logs[i].timestamp) == day)
  {
    seq(|logs|, i requires 0 <= i < |logs| => dayOf(logs[i].timestamp) == day)
  }

  /** The date filter; `None` is the empty date input. */
  function FilterByDay(logs: seq<Record>, dateFilter: Option<Day>, dayOf: Timestamp -> Day): (r: seq<Record>)
    ensures dateFilter.None? ==> r == logs
    ensures forall x :: x in r ==> x in logs
    ensures dateFilter.Some? ==> forall x :: x in r ==> dayOf(x.timestamp) == dateFilter.value
    ensures dateFilter.Some? ==> forall x :: x in logs && dayOf(x.timestamp) == dateFilter.value ==> x in r
  {
    if dateFilter.None? then logs
    else
      var flags := DayFlags(logs, dateFilter.value, dayOf);
      SelectMembers(logs, flags);
      Select(logs, flags)
  }

  /** The date filter only removes records: what it keeps is in order, is on the chosen
      day, and every record of that day is kept. */
  lemma DayFilterKeeps(logs: seq<Record>, day: Day, dayOf: Timestamp -> Day)
    ensures SubsequenceAt(FilterByDay(logs, Some(day), dayOf), logs, Kept(DayFlags(logs, day, dayOf)))
    ensures forall x :: x in FilterByDay(logs, Some(day), dayOf) ==> dayOf(x.timestamp) == day
    ensures forall i :: 0 <= i < |logs| ==>
      (i in Kept(DayFlags(logs, day, dayOf)) <==> dayOf(logs[i].timestamp) == day)
  {
    SelectAt(logs, DayFlags(logs, day, dayOf));
  }

  /** A live update: the new reading goes first and the list is cut to `cap` entries
      (`[x, ...prev].slice(0, cap)`). */
  function PrependCap<T>(x: T, s: seq<T>, cap: nat): (r: seq<T>)
    requires cap > 0
    ensures |r| == if |s| + 1 <= cap then |s| + 1 else cap
    ensures r[0] == x
    ensures r[1..] == s[..|r| - 1]
  {
    var r := ([x] + s)[..if |s| + 1 <= cap then |s| + 1 else cap];
    assert r[1..] == s[..|r| - 1];
    r
  }

  /** Repeated live updates keep the list within the cap, however many arrive. */
  lemma {:induction false} PrependCapBounded<T>(xs: seq<T>, s: seq<T>, cap: nat)
    requires cap > 0 && |s| <= cap
    ensures |ApplyUpdates(xs, s, cap)| <= cap
    ensures |xs| > 0 ==> ApplyUpdates(xs, s, cap)[0] == xs[|xs| - 1]
    decreases |xs|
  {
    if |xs| > 0 {
      PrependCapBounded(xs[..|xs| - 1], s, cap);
    }
  }

  /** The list after the live updates `xs` arrived, oldest update first. */
  function ApplyUpdates<T>(xs: seq<T>, s: seq<T>, cap: nat): seq<T>
    requires cap > 0
    decreases |xs|
  {
    if |xs| == 0 then s else PrependCap(xs[|xs| - 1], ApplyUpdates(xs[..|xs| - 1], s, cap), cap)
  }

  /** The occupancy shown to users, `Math.max(0, aforo)`. */
  function DisplayAforo(aforo: int): (shown: nat)
    ensures aforo >= 0 ==> shown == aforo
    ensures aforo < 0 ==> shown == 0
  {
    if aforo > 0 then aforo else 0
  }
}

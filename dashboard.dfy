/** The main dashboard page (app/page.tsx): a summary list fed by live updates, and a
    "Logs Completos" tab that filters, paginates and exports the larger list. */
module Dashboard {
  import opened Wrappers
  import opened Seqs
  import opened Readings
  import opened Paging
  import Csv
  import Text
  import Store

  /** Cap on the summary list kept from live updates and polls. */
  const HistoryCap: nat := 50

  /** A record passes the dashboard's type filter when its event against its
      predecessor in the unfiltered list is of the chosen kind. */
  function TypeFlags(logs: seq<Record>, ft: FilterType): (flags: seq<bool>)
    ensures |flags| == |logs|
    ensures forall i :: 0 <= i < |logs| ==> flags[i] == MatchesType(EventAt(logs, i), ft)
  {
    seq(|logs|, i requires 0 <= i < |logs| => MatchesType(EventAt(logs, i), ft))
  }

  /** The type filter: a record is kept exactly when its event has the chosen kind. */
  function FilterByType(logs: seq<Record>, ft: FilterType): (r: seq<Record>)
    ensures ft.All? ==> r == logs
    ensures forall x :: x in r ==> exists i :: 0 <= i < |logs| && logs[i] == x && MatchesType(EventAt(logs, i), ft)
    ensures forall i :: 0 <= i < |logs| && MatchesType(EventAt(logs, i), ft) ==> logs[i] in r
  {
    if ft.All? then logs
    else
      SelectMembers(logs, TypeFlags(logs, ft));
      Select(logs, TypeFlags(logs, ft))
  }

  /** What `getFilteredLogs` returns: the type filter first, then the date filter. A
      record of the list is shown exactly when its event (against the unfiltered list)
      has the chosen kind and it lies on the chosen day. */
  function FilteredLogs(allLogs: seq<Record>, ft: FilterType, dateFilter: Option<Day>,
                        dayOf: Timestamp -> Day): (r: seq<Record>)
    ensures ft.All? && dateFilter.None? ==> r == allLogs
    ensures forall x :: x in r ==> exists i :: 0 <= i < |allLogs| && allLogs[i] == x && MatchesType(EventAt(allLogs, i), ft)
    ensures dateFilter.Some? ==> forall x :: x in r ==> dayOf(x.timestamp) == dateFilter.value
    ensures forall i :: 0 <= i < |allLogs| && MatchesType(EventAt(allLogs, i), ft) ==>
      (dateFilter.Some? ==> dayOf(allLogs[i].timestamp) == dateFilter.value) ==> allLogs[i] in r
  {
    FilterByDay(FilterByType(allLogs, ft), dateFilter, dayOf)
  }

  /** The type filter keeps exactly the positions whose event (against the unfiltered
      list) has the chosen kind, in order; 'all' keeps everything. */
  lemma TypeFilterKeeps(logs: seq<Record>, ft: FilterType)
    ensures ft.All? ==> FilterByType(logs, ft) == logs
    ensures ft.Only? ==> SubsequenceAt(FilterByType(logs, ft), logs, Kept(TypeFlags(logs, ft)))
    ensures ft.Only? ==> forall i :: 0 <= i < |logs| ==>
      (i in Kept(TypeFlags(logs, ft)) <==> EventAt(logs, i).Some? && EventAt(logs, i).value.kind == ft.kind)
  {
    if ft.Only? {
      SelectAt(logs, TypeFlags(logs, ft));
    }
  }

  lemma FilteredIsSubsequence(allLogs: seq<Record>, ft: FilterType, dateFilter: Option<Day>,
                              dayOf: Timestamp -> Day)
    ensures IsSubsequence(FilteredLogs(allLogs, ft, dateFilter, dayOf), allLogs)
  {
    var byType := FilterByType(allLogs, ft);
    if ft.All? { SubsequenceRefl(allLogs); } else { SelectIsSubsequence(allLogs, TypeFlags(allLogs, ft)); }
    if dateFilter.None? {
      SubsequenceRefl(byType);
    } else {
      SelectIsSubsequence(byType, DayFlags(byType, dateFilter.value, dayOf));
    }
    SubsequenceTrans(FilteredLogs(allLogs, ft, dateFilter, dayOf), byType, allLogs);
  }

  /** The readings r1 = (0 in, 0 out), r2 = (1, 0), r3 = (1, 1), newest first: r3 is an
      exit, r2 an entry, r1 has no event; with r2 filtered out, r3 becomes an entry,
      because the entry rule takes precedence over the exit that also happened. */
  lemma ViewDependentEvents()
    ensures var r1, r2, r3 := Record(0, 0, 0, 1, None), Record(1, 0, 1, 2, None), Record(1, 1, 0, 3, None);
      && EventAt([r3, r2, r1], 0) == Some(Event(Salida, 1))
      && EventAt([r3, r2, r1], 1) == Some(Event(Entrada, 1))
      && EventAt([r3, r2, r1], 2) == None
      && EventAt([r3, r1], 0) == Some(Event(Entrada, 1))
  {
    var r1, r2, r3 := Record(0, 0, 0, 1, None), Record(1, 0, 1, 2, None), Record(1, 1, 0, 3, None);
    assert Classify(r3, r2) == Some(Event(Salida, 1));
    assert Classify(r2, r1) == Some(Event(Entrada, 1));
    assert Classify(r3, r1) == Some(Event(Entrada, 1));
  }

  /** On the same readings the dashboard's 'salida' filter keeps only r3. */
  lemma ExitFilterExample()
    ensures var r1, r2, r3 := Record(0, 0, 0, 1, None), Record(1, 0, 1, 2, None), Record(1, 1, 0, 3, None);
      FilterByType([r3, r2, r1], Only(Salida)) == [r3]
  {
    var r1, r2, r3 := Record(0, 0, 0, 1, None), Record(1, 0, 1, 2, None), Record(1, 1, 0, 3, None);
    var logs := [r3, r2, r1];
    ExampleFlags();
    assert logs[..2] == [r3, r2] && [r3, r2][..1] == [r3] && [r3][..0] == [];
    var flags: seq<bool> := [true, false, false];
    assert flags[..2] == [true, false] && [true, false][..1] == [true] && [true][..0] == [];
    calc {
      Select(logs, flags);
      Select([r3, r2], [true, false]);
      Select([r3], [true]);
      [r3];
    }
  }

  lemma ExampleFlags()
    ensures TypeFlags([Record(1, 1, 0, 3, None), Record(1, 0, 1, 2, None), Record(0, 0, 0, 1, None)], Only(Salida))
      == [true, false, false]
  {
    var logs := [Record(1, 1, 0, 3, None), Record(1, 0, 1, 2, None), Record(0, 0, 0, 1, None)];
    var flags := TypeFlags(logs, Only(Salida));
    assert flags[0] && !flags[1] && !flags[2];
  }

  /** How long ago the last update was, in the unit `formatRelativeTime` picks. */
  datatype Elapsed = Seconds(n: int) | Minutes(n: int) | Hours(n: int) | Days(n: int)

  /** Flooring by 1000 then by 60 is flooring by 60 000, and so on up the units. */
  lemma NestedFloors(x: int)
    ensures (x / 1000) / 60 == x / 60_000
    ensures (x / 60_000) / 60 == x / 3_600_000
    ensures (x / 3_600_000) / 24 == x / 86_400_000
  {
  }

  /** `formatRelativeTime`: whole seconds (floored) below a minute, then whole minutes
      below an hour, whole hours below a day, and whole days. A clock ahead of `now`
      gives a negative number of seconds. */
  function RelativeTime(now: Timestamp, last: Timestamp): (r: Elapsed)
    ensures var elapsed := now - last;
      && (r.Seconds? <==> elapsed < 60_000)
      && (r.Minutes? <==> 60_000 <= elapsed < 3_600_000)
      && (r.Hours? <==> 3_600_000 <= elapsed < 86_400_000)
      && (r.Days? <==> 86_400_000 <= elapsed)
      && (r.Seconds? ==> r.n * 1000 <= elapsed < (r.n + 1) * 1000)
      && (r.Minutes? ==> r.n * 60_000 <= elapsed < (r.n + 1) * 60_000)
      && (r.Hours? ==> r.n * 3_600_000 <= elapsed < (r.n + 1) * 3_600_000)
      && (r.Days? ==> r.n * 86_400_000 <= elapsed < (r.n + 1) * 86_400_000)
  {
    var elapsed := now - last;
    var seconds := elapsed / 1000;
    if seconds < 60 then Seconds(seconds)
    else
      var minutes := seconds / 60;
      NestedFloors(elapsed);
      if minutes < 60 then Minutes(minutes)
      else
        var hours := minutes / 60;
        if hours < 24 then Hours(hours)
        else
          Days(hours / 24)
  }

  /** The text shown, "Hace <n> <unit>". */
  function RelativeLabel(e: Elapsed): (shown: string)
    ensures |shown| > 5 + |Text.IntToString(e.n)|
    ensures shown[..5] == "Hace " && shown[5..5 + |Text.IntToString(e.n)|] == Text.IntToString(e.n)
    ensures var unit := shown[5 + |Text.IntToString(e.n)|..];
      && (e.Seconds? <==> unit == " segundos")
      && (e.Minutes? <==> unit == " minutos")
      && (e.Hours? <==> unit == " horas")
      && (e.Days? <==> unit == " días")
  {
    "Hace " + Text.IntToString(e.n) +
      match e
      case Seconds(_) => " segundos"
      case Minutes(_) => " minutos"
      case Hours(_) => " horas"
      case Days(_) => " días"
  }

  /** The events of page `page`, each taken against the row's true neighbour in `list`. */
  function PageEvents(list: seq<Record>, page: int): (events: seq<Option<Event>>)
    requires page >= 1
    ensures |events| == |PageSlice(list, page)|
    ensures forall k :: 0 <= k < |events| ==>
      (page - 1) * LogsPerPage + k < |list| && events[k] == EventAt(list, (page - 1) * LogsPerPage + k)
  {
    Window(Events(list), (page - 1) * LogsPerPage, LogsPerPage)
  }

  /** An element of the summary list. Live updates and the history endpoint hand over
      readings with the fields `inCount`, `outCount`, `aforo`; the current-state
      endpoint hands over its `counter_logs` rows as the database returns them, with
      `in_count`, `out_count`, `device_id` (only `aforo` keeps its name), and the list
      keeps those as they are. */
  datatype SummaryItem = Reading(record: Record) | RawRow(row: Store.LogRow)

  function AsReadings(rs: seq<Record>): (items: seq<SummaryItem>)
    ensures |items| == |rs|
    ensures forall k :: 0 <= k < |rs| ==> items[k] == Reading(rs[k])
  {
    seq(|rs|, k requires 0 <= k < |rs| => Reading(rs[k]))
  }

  function AsRawRows(rows: seq<Store.LogRow>): (items: seq<SummaryItem>)
    ensures |items| == |rows|
    ensures forall k :: 0 <= k < |rows| ==> items[k] == RawRow(rows[k])
  {
    seq(|rows|, k requires 0 <= k < |rows| => RawRow(rows[k]))
  }

  /** The count cells of a summary row: entries, exits, and the occupancy shown. */
  datatype SummaryCells = SummaryCells(entries: Option<int>, exits: Option<int>, aforo: nat)

  /** A raw row has no `inCount` or `outCount` field, so those two cells are empty; it
      does have `aforo`, which is shown clamped at 0 like a reading's. */
  function SummaryRowCells(item: SummaryItem): (c: SummaryCells)
    ensures c.entries.Some? <==> item.Reading?
    ensures c.exits.Some? <==> item.Reading?
    ensures item.Reading? ==> c.entries.value == item.record.inCount && c.exits.value == item.record.outCount
    ensures c.aforo == DisplayAforo(if item.Reading? then item.record.aforo else item.row.aforo)
  {
    match item
    case Reading(r) => SummaryCells(Some(r.inCount), Some(r.outCount), DisplayAforo(r.aforo))
    case RawRow(row) => SummaryCells(None, None, DisplayAforo(row.aforo))
  }

  /** The page component's state slots. `dayOf` is the browser's calendar day of an instant. */
  class Dashboard {
    var currentData: Record
    var history: seq<SummaryItem>
    var allLogs: seq<Record>
    var filterType: FilterType
    var dateFilter: Option<Day>
    var currentPage: int
    const dayOf: Timestamp -> Day

    ghost predicate Valid()
      reads this
    {
      currentPage >= 1 && |history| <= HistoryCap
    }

    constructor (startTime: Timestamp, dayOf: Timestamp -> Day)
      ensures Valid()
      ensures currentData == Record(0, 0, 0, startTime, None)
      ensures history == [] && allLogs == []
      ensures filterType == All && dateFilter == None && currentPage == 1
      ensures this.dayOf == dayOf
    {
      currentData := Record(0, 0, 0, startTime, None);
      history, allLogs := [], [];
      filterType, dateFilter, currentPage := All, None, 1;
      this.dayOf := dayOf;
    }

    /** A 'counter-update' from the relay: it becomes the current reading and is put in
        front of the summary list, which keeps at most 50 entries. `allLogs` is not touched. */
    method OnCounterUpdate(data: Record)
      requires Valid()
      modifies this
      ensures Valid()
      ensures currentData == data
      ensures history == PrependCap(Reading(data), old(history), HistoryCap)
      ensures allLogs == old(allLogs) && filterType == old(filterType)
      ensures dateFilter == old(dateFilter) && currentPage == old(currentPage)
    {
      currentData := data;
      history := PrependCap(Reading(data), history, HistoryCap);
    }

    /** The answer of the current-state endpoint; a missing field leaves its slot alone.
        Its `history` rows go into the summary list raw: none of them shows entry or
        exit counts, and each shows its row's `aforo`. */
    method OnCurrentData(current: Option<Record>, recent: Option<seq<Store.LogRow>>)
      requires Valid()
      modifies this
      ensures Valid()
      ensures currentData == if current.Some? then current.value else old(currentData)
      ensures history == if recent.Some? then Take(AsRawRows(recent.value), HistoryCap) else old(history)
      ensures recent.Some? ==> forall k :: 0 <= k < |history| ==>
        SummaryRowCells(history[k]).entries.None? && SummaryRowCells(history[k]).exits.None?
        && SummaryRowCells(history[k]).aforo == DisplayAforo(recent.value[k].aforo)
      ensures allLogs == old(allLogs) && filterType == old(filterType)
      ensures dateFilter == old(dateFilter) && currentPage == old(currentPage)
    {
      if current.Some? { currentData := current.value; }
      if recent.Some? { history := Take(AsRawRows(recent.value), HistoryCap); }
    }

    /** The two history answers (limit 50 and limit 1000) replace the two lists whole. */
    method OnHistory(summary: Option<seq<Record>>, all: Option<seq<Record>>)
      requires Valid()
      requires summary.Some? ==> |summary.value| <= HistoryCap
      modifies this
      ensures Valid()
      ensures history == if summary.Some? then AsReadings(summary.value) else old(history)
      ensures allLogs == if all.Some? then all.value else old(allLogs)
      ensures currentData == old(currentData) && filterType == old(filterType)
      ensures dateFilter == old(dateFilter) && currentPage == old(currentPage)
    {
      if summary.Some? { history := AsReadings(summary.value); }
      if all.Some? { allLogs := all.value; }
    }

    /** Choosing a type or a date does not reset the page: the page shown may then lie
        beyond the new last page. */
    method SetFilters(ft: FilterType, date: Option<Day>)
      requires Valid()
      modifies this
      ensures Valid()
      ensures filterType == ft && dateFilter == date
      ensures currentPage == old(currentPage)
      ensures currentData == old(currentData) && history == old(history) && allLogs == old(allLogs)
    {
      filterType, dateFilter := ft, date;
    }

    /** `getFilteredLogs`: the list filtered by type, then by date. */
    method GetFilteredLogs() returns (filtered: seq<Record>)
      ensures filtered == FilteredLogs(allLogs, filterType, dateFilter, dayOf)
      ensures IsSubsequence(filtered, allLogs)
    {
      filtered := allLogs;
      if filterType != All {
        filtered := Select(filtered, TypeFlags(allLogs, filterType));
      }
      if dateFilter.Some? {
        filtered := Select(filtered, DayFlags(filtered, dateFilter.value, dayOf));
      }
      FilteredIsSubsequence(allLogs, filterType, dateFilter, dayOf);
    }

    function TotalPagesNow(): nat
      reads this
    {
      TotalPages(|FilteredLogs(allLogs, filterType, dateFilter, dayOf)|)
    }

    /** The rows of the current page with their events. The table looks a row up with
        `filteredLogs.indexOf(log)`, which for the distinct row objects is the row's own
        position in the filtered list, so each event is taken against its true neighbour. */
    method PageRows() returns (rows: seq<Record>, events: seq<Option<Event>>)
      requires Valid()
      ensures var filtered := FilteredLogs(allLogs, filterType, dateFilter, dayOf);
        rows == PageSlice(filtered, currentPage) && events == PageEvents(filtered, currentPage)
      ensures |rows| <= LogsPerPage && |events| == |rows|
    {
      var filtered := GetFilteredLogs();
      rows := PageSlice(filtered, currentPage);
      events := PageEvents(filtered, currentPage);
    }

    /** The pagination buttons exist only when there is more than one page and the
        current page has rows. */
    predicate ControlsShown()
      reads this
    {
      currentPage >= 1 && TotalPagesNow() > 1 && PageSlice(FilteredLogs(allLogs, filterType, dateFilter, dayOf), currentPage) != []
    }

    /** "Anterior": disabled on page 1. */
    method ClickPrev()
      requires Valid()
      modifies this
      ensures Valid()
      ensures currentPage == if old(ControlsShown()) && old(currentPage) != 1 then PrevPage(old(currentPage)) else old(currentPage)
      ensures old(ControlsShown()) ==> 1 <= currentPage <= TotalPagesNow()
      ensures allLogs == old(allLogs) && history == old(history) && currentData == old(currentData)
      ensures filterType == old(filterType) && dateFilter == old(dateFilter)
    {
      if ControlsShown() && currentPage != 1 {
        currentPage := PrevPage(currentPage);
      }
    }

    /** "Siguiente": disabled on the last page. */
    method ClickNext()
      requires Valid()
      modifies this
      ensures Valid()
      ensures currentPage == if old(ControlsShown()) && old(currentPage) != old(TotalPagesNow())
                             then NextPage(old(currentPage), old(TotalPagesNow())) else old(currentPage)
      ensures old(ControlsShown()) ==> 1 <= currentPage <= TotalPagesNow()
      ensures allLogs == old(allLogs) && history == old(history) && currentData == old(currentData)
      ensures filterType == old(filterType) && dateFilter == old(dateFilter)
    {
      var tp := TotalPagesNow();
      if ControlsShown() && currentPage != tp {
        currentPage := NextPage(currentPage, tp);
      }
    }

    /** `exportToCSV`: the filtered list, events taken against the filtered list. */
    method ExportCsv(stampOf: Timestamp -> string) returns (csv: string)
      ensures csv == Csv.CsvContent(FilteredLogs(allLogs, filterType, dateFilter, dayOf), stampOf)
    {
      var filtered := GetFilteredLogs();
      csv := Csv.CsvContent(filtered, stampOf);
    }
  }
}

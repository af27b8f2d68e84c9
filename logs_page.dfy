/** The stand-alone logs page (app/logs/page.tsx): one list of up to 1000 records, a
    filtered copy kept in state, pagination and CSV export. */
module LogsView {
  import opened Wrappers
  import opened Seqs
  import opened Readings
  import opened Paging
  import Csv
  import Dashboard

  /** Cap on the list kept from live updates. */
  const LogsCap: nat := 1000

  /** This page's type test for record `i`: it needs a predecessor in `logs`; 'entrada'
      asks that `inCount` rose, 'salida' that `outCount` rose, with no entry precedence. */
  predicate KeepOnLogsPage(logs: seq<Record>, i: nat, kind: EventKind)
    requires i < |logs|
  {
    && i + 1 < |logs|
    && match kind
       case Entrada => logs[i].inCount - logs[i + 1].inCount > 0
       case Salida => logs[i].outCount - logs[i + 1].outCount > 0
  }

  function LogsTypeFlags(logs: seq<Record>, kind: EventKind): (flags: seq<bool>)
    ensures |flags| == |logs|
    ensures forall i :: 0 <= i < |logs| ==> flags[i] == KeepOnLogsPage(logs, i, kind)
  {
    seq(|logs|, i requires 0 <= i < |logs| => KeepOnLogsPage(logs, i, kind))
  }

  /** What `applyFilters` stores in `filteredLogs`: type filter, then date filter. */
  function LogsFiltered(logs: seq<Record>, ft: FilterType, dateFilter: Option<Day>,
                        dayOf: Timestamp -> Day): (r: seq<Record>)
    ensures ft.All? && dateFilter.None? ==> r == logs
    ensures forall x :: x in r ==> x in logs
    ensures ft.Only? ==> forall x :: x in r ==> exists i :: 0 <= i < |logs| && logs[i] == x && KeepOnLogsPage(logs, i, ft.kind)
    ensures dateFilter.Some? ==> forall x :: x in r ==> dayOf(x.timestamp) == dateFilter.value
    ensures forall i :: 0 <= i < |logs| && (ft.Only? ==> KeepOnLogsPage(logs, i, ft.kind)) ==>
      (dateFilter.Some? ==> dayOf(logs[i].timestamp) == dateFilter.value) ==> logs[i] in r
  {
    if ft.All? then FilterByDay(logs, dateFilter, dayOf)
    else
      var flags := LogsTypeFlags(logs, ft.kind);
      SelectMembers(logs, flags);
      FilterByDay(Select(logs, flags), dateFilter, dayOf)
  }

  /** The two pages agree on 'entrada'. On 'salida' this page also keeps the records in
      which both counts rose, which the dashboard classifies as entries and drops. */
  lemma TypeFiltersCompared(logs: seq<Record>)
    ensures LogsTypeFlags(logs, Entrada) == Dashboard.TypeFlags(logs, Only(Entrada))
    ensures forall i :: 0 <= i < |logs| ==>
      (LogsTypeFlags(logs, Salida)[i] <==>
        Dashboard.TypeFlags(logs, Only(Salida))[i]
        || (i + 1 < |logs| && logs[i].inCount > logs[i + 1].inCount && logs[i].outCount > logs[i + 1].outCount))
  {
    var a, b := LogsTypeFlags(logs, Entrada), Dashboard.TypeFlags(logs, Only(Entrada));
    assert |a| == |b|;
    forall i | 0 <= i < |a| ensures a[i] == b[i] {
      if i + 1 < |logs| {
        var e := Classify(logs[i], logs[i + 1]);
        assert (e.Some? && e.value.kind == Entrada) <==> logs[i].inCount > logs[i + 1].inCount;
      }
    }
    var c, d := LogsTypeFlags(logs, Salida), Dashboard.TypeFlags(logs, Only(Salida));
    forall i | 0 <= i < |logs|
      ensures c[i] <==> d[i] || (i + 1 < |logs| && logs[i].inCount > logs[i + 1].inCount && logs[i].outCount > logs[i + 1].outCount)
    {
      if i + 1 < |logs| {
        assert d[i] == MatchesType(Classify(logs[i], logs[i + 1]), Only(Salida));
      }
    }
  }

  lemma LogsFilteredIsSubsequence(logs: seq<Record>, ft: FilterType, dateFilter: Option<Day>,
                                  dayOf: Timestamp -> Day)
    ensures IsSubsequence(LogsFiltered(logs, ft, dateFilter, dayOf), logs)
  {
    var byType := if ft.All? then logs else Select(logs, LogsTypeFlags(logs, ft.kind));
    if ft.All? { SubsequenceRefl(logs); } else { SelectIsSubsequence(logs, LogsTypeFlags(logs, ft.kind)); }
    if dateFilter.None? {
      SubsequenceRefl(byType);
    } else {
      SelectIsSubsequence(byType, DayFlags(byType, dateFilter.value, dayOf));
    }
    SubsequenceTrans(LogsFiltered(logs, ft, dateFilter, dayOf), byType, logs);
  }

  /** `getEventType(log, index)`: the predecessor is always `filteredLogs[index + 1]`,
      whatever list `log` was taken from. */
  function ShownEvent(filteredLogs: seq<Record>, log: Record, index: nat): (e: Option<Event>)
    ensures index + 1 >= |filteredLogs| ==> e.None?
    ensures index < |filteredLogs| && log == filteredLogs[index] ==> e == EventAt(filteredLogs, index)
  {
    if index + 1 < |filteredLogs| then Classify(log, filteredLogs[index + 1]) else None
  }

  /** The table of page `page` passes the row's position on the page, so row `k` of
      the page is compared with record `k + 1` of the whole list: on page 1 that is
      its true neighbour, on later pages it is a record of page 1. */
  lemma ShownEventPredecessor(filteredLogs: seq<Record>, page: int, k: nat)
    requires page >= 1 && k < |PageSlice(filteredLogs, page)|
    ensures var row := PageSlice(filteredLogs, page)[k];
      && row == filteredLogs[(page - 1) * LogsPerPage + k]
      && (page == 1 ==> ShownEvent(filteredLogs, row, k) == EventAt(filteredLogs, k))
      && (k + 1 < |filteredLogs| ==> ShownEvent(filteredLogs, row, k) == Classify(row, filteredLogs[k + 1]))
  {
  }

  /** 102 records, newest first, in which only the two oldest have `inCount` 1: the
      first row of page 2 (record 100) is shown as an entry, because it is compared with
      record 1, although against its true predecessor (record 101) it has no event. */
  lemma PageTwoShowsWrongNeighbour()
    ensures var logs := seq(102, i requires 0 <= i < 102 => Record(if i >= 100 then 1 else 0, 0, 0, 101 - i, None));
      && PageSlice(logs, 2)[0] == logs[100]
      && ShownEvent(logs, PageSlice(logs, 2)[0], 0) == Some(Event(Entrada, 1))
      && EventAt(logs, 100) == None
  {
    var logs := seq(102, i requires 0 <= i < 102 => Record(if i >= 100 then 1 else 0, 0, 0, 101 - i, None));
    assert logs[100].inCount == 1 && logs[101].inCount == 1 && logs[1].inCount == 0;
  }

  /** The page component's state slots. `dayOf` is the browser's calendar day of an
      instant. The effect that runs `applyFilters` whenever `logs`, `filterType` or
      `dateFilter` change is folded into the handlers that change them. */
  class LogsPage {
    var logs: seq<Record>
    var filteredLogs: seq<Record>
    var currentPage: int
    var filterType: FilterType
    var dateFilter: Option<Day>
    const dayOf: Timestamp -> Day

    /** `filteredLogs` is the filtered `logs`, and the page is 1 or an existing page. */
    ghost predicate Valid()
      reads this
    {
      && filteredLogs == LogsFiltered(logs, filterType, dateFilter, dayOf)
      && 1 <= currentPage
      && (currentPage == 1 || currentPage <= TotalPages(|filteredLogs|))
    }

    constructor (dayOf: Timestamp -> Day)
      ensures Valid()
      ensures logs == [] && filteredLogs == [] && currentPage == 1
      ensures filterType == All && dateFilter == None && this.dayOf == dayOf
    {
      logs, filteredLogs, currentPage := [], [], 1;
      filterType, dateFilter := All, None;
      this.dayOf := dayOf;
    }

    /** `applyFilters`: store the filtered list and go back to page 1. */
    method ApplyFilters()
      modifies this
      ensures Valid()
      ensures filteredLogs == LogsFiltered(logs, filterType, dateFilter, dayOf)
      ensures IsSubsequence(filteredLogs, logs)
      ensures currentPage == 1
      ensures logs == old(logs) && filterType == old(filterType) && dateFilter == old(dateFilter)
    {
      var filtered := logs;
      if filterType != All {
        filtered := Select(filtered, LogsTypeFlags(logs, filterType.kind));
      }
      if dateFilter.Some? {
        filtered := Select(filtered, DayFlags(filtered, dateFilter.value, dayOf));
      }
      filteredLogs := filtered;
      currentPage := 1;
      LogsFilteredIsSubsequence(logs, filterType, dateFilter, dayOf);
    }

    /** The answer of the history endpoint (limit 1000) replaces the list, when it has one. */
    method FetchLogs(history: Option<seq<Record>>)
      requires Valid()
      modifies this
      ensures Valid()
      ensures logs == if history.Some? then history.value else old(logs)
      ensures history.Some? ==> currentPage == 1
      ensures history.None? ==> filteredLogs == old(filteredLogs) && currentPage == old(currentPage)
      ensures filterType == old(filterType) && dateFilter == old(dateFilter)
    {
      if history.Some? {
        logs := history.value;
        ApplyFilters();
      }
    }

    /** A 'counter-update': the new record goes first and the list keeps at most 1000. */
    method OnCounterUpdate(newLog: Record)
      requires Valid()
      modifies this
      ensures Valid()
      ensures logs == PrependCap(newLog, old(logs), LogsCap)
      ensures currentPage == 1
      ensures filterType == old(filterType) && dateFilter == old(dateFilter)
    {
      logs := PrependCap(newLog, logs, LogsCap);
      ApplyFilters();
    }

    /** A new selection refilters and resets the page; selecting the current values
        again does not run the effect. */
    method SetFilters(ft: FilterType, date: Option<Day>)
      requires Valid()
      modifies this
      ensures Valid()
      ensures filterType == ft && dateFilter == date && logs == old(logs)
      ensures currentPage == if ft == old(filterType) && date == old(dateFilter) then old(currentPage) else 1
    {
      if ft != filterType || date != dateFilter {
        filterType, dateFilter := ft, date;
        ApplyFilters();
      }
    }

    method PaginatedLogs() returns (rows: seq<Record>)
      requires Valid()
      ensures rows == PageSlice(filteredLogs, currentPage)
      ensures |rows| <= LogsPerPage
      ensures |filteredLogs| > 0 ==> rows != []
    {
      rows := PageSlice(filteredLogs, currentPage);
    }

    /** The events the table shows for the current page, looked up with the row's
        position on the page. */
    method RowEvents() returns (events: seq<Option<Event>>)
      requires Valid()
      ensures var rows := PageSlice(filteredLogs, currentPage);
        && |events| == |rows|
        && forall k :: 0 <= k < |rows| ==> events[k] == ShownEvent(filteredLogs, rows[k], k)
    {
      var rows := PaginatedLogs();
      var list := filteredLogs;
      events := seq(|rows|, k requires 0 <= k < |rows| => ShownEvent(list, rows[k], k));
    }

    predicate ControlsShown()
      reads this
    {
      currentPage >= 1 && TotalPages(|filteredLogs|) > 1 && PageSlice(filteredLogs, currentPage) != []
    }

    /** "Anterior": disabled on page 1. */
    method ClickPrev()
      requires Valid()
      modifies this
      ensures Valid()
      ensures currentPage == if old(ControlsShown()) && old(currentPage) != 1 then PrevPage(old(currentPage)) else old(currentPage)
      ensures 1 <= currentPage && (currentPage == 1 || currentPage <= TotalPages(|filteredLogs|))
      ensures logs == old(logs) && filteredLogs == old(filteredLogs)
      ensures filterType == old(filterType) && dateFilter == old(dateFilter)
    {
      if ControlsShown() && currentPage != 1 {
        currentPage := PrevPage(currentPage);
      }
    }

    /** "Siguiente": disabled on the last page. */
    method ClickNext()
      requires Valid()
      modifies this
      ensures Valid()
      ensures var tp := TotalPages(|filteredLogs|);
        currentPage == if old(ControlsShown()) && old(currentPage) != tp then NextPage(old(currentPage), tp) else old(currentPage)
      ensures logs == old(logs) && filteredLogs == old(filteredLogs)
      ensures filterType == old(filterType) && dateFilter == old(dateFilter)
    {
      var tp := TotalPages(|filteredLogs|);
      if ControlsShown() && currentPage != tp {
        currentPage := NextPage(currentPage, tp);
      }
    }

    /** `exportToCSV`: the filtered list, events indexed over `filteredLogs`. */
    method ExportCsv(stampOf: Timestamp -> string) returns (csv: string)
      ensures csv == Csv.CsvContent(filteredLogs, stampOf)
    {
      csv := Csv.CsvContent(filteredLogs, stampOf);
    }
  }
}

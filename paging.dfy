/** In-memory pagination of a filtered list, as both pages do it (100 rows per page). */
module Paging {
  import opened Seqs

  const LogsPerPage: nat := 100

  /** `Math.ceil(n / LOGS_PER_PAGE)`. */
  function TotalPages(n: nat): (pages: nat)
    ensures (pages - 1) * LogsPerPage < n <= pages * LogsPerPage || (n == 0 && pages == 0)
    ensures pages == 0 <==> n == 0
  {
    (n + LogsPerPage - 1) / LogsPerPage
  }

  /** `list.slice((page - 1) * LOGS_PER_PAGE, page * LOGS_PER_PAGE)`. */
  function PageSlice<T>(s: seq<T>, page: int): (rows: seq<T>)
    requires page >= 1
    ensures |rows| <= LogsPerPage
    ensures forall k :: 0 <= k < |rows| ==>
      (page - 1) * LogsPerPage + k < |s| && rows[k] == s[(page - 1) * LogsPerPage + k]
    ensures rows == [] <==> page > TotalPages(|s|)
    ensures page < TotalPages(|s|) ==> |rows| == LogsPerPage
  {
    Window(s, (page - 1) * LogsPerPage, LogsPerPage)
  }

  /** Every record is on exactly one page within `1..TotalPages`: record `i` is row
      `i % 100` of page `i / 100 + 1`. */
  lemma PageOf<T>(s: seq<T>, i: nat)
    requires i < |s|
    ensures var page := i / LogsPerPage + 1;
      1 <= page <= TotalPages(|s|)
      && i % LogsPerPage < |PageSlice(s, page)|
      && PageSlice(s, page)[i % LogsPerPage] == s[i]
  {
    var page := i / LogsPerPage + 1;
    assert (page - 1) * LogsPerPage + i % LogsPerPage == i;
  }

  /** The "Anterior" button: `Math.max(prev - 1, 1)`. */
  function PrevPage(page: int): (p: int)
    ensures p >= 1
    ensures page > 1 ==> p == page - 1
    ensures page <= 1 ==> p == 1
  {
    if page - 1 > 1 then page - 1 else 1
  }

  /** The "Siguiente" button: `Math.min(prev + 1, totalPages)`. */
  function NextPage(page: int, totalPages: int): (p: int)
    ensures p <= totalPages
    ensures page < totalPages ==> p == page + 1
    ensures page >= totalPages ==> p == totalPages
  {
    if page + 1 < totalPages then page + 1 else totalPages
  }

  /** Both buttons keep a page that is in `1..totalPages` inside that range. */
  lemma ButtonsStayInRange(page: int, totalPages: int)
    requires 1 <= page <= totalPages
    ensures 1 <= PrevPage(page) <= totalPages
    ensures 1 <= NextPage(page, totalPages) <= totalPages
  {
  }
}

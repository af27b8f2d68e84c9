# People-counter dashboard: a Dafny model

The system counts the people who enter and leave a site. A counting device POSTs
cumulative readings (`inCount`, `outCount`, `aforo`, that is occupancy, plus a
timestamp and a device id) to `/api/counter`. The server does four things with a
reading. It keeps the latest one in memory. It stores it in the PostgreSQL table
`counter_logs`, with optional `recentEvents` rows in `counter_events`. It publishes
it on the relay channel `counter-channel` as a `counter-update`. It serves it back:
the newest state and rows through `GET /api/counter`, and a filtered, paginated
history with whole-table stats through `GET /api/history`.

Two browser pages show the readings:

- the dashboard (`app/page.tsx`), with a summary list and a "Logs Completos" tab;
- the logs page (`app/logs/page.tsx`).

Both pages do the same things with a newest-first list. They derive entry
(`entrada`) and exit (`salida`) events by comparing each reading with the one after
it. They filter by event type and by calendar day. They show 100 rows per page, and
they export the list as CSV. `lib/sse.ts` keeps a registry of server-push stream
controllers and broadcasts `data: ...` frames to them.

## Modules

| module | file | models |
|---|---|---|
| `Wrappers` | `wrappers.dfy` | `Option`, for JSON fields and nullable columns |
| `Seqs` | `seqs.dfy` | `Array.prototype.filter` as order-preserving selection; `slice`, `LIMIT` and `OFFSET` |
| `Text` | `text.dfy` | decimal rendering of integers, `join`, and character counts |
| `Readings` | `readings.dfy` | the pages' records, event classification, the date filter, capped prepends |
| `Paging` | `paging.dfy` | the 100-per-page slicing and the two buttons |
| `Csv` | `csv.dfy` | the CSV export |
| `Dashboard` | `dashboard.dfy` | `app/page.tsx`; its state is the class `Dashboard.Dashboard` |
| `LogsView` | `logs_page.dfy` | `app/logs/page.tsx`; its state is the class `LogsView.LogsPage` |
| `Store` | `store.dfy` | table rows, the `ORDER BY ... DESC` orders, and `MAX`/`MIN` |
| `CounterRoute` | `counter_route.dfy` | `app/api/counter/route.ts`; its state is the class `CounterRoute.CounterServer` |
| `HistoryRoute` | `history_route.dfy` | `app/api/history/route.ts` |
| `Sse` | `sse.dfy` | `lib/sse.ts`, and the event-stream parsing a client does on its frames |

### Conventions

**Timestamps and days.** Instants are integers (milliseconds). The browser's
`toDateString` day of an instant is a function parameter `dayOf`.

**Database failures.** Failures are oracle parameters:

- For POST, `dbFailAt` names the first statement that throws:
  - 0 is `CREATE TABLE`;
  - 1 is the log insert;
  - `2 + j` is the insert of event `j`.

  Nothing after it runs, and nothing is rolled back. No code in the source creates
  `counter_events`, so on a fresh database the first event insert is the one that
  throws.
- For GET, `dbFails` covers every reason a query can throw that the model does not
  compute.

**The query.** The history query is modelled twice:

- as its text and parameter list;
- as the clause list the text renders.

`HistoryRoute.Decode` gives the meaning the database reads from the text and the
parameters. `HistoryRoute.Run` executes that meaning over the table.

**Relay and stream registry.** The relay publication is a list of published payloads.
A stream controller is a number. `Sse.Registry.Received` gives the frames a
controller has been handed.

**GET response fields.** `GET /api/counter` answers with `current` and `history`
only. The model follows the code in this. Its `history` is the raw `counter_logs`
rows, with snake-case fields. The dashboard's summary list therefore holds two kinds
of element (`Dashboard.SummaryItem`): readings, from live updates and from the history
endpoint, and raw rows, from the current-state endpoint. The summary table cannot
read a raw row's `in_count` and `out_count`, but it does show its `aforo`.

## Model

| member | source | states |
|---|---|---|
| `Readings.Classify` | app/page.tsx:194-204 | An entry exactly when `inCount` rose, even if `outCount` rose too. An exit exactly when `inCount` did not rise and `outCount` did. The change is the positive rise of the counter that decided the kind. |
| `Readings.EventAt` | app/page.tsx:194-196 | The last record of a list has no event. Every other record is classified against the record after it. |
| `Readings.Events` | app/page.tsx:561 | One event per record, and each is exactly `EventAt` at that position. |
| `Readings.DayFlags` | app/page.tsx:221-224 | One flag per record, set exactly when the record's day is the chosen day. |
| `Readings.FilterByDay` | app/page.tsx:218-226 | No date keeps the list. A date keeps records of the list that lie on that day, and every record of that day. |
| `Readings.DayFilterKeeps` | app/page.tsx:219-225 | The date filter keeps the flagged positions in their original order. Every kept record is on the chosen day, and every record of that day is kept. |
| `Readings.PrependCap` | app/page.tsx:75 | The new reading comes first, followed by the old list in order, cut to `cap` entries, with the exact resulting length. |
| `Readings.PrependCapBounded` | app/logs/page.tsx:80 | However many live updates arrive, the list stays within the cap and starts with the latest update. |
| `Readings.DisplayAforo` | app/page.tsx:332 | The occupancy shown is the occupancy when it is not negative, and 0 otherwise. |
| `Seqs.Select` | app/page.tsx:211-215 | Filtering never grows the list and keeps only elements of the list. |
| `Seqs.Kept` | app/page.tsx:211-215 | The kept positions increase strictly, every one of them is flagged, and every flagged position is among them. |
| `Seqs.SelectAt` | app/page.tsx:211-215 | The filtered list is the subsequence found at the flagged positions. |
| `Seqs.SelectMembers` | app/page.tsx:211-215 | Every kept element is a flagged element of the list, and every flagged element is kept. |
| `Seqs.SubsequenceTrans` | app/page.tsx:206-225 | Two successive filters still give a subsequence of the original list. |
| `Seqs.Take` | app/page.tsx:131 | `slice(0, n)` returns the prefix of length exactly `n` of a longer list, and the whole list when it is short enough. |
| `Seqs.Window` | app/page.tsx:517-520 | Skipping `offset` and keeping at most `limit` gives the exact length, and row `k` is element `offset + k`. |
| `Paging.TotalPages` | app/page.tsx:521 | The ceiling of `n / 100`; it is zero exactly for an empty list. |
| `Paging.PageSlice` | app/page.tsx:517-520 | Page `p` holds at most 100 rows, and they are elements `(p-1)*100 + k` in order. It is empty exactly beyond the last page, and full before the last page. |
| `Paging.PageOf` | app/logs/page.tsx:170-175 | Every record appears on a page between 1 and the number of pages, at row `i % 100` of page `i / 100 + 1`. |
| `Paging.PrevPage` | app/page.tsx:611 | `Math.max(prev - 1, 1)`: one page back, never below 1. |
| `Paging.NextPage` | app/page.tsx:618 | `Math.min(prev + 1, totalPages)`: one page on, never beyond the last page. |
| `Paging.ButtonsStayInRange` | app/page.tsx:610-623 | From a page in `1..totalPages`, both buttons stay in that range. |
| `Text.NatToString` | app/api/history/route.ts:37 | The decimal text of a number is non-empty and made of digits only. |
| `Text.ParseNatToString` | app/api/history/route.ts:37 | Reading the decimal text back gives the number, so `$k` names parameter `k`. |
| `Text.IntToString` | app/page.tsx:239-242 | The text of an integer is digits, with a leading minus sign only for negative values. |
| `Text.IntToStringRoundTrip` | app/page.tsx:239-242 | Reading the text of an integer back, sign included, gives the integer. |
| `Text.NegativeRoundTrip` | app/page.tsx:239-242 | A negative integer's text is a minus sign followed by the digits of its magnitude. |
| `Text.Count` | app/page.tsx:246 | The count of a character is zero exactly when the character is absent. |
| `Text.CountAppend` | app/page.tsx:246 | Counts add up over a concatenation. |
| `Text.JoinSeparators` | app/page.tsx:246 | Joining parts that do not contain the separator puts in exactly one separator fewer than there are parts. |
| `Text.JoinLastPartCount` | app/page.tsx:246 | When only the last part may hold the separator, the join has one separator per gap plus those of the last part. |
| `Text.JoinStartsWith` | app/page.tsx:246 | A join opens with its first part, followed by the separator when more parts come. |
| `Text.JoinAvoids` | app/page.tsx:246 | A join contains no character that is absent from every part and is not the separator. |
| `Csv.DeviceCell` | app/page.tsx:243 | The device cell is 'N/A' exactly when the id is absent, empty or 'N/A' itself. Any other id is the cell as it is. |
| `Csv.RowFields` | app/page.tsx:236-244 | A line has seven cells: time, kind or 'N/A', the three counts, the change or 0, and the device. |
| `Csv.CsvTable` | app/page.tsx:232-245 | The header comes first. Line `i + 1` is record `i`, with its event taken against record `i + 1` of the same list. |
| `Csv.Lines` | app/page.tsx:246 | Each line is its cells joined with commas. |
| `Csv.CsvContent` | app/page.tsx:232-246 | The export opens with the header line and a line break before the records; for an empty list it is the header line alone. |
| `Csv.CellsAvoid` | app/page.tsx:232-245 | When no time and no device contains a separator, no cell of the export contains one. |
| `Csv.CsvShape` | app/page.tsx:232-246 | When no time and no device contains a comma or a line break, the export has exactly one line break per record and exactly six commas on every line. |
| `Csv.RowCommas` | app/page.tsx:236-246 | A record's line has its six separating commas plus the commas of its device cell, when its time has none. |
| `Csv.DeviceCommasAddColumns` | app/page.tsx:236-246 | Cells are not quoted: line `i + 1` of the export has six commas plus those of record `i`'s device cell. |
| `Csv.CommaInDeviceShiftsColumns` | app/page.tsx:243-246 | For instance, a device id `a,b` gives its line seven commas. |
| `Dashboard.TypeFlags` | app/page.tsx:210-215 | A record passes the type filter exactly when its event against the unfiltered list has the chosen kind. |
| `Dashboard.FilterByType` | app/page.tsx:209-216 | A record is kept exactly when its event against the unfiltered list has the chosen kind. 'all' keeps the list unchanged. |
| `Dashboard.FilteredLogs` | app/page.tsx:206-228 | What is shown is a record of `allLogs` whose event has the chosen kind and whose day is the chosen day, and every such record is shown. With no filter it is `allLogs`. |
| `Dashboard.TypeFilterKeeps` | app/page.tsx:206-216 | 'all' keeps the list unchanged. A kind keeps, in order, exactly the positions whose event has that kind. |
| `Dashboard.FilteredIsSubsequence` | app/page.tsx:206-228 | The filtered list is a subsequence of `allLogs`. |
| `Dashboard.ViewDependentEvents` | app/page.tsx:234-235 | The event of a reading depends on the list it is taken against. Here an exit becomes an entry once its predecessor is filtered out. |
| `Dashboard.ExitFilterExample` | app/page.tsx:210-215 | On the same readings, the 'salida' filter keeps only the exit. |
| `Dashboard.RelativeTime` | app/page.tsx:183-192 | The unit chosen for each range of elapsed time, and the floored count of that unit. |
| `Dashboard.RelativeLabel` | app/page.tsx:185-191 | The label is "Hace ", then the count, then " segundos", " minutos", " horas" or " días", each exactly for its unit. |
| `Dashboard.SummaryRowCells` | app/page.tsx:469-491 | A summary row shows entry and exit counts exactly for readings; a raw database row has neither field, so those cells are empty. Every row, raw or not, shows its `aforo` clamped at 0. |
| `Dashboard.Dashboard.constructor` | app/page.tsx:23-38 | The initial state: zero counts, empty lists, filter 'all', no date, page 1. |
| `Dashboard.Dashboard.OnCounterUpdate` | app/page.tsx:68-76 | The current reading is replaced. The summary list gets the update prepended, capped at 50. Nothing else changes. |
| `Dashboard.Dashboard.OnCurrentData` | app/page.tsx:125-133 | A present `current` replaces the reading. A present `history` replaces the summary list with its raw rows, cut to 50: no entry then shows entry or exit counts, and each shows its row's `aforo`. Absent fields change nothing. |
| `Dashboard.Dashboard.OnHistory` | app/page.tsx:150-169 | The two answers replace the summary list, with readings, and the full list, each only when present. |
| `Dashboard.Dashboard.SetFilters` | app/page.tsx:392-407 | The filters are set, and the page number is kept as it was. |
| `Dashboard.Dashboard.GetFilteredLogs` | app/page.tsx:206-228 | The result is the type filter followed by the date filter, and is a subsequence of `allLogs`. |
| `Dashboard.PageEvents` | app/page.tsx:561 | One event per row of the page. Row `k` of page `p` is classified against its own neighbour in the filtered list, which is position `(p-1)*100 + k + 1`. |
| `Dashboard.Dashboard.PageRows` | app/page.tsx:515-561 | The current page's rows of the filtered list, with their `PageEvents`: at most 100 rows and one event per row. |
| `Dashboard.Dashboard.ClickPrev` | app/page.tsx:610-616 | The page moves back only when the buttons are shown and the page is not the first. It then stays within `1..totalPages`. |
| `Dashboard.Dashboard.ClickNext` | app/page.tsx:617-623 | The page moves on only when the buttons are shown and the page is not the last. It then stays within `1..totalPages`. |
| `Dashboard.Dashboard.ExportCsv` | app/page.tsx:230-246 | The export of the filtered list. |
| `LogsView.LogsTypeFlags` | app/logs/page.tsx:96-107 | This page's type test: record `i` needs a predecessor in the unfiltered list. For 'entrada' `inCount` must have risen; for 'salida' `outCount` must have risen. |
| `LogsView.LogsFiltered` | app/logs/page.tsx:92-119 | What is stored is a record of `logs` that passes this page's type test against `logs` and lies on the chosen day, and every such record is stored. With no filter it is `logs`. |
| `LogsView.TypeFiltersCompared` | app/logs/page.tsx:97-107 | The two pages agree on 'entrada'. On 'salida', this page also keeps the records in which both counts rose. |
| `LogsView.LogsFilteredIsSubsequence` | app/logs/page.tsx:92-119 | The stored filtered list is a subsequence of `logs`. |
| `LogsView.ShownEvent` | app/logs/page.tsx:132-142 | No event for the last index. When `index` is the row's own position in the filtered list, the event is the one against its true neighbour. |
| `LogsView.ShownEventPredecessor` | app/logs/page.tsx:282-283 | The table compares row `k` of any page with record `k + 1` of the whole filtered list. That is the true neighbour only on page 1. |
| `LogsView.PageTwoShowsWrongNeighbour` | app/logs/page.tsx:132-134 | A 102-record list where the first row of page 2 is shown as an entry, although it has no event against its true predecessor. |
| `LogsView.LogsPage.constructor` | app/logs/page.tsx:20-25 | Empty lists, page 1, filter 'all', no date. |
| `LogsView.LogsPage.ApplyFilters` | app/logs/page.tsx:92-121 | `filteredLogs` becomes the type filter followed by the date filter, is a subsequence of `logs`, and the page resets to 1. |
| `LogsView.LogsPage.FetchLogs` | app/logs/page.tsx:39-59 | An answer with a history replaces `logs`, refilters and resets the page. No answer changes nothing. |
| `LogsView.LogsPage.OnCounterUpdate` | app/logs/page.tsx:74-81 | The update is prepended to `logs`, capped at 1000, refiltered, and the page resets to 1. |
| `LogsView.LogsPage.SetFilters` | app/logs/page.tsx:35-37 | A changed selection refilters and resets the page. The same selection again keeps the page. |
| `LogsView.LogsPage.PaginatedLogs` | app/logs/page.tsx:170-173 | The current page's slice. It is never empty when there are filtered records. |
| `LogsView.LogsPage.RowEvents` | app/logs/page.tsx:282-283 | Each row's event is looked up with the row's position on the page. |
| `LogsView.LogsPage.ClickPrev` | app/logs/page.tsx:332-338 | The page moves back only when the buttons are shown, and it stays 1 or an existing page. |
| `LogsView.LogsPage.ClickNext` | app/logs/page.tsx:339-345 | The page moves on only when the buttons are shown. |
| `LogsView.LogsPage.ExportCsv` | app/logs/page.tsx:144-159 | The export of `filteredLogs`. |
| `Store.DeviceOrUnknown` | app/api/history/route.ts:69 | An absent or empty id becomes 'unknown'. Any other id is kept. |
| `Store.Insert` | app/api/counter/route.ts:124-128 | Inserting into a sorted list keeps it sorted and adds exactly one copy of the row. |
| `Store.SortNewestFirst` | app/api/counter/route.ts:126 | `ORDER BY ... DESC` returns the same rows, each allowed to precede every later one. Under `timestamp`, NULLs come first. |
| `Store.SortedHeadFirst` | app/api/counter/route.ts:131 | The first sorted row precedes every row of the table. |
| `Store.SortedPrefix` | app/api/counter/route.ts:126-127 | Cutting a sorted list keeps some of its rows, and no row cut off precedes the last row kept. |
| `Store.Max` | app/api/history/route.ts:77-79 | NULL exactly for no values. Otherwise a value of the column that no value exceeds. |
| `Store.Min` | app/api/history/route.ts:80 | NULL exactly for no values. Otherwise a value of the column that no value is below. |
| `Store.Present` | app/api/history/route.ts:80-81 | The non-NULL values of a column, and no others. |
| `CounterRoute.FinalTimestamp` | app/api/counter/route.ts:38 | The body's timestamp when it has one, and the server clock otherwise. |
| `CounterRoute.PostedState` | app/api/counter/route.ts:38-47 | The state keeps the three counts. Its timestamp is the body's when it has one and the server clock otherwise. Its device is the body's non-empty id, and 'unknown' when the id is absent or empty. |
| `CounterRoute.EventsStored` | app/api/counter/route.ts:72-79 | The events stored form the longest prefix whose inserts all ran. The next insert was the one that threw. |
| `CounterRoute.EventRows` | app/api/counter/route.ts:73-77 | One `counter_events` row per event, in order, each with the raw device id. |
| `CounterRoute.Newest100` | app/api/counter/route.ts:124-128 | Exactly `min(100, rows)` table rows, taken from the table as a sub-multiset, in descending `created_at`. The first is the newest of the table, and no row left out is newer than the last one kept. |
| `CounterRoute.Reconcile` | app/api/counter/route.ts:130-140 | The newest row, when there is one, replaces the in-memory state. |
| `CounterRoute.CounterServer.constructor` | app/api/counter/route.ts:14-21 | The start-up state has zero counts, device 'unknown' and the load time. |
| `CounterRoute.CounterServer.Post` | app/api/counter/route.ts:23-117 | The 500 and 400 paths change nothing. An accepted reading: updates the in-memory state to its counts, its timestamp or the server clock, and its device id or 'unknown' when the id is absent or empty; appends one log row if the database is configured and the insert ran; stores the longest run of events that did not throw; publishes once if the relay is configured and does not fail; echoes the reading. |
| `CounterRoute.CounterServer.Get` | app/api/counter/route.ts:119-164 | With a working database: the newest 100 rows, with the state taken from the first of them. Otherwise: no rows and an unchanged state. Nothing else is touched. |
| `CounterRoute.PostThenGet` | app/api/counter/route.ts:41-47 | A reading stored and then read back gives the same counts and timestamp, but the raw device id. So a reading without a device comes back with NULL instead of 'unknown'. |
| `HistoryRoute.LimitOf` | app/api/history/route.ts:9 | The default limit is 50. |
| `HistoryRoute.OffsetOf` | app/api/history/route.ts:10 | The default offset is 0. |
| `HistoryRoute.Ones` | app/api/history/route.ts:33-54 | `$1..$n` in order. |
| `HistoryRoute.DecodeExtend` | app/api/history/route.ts:36-53 | Pushing a parameter does not change what the placeholders already in the text refer to. |
| `HistoryRoute.BuildQuery` | app/api/history/route.ts:27-54 | The text renders the clauses, and the placeholders are `$1..$n` in order. The database reads the intended query (device only when non-empty, the dates, newest first, limit and offset), and the parameter list ends with limit and offset. |
| `HistoryRoute.BuildFilters` | app/api/history/route.ts:35-48 | The optional conditions are built with consistent placeholders and mean exactly the requested filters. |
| `HistoryRoute.AddDevice` | app/api/history/route.ts:35-38 | One push and its clause keep the text and the parameters in agreement, and add the device filter. |
| `HistoryRoute.AddStart` | app/api/history/route.ts:40-43 | One push and its clause add the lower date bound. |
| `HistoryRoute.AddEnd` | app/api/history/route.ts:45-48 | One push and its clause add the upper date bound. |
| `HistoryRoute.OrderStep` | app/api/history/route.ts:50 | The ORDER BY clause adds ordering and no placeholder. |
| `HistoryRoute.AddLimit` | app/api/history/route.ts:51-52 | One push and its clause add the limit. |
| `HistoryRoute.AddOffset` | app/api/history/route.ts:53-54 | One push and its clause add the offset. |
| `HistoryRoute.MatchFlags` | app/api/history/route.ts:59 | One flag per row, set exactly when the row satisfies the filters. |
| `HistoryRoute.Matching` | app/api/history/route.ts:59 | The filtered rows are exactly the table rows that satisfy every filter present. |
| `HistoryRoute.Ordered` | app/api/history/route.ts:50 | The same rows, sorted newest timestamp first when the query orders them. |
| `HistoryRoute.Run` | app/api/history/route.ts:51-59 | The query fails exactly when the limit or the offset is NaN, negative, or beyond the `bigint` range PostgreSQL reads them in. |
| `HistoryRoute.WindowSorted` | app/api/history/route.ts:51-54 | LIMIT and OFFSET keep the order. |
| `HistoryRoute.RunWindow` | app/api/history/route.ts:51-54 | The answer starts at position `offset` of the ordered rows, has exactly `min(remaining, limit)` rows, and keeps their order. |
| `HistoryRoute.RunRows` | app/api/history/route.ts:59 | The answer has at most `limit` rows. They are table rows matching every filter, with newest timestamp first. All matching rows are returned when nothing is skipped and the limit is not reached. |
| `HistoryRoute.Normalize` | app/api/history/route.ts:63-71 | The counts, id and `created_at` are kept. The timestamp falls back to `created_at`. The device is 'unknown' exactly for NULL, empty or 'unknown', and any other id is kept. |
| `HistoryRoute.NormalizeAll` | app/api/history/route.ts:63 | One entry per row, in order. |
| `HistoryRoute.Column` | app/api/history/route.ts:74-83 | A column, nullable or not, holds exactly the values of the table's rows. |
| `HistoryRoute.MaxOver` | app/api/history/route.ts:77-79 | `MAX` is NULL exactly for an empty table. Otherwise it is some row's value that no row exceeds. |
| `HistoryRoute.StampBounds` | app/api/history/route.ts:80-81 | `MIN` and `MAX` of the timestamp skip NULLs. They are NULL exactly when no row has a timestamp, and otherwise attained bounds. |
| `HistoryRoute.TableStats` | app/api/history/route.ts:74-85 | The stats cover the whole table, whatever the filters. |
| `HistoryRoute.HistoryGet` | app/api/history/route.ts:4-105 | Without a database: no history, and a total of 0. Any failure, including a negative or NaN limit or offset, gives 500. Otherwise: the normalised rows of the intended query, the whole-table stats, and the parsed limit and offset with the table size. |
| `Sse.Registry.constructor` | lib/sse.ts:2 | The registry starts empty. |
| `Sse.Registry.Add` | lib/sse.ts:19-21 | The controller is added to the set, and no frame is sent. |
| `Sse.Registry.Remove` | lib/sse.ts:24-26 | Only that controller leaves the set. |
| `Sse.Registry.Broadcast` | lib/sse.ts:5-16 | Every registered controller is tried once. The ones whose enqueue fails are removed. The others, and no one else, are handed exactly one copy of the frame. |
| `Sse.IndexOf` | lib/sse.ts:6 | The first position of a character, or the length of the string. |
| `Sse.ReadLine` | lib/sse.ts:6 | Characters that end no line accumulate in the current line. |
| `Sse.IndexOfSkip` | lib/sse.ts:6 | A search skips a prefix that does not contain the character. |
| `Sse.DataLine` | lib/sse.ts:6 | The line `data: <payload>` puts the payload in the data buffer, whatever colons it holds. |
| `Sse.Dispatch` | lib/sse.ts:6 | The blank line fires the buffer as one event. |
| `Sse.Frame` | lib/sse.ts:6 | A frame is `data: `, the payload, and a blank line. A payload without line breaks gives a frame whose only line breaks are the last two. |
| `Sse.FrameRoundTrip` | lib/sse.ts:6 | A client reading one frame fires exactly one event, whose data is the payload, when the payload has no line break. |
| `Sse.Frames` | lib/sse.ts:5-16 | One frame per payload, in order. |
| `Sse.BroadcastsRoundTrip` | lib/sse.ts:5-16 | A client reading a run of broadcasts sees exactly their payloads, in order. |

## Left out

- Rendering: JSX, styles, the loading, connection and tab flags, and `lastUpdate`. The model keeps only the state those views read.
- Timers and effects: the 30-second polling interval, and the effects that start fetches. The pages' handlers are modelled as the methods that answers and events call.
- `fetch` and HTTP status checks: a missing or failed answer is an absent parameter.
- The relay client and server SDKs. A client update is a method call. A server publication is appended to `published`, and `publishFails` says whether the trigger throws.
- SQL execution: tables are sequences of rows, and statements are their effect on them. `CREATE TABLE IF NOT EXISTS` is only statement 0 of the failure oracle, and column types and widths are not checked.
- How the database reads a date text: `startDate` and `endDate` are the instants it reads, and an unreadable text is a query failure.
- Dates and formatting: `Date`, `toISOString`, `toDateString`, `date-fns`, `format`, `parseISO` and the formatted times in the CSV. These are the integer instant, the parameter `dayOf` and the parameter `stampOf`. `dayOf` is the local calendar day. In the source, `new Date('YYYY-MM-DD')` is midnight UTC while `toDateString` gives the local day, so west of UTC the filter selects the local day before the chosen one. The model's `dateFilter` is the day the comparison uses, not the date text the user picked.
- `parseInt`: it is taken as given, with its result an integer or NaN. JavaScript numbers are doubles, so which integers it can return is not modelled.
- Text.IntToString: it renders every integer in plain decimal. JavaScript switches to exponent notation from 10^21 on, and counts that large are not modelled.
- Parsing and serialising: `request.json()`, `JSON.stringify` and `TextEncoder`. A body that is not JSON is an absent body, and frames are strings of characters.
- Browser downloads: `Blob`, object URLs and the download link.
- Counts and time arithmetic: counts are integers, so fractional numbers are not modelled. A non-number count is `NotNumber`.
- `console` logging.
- Concurrency: requests are handled one at a time, and the interleaving of module-level state between requests is not modelled.
- The fields of a `recentEvents` element are taken as given, whatever their JSON types. A `deviceId` that is a non-string value is not modelled.
- Tie order: rows with equal sort keys come out in one admissible order, whichever SQL picks.
- Sse.Registry.Broadcast: the order in which it tries the controllers is not modelled. The iteration order of a JavaScript `Set` cannot change who receives the frame.
- LogsView.LogsPage: the render that runs between a state change and the effect that refilters is not modelled. It still shows the previous `filteredLogs`.
- CounterRoute.CounterServer.Get: the outer `catch`, and its 500 answer, is not modelled. It can only be reached by an error outside the query.
- The event stream: only `data` lines, comments and other fields are read, and the `event`, `id` and `retry` fields are ignored. The events route that opens a stream, sends its welcome frame and handles aborts, `app/api/events/route.ts`, is not part of this model.

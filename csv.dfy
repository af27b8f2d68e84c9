/** The CSV export of both pages: a header line and one line per record of the list on
    screen, with the events derived against that same list. Fields are joined with
    commas and never quoted. */
module Csv {
  import opened Wrappers
  import opened Readings
  import opened Text

  const Header: seq<string> := ["Fecha y Hora", "Tipo", "Entradas Totales", "Salidas Totales", "Aforo", "Cambio", "Dispositivo"]

  function KindName(k: EventKind): string {
    match k
    case Entrada => "entrada"
    case Salida => "salida"
  }

  /** `log.deviceId || 'N/A'`. */
  function DeviceCell(d: Option<string>): (cell: string)
    ensures cell == "N/A" <==> d.None? || d.value == "" || d.value == "N/A"
    ensures d.Some? && d.value != "" ==> cell == d.value
  {
    if d.None? || d.value == "" then "N/A" else d.value
  }

  /** The seven cells of a record's line, given its event and its formatted time:
      'N/A' and a change of 0 when there is no event. */
  function RowFields(log: Record, e: Option<Event>, stamp: string): (cells: seq<string>)
    ensures |cells| == 7
    ensures cells[0] == stamp && cells[6] == DeviceCell(log.deviceId)
    ensures cells[2] == IntToString(log.inCount) && cells[3] == IntToString(log.outCount)
    ensures cells[4] == IntToString(log.aforo)
    ensures e.None? ==> cells[1] == "N/A" && cells[5] == "0"
    ensures e.Some? ==> cells[1] == KindName(e.value.kind) && cells[5] == IntToString(e.value.change)
  {
    [ stamp,
      if e.Some? then KindName(e.value.kind) else "N/A",
      IntToString(log.inCount),
      IntToString(log.outCount),
      IntToString(log.aforo),
      IntToString(if e.Some? then e.value.change else 0),
      DeviceCell(log.deviceId) ]
  }

  /** The export as a table of cells; `stampOf` is the page's `formatTimestamp`. Record
      `i` of the list gives line `i + 1`, with its event taken against record `i + 1` of
      the same list. */
  function CsvTable(list: seq<Record>, stampOf: Timestamp -> string): (t: seq<seq<string>>)
    ensures |t| == |list| + 1 && t[0] == Header
    ensures forall i :: 0 <= i < |list| ==>
      t[i + 1] == RowFields(list[i], EventAt(list, i), stampOf(list[i].timestamp))
  {
    var rows := seq(|list|, i requires 0 <= i < |list| =>
      RowFields(list[i], EventAt(list, i), stampOf(list[i].timestamp)));
    assert forall i :: 0 <= i < |list| ==> ([Header] + rows)[i + 1] == rows[i];
    [Header] + rows
  }

  function Lines(t: seq<seq<string>>): (lines: seq<string>)
    ensures |lines| == |t|
    ensures forall i :: 0 <= i < |t| ==> lines[i] == Join(t[i], ',')
  {
    seq(|t|, i requires 0 <= i < |t| => Join(t[i], ','))
  }

  /** The downloaded text: lines joined with `\n`, cells with `,`. It opens with the
      header line, which is all of it for an empty list. */
  function CsvContent(list: seq<Record>, stampOf: Timestamp -> string): (csv: string)
    ensures Join(Header, ',') <= csv
    ensures list == [] ==> csv == Join(Header, ',')
    ensures list != [] ==> Join(Header, ',') + "\n" <= csv
  {
    var lines := Lines(CsvTable(list, stampOf));
    JoinStartsWith(lines, '\n');
    Join(lines, '\n')
  }

  /** No cell of the record's line can contain `c`, provided its time and device do not. */
  predicate CleanFor(list: seq<Record>, stampOf: Timestamp -> string, c: char) {
    forall i :: 0 <= i < |list| ==>
      c !in stampOf(list[i].timestamp) && (list[i].deviceId.Some? ==> c !in list[i].deviceId.value)
  }

  /** A separator of the export: a comma or a line break. */
  predicate IsSeparator(c: char) {
    c == ',' || c == '\n'
  }

  lemma IntCellAvoids(i: int, c: char)
    requires IsSeparator(c)
    ensures c !in IntToString(i)
  {
  }

  lemma RowAvoids(log: Record, e: Option<Event>, stamp: string, c: char)
    requires IsSeparator(c) && c !in stamp
    requires log.deviceId.Some? ==> c !in log.deviceId.value
    ensures forall j :: 0 <= j < 7 ==> c !in RowFields(log, e, stamp)[j]
  {
    var cells := RowFields(log, e, stamp);
    IntCellAvoids(log.inCount, c);
    IntCellAvoids(log.outCount, c);
    IntCellAvoids(log.aforo, c);
    IntCellAvoids(if e.Some? then e.value.change else 0, c);
    assert c !in cells[1] by {
      if e.Some? { assert KindName(e.value.kind) in ["entrada", "salida"]; }
    }
  }

  lemma CellsAvoid(list: seq<Record>, stampOf: Timestamp -> string, c: char)
    requires IsSeparator(c)
    requires CleanFor(list, stampOf, c)
    ensures forall i, j :: 0 <= i < |CsvTable(list, stampOf)| && 0 <= j < |CsvTable(list, stampOf)[i]| ==>
      c !in CsvTable(list, stampOf)[i][j]
  {
    var t := CsvTable(list, stampOf);
    forall i | 0 <= i < |t| ensures forall j :: 0 <= j < |t[i]| ==> c !in t[i][j] {
      if i > 0 {
        var log := list[i - 1];
        RowAvoids(log, EventAt(list, i - 1), stampOf(log.timestamp), c);
      }
    }
  }

  /** When no time or device contains a comma or a line break, the export has one line
      per record after the header and every line has exactly seven cells. */
  lemma {:induction false} CsvShape(list: seq<Record>, stampOf: Timestamp -> string)
    requires CleanFor(list, stampOf, ',') && CleanFor(list, stampOf, '\n')
    ensures Count('\n', CsvContent(list, stampOf)) == |list|
    ensures forall i :: 0 <= i < |list| + 1 ==> Count(',', Lines(CsvTable(list, stampOf))[i]) == 6
  {
    var t := CsvTable(list, stampOf);
    var lines := Lines(t);
    CellsAvoid(list, stampOf, ',');
    CellsAvoid(list, stampOf, '\n');
    forall i | 0 <= i < |lines| ensures Count(',', lines[i]) == 6 && '\n' !in lines[i] {
      JoinSeparators(t[i], ',');
      JoinAvoids(t[i], ',', '\n');
    }
    JoinSeparators(lines, '\n');
  }

  /** Cells are not quoted: a record's line has six commas of its own plus those of its
      device cell, so every comma in a device id shifts the cells after it by one. */
  lemma DeviceCommasAddColumns(list: seq<Record>, stampOf: Timestamp -> string, i: nat)
    requires i < |list| && ',' !in stampOf(list[i].timestamp)
    ensures Count(',', Lines(CsvTable(list, stampOf))[i + 1]) == 6 + Count(',', DeviceCell(list[i].deviceId))
  {
    var log := list[i];
    RowCommas(log, EventAt(list, i), stampOf(log.timestamp));
  }

  lemma RowCommas(log: Record, e: Option<Event>, stamp: string)
    requires ',' !in stamp
    ensures Count(',', Join(RowFields(log, e, stamp), ',')) == 6 + Count(',', DeviceCell(log.deviceId))
  {
    var cells := RowFields(log, e, stamp);
    IntCellAvoids(log.inCount, ',');
    IntCellAvoids(log.outCount, ',');
    IntCellAvoids(log.aforo, ',');
    IntCellAvoids(if e.Some? then e.value.change else 0, ',');
    assert ',' !in cells[1] by {
      if e.Some? { assert KindName(e.value.kind) in ["entrada", "salida"]; }
    }
    JoinLastPartCount(cells, ',');
  }

  /** For instance, a device id `a,b` gives its line seven commas. */
  lemma CommaInDeviceShiftsColumns()
    ensures var r := Record(1, 0, 1, 0, Some("a,b"));
      Count(',', Lines(CsvTable([r], t => "t"))[1]) == 7
  {
    var r := Record(1, 0, 1, 0, Some("a,b"));
    DeviceCommasAddColumns([r], t => "t", 0);
    assert Count(',', "a,b") == 1 by {
      assert "a,b"[..2] == "a," && "a,"[..1] == "a" && "a"[..0] == "";
    }
  }
}

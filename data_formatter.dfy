/** Turning sheet contents into JSON-ready data: single values, whole data
    frames (with or without the row labels), a sheet read with empty rows and
    columns dropped and a row limit applied, and search matches. */
module DataFormatter {
  import opened Common
  import opened Workbook
  import opened FileSystem
  import ExcelProcessor

  // ---------------------------------------------------------------------------
  // Single values

  /** The kinds JSON carries as they are. */
  predicate Plain(v: Value) {
    v.Int? || v.Float? || v.Str? || v.Bool?
  }

  /** A JSON-ready form of a cell: an empty cell stays empty, numbers, text
      and booleans pass unchanged, a date or timestamp becomes its ISO text,
      and anything else its str() text. */
  function FormatValue(v: Option<Value>): (r: Option<Value>)
    ensures v.None? <==> r.None?
    ensures r.Some? ==> Plain(r.value)
    ensures v.Some? && Plain(v.value) ==> r == v
    ensures v.Some? && v.value.Stamp? ==> r == Some(Str(v.value.iso))
    ensures v.Some? && v.value.Other? ==> r == Some(Str(v.value.text))
  {
    match v
    case None => None
    case Some(Stamp(iso, _)) => Some(Str(iso))
    case Some(Other(text)) => Some(Str(text))
    case Some(_) => v
  }

  /** Formatting an already formatted value changes nothing. */
  lemma FormatValueIdempotent(v: Option<Value>)
    ensures FormatValue(FormatValue(v)) == FormatValue(v)
  {
  }

  /** Each value of a row, formatted. */
  function FormatRow(row: seq<Option<Value>>): (r: seq<Option<Value>>)
    ensures |r| == |row|
    ensures forall j :: 0 <= j < |row| ==> r[j] == FormatValue(row[j])
  {
    seq(|row|, j requires 0 <= j < |row| => FormatValue(row[j]))
  }

  // ---------------------------------------------------------------------------
  // Whole data frames

  datatype Formatted = Formatted(
    headers: seq<string>,
    rows: seq<seq<Option<Value>>>,
    rowCount: nat,
    columnCount: nat,
    dataTypes: map<string, string>)

  /** Row `i` as the formatter emits it: its formatted values, preceded by
      its formatted row label when the headers are not the plain column
      labels. */
  function FormattedRow(f: Frame, includeHeaders: bool, i: nat): seq<Option<Value>>
    requires i < |f.rows|
  {
    (if includeHeaders then [] else [FormatValue(Some(Int(f.index[i])))]) + FormatRow(RowValues(f, i))
  }

  /** The JSON-ready form of a frame: the column labels as headers, or
      "Index" followed by them; one formatted row per frame row; the counts
      of rows and headers; and the column types. */
  method FormatDataframe(f: Frame, includeHeaders: bool) returns (r: Formatted)
    ensures r.headers == if includeHeaders then f.columns else ["Index"] + f.columns
    ensures |r.rows| == |f.rows| == r.rowCount
    ensures forall i :: 0 <= i < |f.rows| ==> r.rows[i] == FormattedRow(f, includeHeaders, i)
    ensures r.columnCount == |r.headers|
    ensures r.dataTypes == DataTypesOf(f.columns, f.dtypes)
  {
    var headers := if includeHeaders then f.columns else ["Index"] + f.columns;
    var rows: seq<seq<Option<Value>>> := [];
    for i := 0 to |f.rows|
      invariant |rows| == i
      invariant forall k :: 0 <= k < i ==> rows[k] == FormattedRow(f, includeHeaders, k)
    {
      var row := FormatRow(RowValues(f, i));
      if !includeHeaders {
        row := [FormatValue(Some(Int(f.index[i])))] + row;
      }
      rows := rows + [row];
    }
    var types := CollectDataTypes(f.columns, f.dtypes);
    r := Formatted(headers, rows, |rows|, |headers|, types);
  }

  /** Every formatted row is exactly as wide as the headers, every value in
      it is JSON-ready, and without headers each row starts with its label. */
  lemma FormattedShape(f: Frame, includeHeaders: bool, i: nat)
    requires i < |f.rows|
    ensures |FormattedRow(f, includeHeaders, i)| == |if includeHeaders then f.columns else ["Index"] + f.columns|
    ensures forall j :: 0 <= j < |FormattedRow(f, includeHeaders, i)| ==>
              FormattedRow(f, includeHeaders, i)[j].None? || Plain(FormattedRow(f, includeHeaders, i)[j].value)
    ensures !includeHeaders ==> FormattedRow(f, includeHeaders, i)[0] == Some(Int(f.index[i]))
    ensures includeHeaders ==> FormattedRow(f, includeHeaders, i) == FormatRow(RowValues(f, i))
  {
  }

  // ---------------------------------------------------------------------------
  // Dropping empty rows and columns

  /** The positions holding true, in increasing order. */
  function Indices(bits: seq<bool>): (r: seq<nat>)
    ensures forall k :: 0 <= k < |r| ==> r[k] < |bits| && bits[r[k]]
    ensures forall a, b :: 0 <= a < b < |r| ==> r[a] < r[b]
    ensures forall x: nat :: x < |bits| && bits[x] ==> x in r
    decreases |bits|
  {
    if bits == [] then []
    else
      var n := |bits| - 1;
      var front := Indices(bits[..n]);
      assert forall k :: 0 <= k < |front| ==> front[k] < n;
      if bits[n] then front + [n] else front
  }

  /** The elements at positions `ks`, in that order. */
  function Pick<T>(s: seq<T>, ks: seq<nat>): (r: seq<T>)
    requires forall k :: 0 <= k < |ks| ==> ks[k] < |s|
    ensures |r| == |ks|
    ensures forall k :: 0 <= k < |ks| ==> r[k] == s[ks[k]]
  {
    seq(|ks|, k requires 0 <= k < |ks| => s[ks[k]])
  }

  /** The elements of `s` whose bit is set, in their order in `s`. */
  function Keep<T>(s: seq<T>, bits: seq<bool>): (r: seq<T>)
    requires |bits| == |s|
    ensures |r| <= |s|
    decreases |s|
  {
    if s == [] then []
    else
      var n := |s| - 1;
      Keep(s[..n], bits[..n]) + (if bits[n] then [s[n]] else [])
  }

  /** Picking the positions whose bit is set is filtering by the bits. */
  lemma {:induction false} PickKeep<T>(s: seq<T>, bits: seq<bool>)
    requires |bits| == |s|
    ensures Pick(s, Indices(bits)) == Keep(s, bits)
    decreases |s|
  {
    if s != [] {
      var n := |s| - 1;
      var front := Indices(bits[..n]);
      PickKeep(s[..n], bits[..n]);
      assert Pick(s, front) == Pick(s[..n], front);
      if bits[n] {
        assert Pick(s, front + [n]) == Pick(s, front) + [s[n]];
      }
    }
  }

  /** A row holds at least one value; a row without columns holds none. */
  predicate RowHasData(row: seq<Option<Value>>) {
    exists j :: 0 <= j < |row| && row[j].Some?
  }

  /** Column `j` holds a value in some row; with no rows it holds none. */
  predicate ColumnHasData(f: Frame, j: nat)
    requires j < |f.columns|
  {
    exists i :: 0 <= i < |f.rows| && f.rows[i][j].Some?
  }

  function RowBits(f: Frame): (r: seq<bool>)
    ensures |r| == |f.rows|
    ensures forall i :: 0 <= i < |f.rows| ==> r[i] == RowHasData(f.rows[i])
  {
    seq(|f.rows|, i requires 0 <= i < |f.rows| => RowHasData(f.rows[i]))
  }

  function ColumnBits(f: Frame): (r: seq<bool>)
    ensures |r| == |f.columns|
    ensures forall j :: 0 <= j < |f.columns| ==> r[j] == ColumnHasData(f, j)
  {
    seq(|f.columns|, j requires 0 <= j < |f.columns| => ColumnHasData(f, j))
  }

  /** `dropna(how="all")`: the rows holding some value, with their labels. */
  function DropEmptyRows(f: Frame): (r: Frame)
    ensures r.columns == f.columns && r.dtypes == f.dtypes && r.indexName == f.indexName
  {
    var ks := Indices(RowBits(f));
    Table(f.columns, f.dtypes, Pick(f.index, ks), f.indexName, Pick(f.rows, ks))
  }

  /** `dropna(axis=1, how="all")`: the columns holding some value, with their
      types; every row keeps its label. */
  function DropEmptyColumns(f: Frame): (r: Frame)
    ensures r.index == f.index && r.indexName == f.indexName && |r.rows| == |f.rows|
  {
    var ks := Indices(ColumnBits(f));
    var rows := seq(|f.rows|, i requires 0 <= i < |f.rows| => Pick(f.rows[i], ks));
    Table(Pick(f.columns, ks), Pick(f.dtypes, ks), f.index, f.indexName, rows)
  }

  /** Dropping rows keeps exactly the rows that hold a value, in their
      order, each with its label and its cells unchanged. */
  lemma DropEmptyRowsKeeps(f: Frame)
    ensures var r := DropEmptyRows(f);
      && r.rows == Keep(f.rows, RowBits(f))
      && r.index == Keep(f.index, RowBits(f))
      && (forall i :: 0 <= i < |r.rows| ==> RowHasData(r.rows[i]))
      && (forall i :: 0 <= i < |f.rows| && RowHasData(f.rows[i]) ==> f.rows[i] in r.rows)
  {
    var ks := Indices(RowBits(f));
    var r := DropEmptyRows(f);
    PickKeep(f.rows, RowBits(f));
    PickKeep(f.index, RowBits(f));
    forall i | 0 <= i < |f.rows| && RowHasData(f.rows[i]) ensures f.rows[i] in r.rows {
      var x: nat := i;
      assert x in ks;
      var k :| 0 <= k < |ks| && ks[k] == x;
      assert r.rows[k] == f.rows[i];
    }
  }

  /** Dropping columns keeps exactly the columns that hold a value, in
      their order, with their types; each row keeps exactly its cells in
      those columns. */
  lemma DropEmptyColumnsKeeps(f: Frame)
    ensures var r := DropEmptyColumns(f);
      && r.columns == Keep(f.columns, ColumnBits(f))
      && r.dtypes == Keep(f.dtypes, ColumnBits(f))
      && (forall i :: 0 <= i < |f.rows| ==> r.rows[i] == Keep(f.rows[i], ColumnBits(f)))
      && (forall j :: 0 <= j < |r.columns| ==> ColumnHasData(r, j))
      && (forall j :: 0 <= j < |f.columns| && ColumnHasData(f, j) ==> f.columns[j] in r.columns)
  {
    KeptColumnsHoldData(f);
    DataColumnsKept(f);
    KeptColumnsFiltered(f);
  }

  lemma KeptColumnsHoldData(f: Frame)
    ensures var r := DropEmptyColumns(f);
      forall j :: 0 <= j < |r.columns| ==> ColumnHasData(r, j)
  {
    var ks := Indices(ColumnBits(f));
    var r := DropEmptyColumns(f);
    forall j | 0 <= j < |r.columns| ensures ColumnHasData(r, j) {
      var i :| 0 <= i < |f.rows| && f.rows[i][ks[j]].Some?;
      assert r.rows[i][j] == f.rows[i][ks[j]];
    }
  }

  lemma DataColumnsKept(f: Frame)
    ensures var r := DropEmptyColumns(f);
      forall j :: 0 <= j < |f.columns| && ColumnHasData(f, j) ==> f.columns[j] in r.columns
  {
    var ks := Indices(ColumnBits(f));
    var r := DropEmptyColumns(f);
    forall j | 0 <= j < |f.columns| && ColumnHasData(f, j) ensures f.columns[j] in r.columns {
      var x: nat := j;
      assert x in ks;
      var k :| 0 <= k < |ks| && ks[k] == x;
      assert r.columns[k] == f.columns[j];
    }
  }

  lemma KeptColumnsFiltered(f: Frame)
    ensures var r := DropEmptyColumns(f);
      && r.columns == Keep(f.columns, ColumnBits(f))
      && r.dtypes == Keep(f.dtypes, ColumnBits(f))
      && (forall i :: 0 <= i < |f.rows| ==> r.rows[i] == Keep(f.rows[i], ColumnBits(f)))
  {
    var r := DropEmptyColumns(f);
    PickKeep(f.columns, ColumnBits(f));
    PickKeep(f.dtypes, ColumnBits(f));
    forall i | 0 <= i < |f.rows| ensures r.rows[i] == Keep(f.rows[i], ColumnBits(f)) {
      PickKeep(f.rows[i], ColumnBits(f));
    }
  }

  /** Dropping columns that hold nothing leaves every row's values in place:
      a row that held a value still holds one. */
  lemma DropColumnsKeepsRowData(f: Frame, i: nat)
    requires i < |f.rows| && RowHasData(f.rows[i])
    ensures RowHasData(DropEmptyColumns(f).rows[i])
  {
    var ks := Indices(ColumnBits(f));
    var j :| 0 <= j < |f.rows[i]| && f.rows[i][j].Some?;
    var x: nat := j;
    assert ColumnHasData(f, j);
    assert x in ks;
    var k :| 0 <= k < |ks| && ks[k] == x;
    assert DropEmptyColumns(f).rows[i][k] == f.rows[i][j];
  }

  /** The data-only view: empty rows dropped first, then empty columns. */
  function DataOnly(f: Frame): Frame {
    DropEmptyColumns(DropEmptyRows(f))
  }

  /** In the data-only view every row and every column holds a value. */
  lemma DataOnlyHasNoEmptyLines(f: Frame)
    ensures var d := DataOnly(f);
      && (forall i :: 0 <= i < |d.rows| ==> RowHasData(d.rows[i]))
      && (forall j :: 0 <= j < |d.columns| ==> ColumnHasData(d, j))
  {
    var rows := DropEmptyRows(f);
    DropEmptyRowsKeeps(f);
    DropEmptyColumnsKeeps(rows);
    forall i | 0 <= i < |DataOnly(f).rows| ensures RowHasData(DataOnly(f).rows[i]) {
      DropColumnsKeepsRowData(rows, i);
    }
  }

  // ---------------------------------------------------------------------------
  // A sheet read and formatted

  datatype FormatResult =
    | FormatOk(filePath: string, worksheetName: string, data: Formatted, maxRowsApplied: Option<int>,
               includeHeaders: bool, dataOnly: bool)
    | FormatFailed(error: string, filePath: string)

  /** The frame that is formatted: the sheet, in its data-only view when
      asked, then limited to `maxRows` rows when that is non-zero and
      exceeded. */
  function Prepared(f: Frame, maxRows: Option<int>, dataOnly: bool): Frame {
    LimitRows(if dataOnly then DataOnly(f) else f, maxRows)
  }

  /** Reads the named sheet (or the first), prepares it and formats it; a
      read failure is reported with its text. */
  method FormatExcelData(fs: Fs, raw: string, worksheetName: Option<string>, maxRows: Option<int>,
                         includeHeaders: bool, dataOnly: bool) returns (r: FormatResult)
    ensures r.FormatOk? <==> ReadFrame(fs, raw, worksheetName).Ok?
    ensures r.FormatFailed? ==>
              r.error == "Cannot format data: " + FaultText(ReadFrame(fs, raw, worksheetName).error, raw)
              && r.filePath == raw
    ensures r.FormatOk? ==>
      var f := Prepared(ReadFrame(fs, raw, worksheetName).value, maxRows, dataOnly);
      && r.filePath == raw
      && r.worksheetName == ExcelProcessor.FirstName(worksheetName, None)
      && r.data.headers == (if includeHeaders then f.columns else ["Index"] + f.columns)
      && |r.data.rows| == |f.rows| == r.data.rowCount
      && (forall i :: 0 <= i < |f.rows| ==> r.data.rows[i] == FormattedRow(f, includeHeaders, i))
      && r.data.columnCount == |r.data.headers|
      && r.data.dataTypes == DataTypesOf(f.columns, f.dtypes)
      && r.maxRowsApplied == maxRows && r.includeHeaders == includeHeaders && r.dataOnly == dataOnly
  {
    var read := ReadFrame(fs, raw, worksheetName);
    if read.Err? {
      return FormatFailed("Cannot format data: " + FaultText(read.error, raw), raw);
    }
    var f := read.value;
    if dataOnly {
      f := DropEmptyColumns(DropEmptyRows(f));
    }
    f := LimitRows(f, maxRows);
    var data := FormatDataframe(f, includeHeaders);
    r := FormatOk(raw, ExcelProcessor.FirstName(worksheetName, None), data, maxRows, includeHeaders, dataOnly);
  }

  /** A positive limit keeps at most that many rows, all of them in the
      data-only view holding a value; no limit or a zero limit keeps them all. */
  lemma PreparedRows(f: Frame, maxRows: Option<int>, dataOnly: bool)
    ensures var p := Prepared(f, maxRows, dataOnly);
      var base := if dataOnly then DataOnly(f) else f;
      && p.columns == base.columns
      && p.rows == base.rows[..|p.rows|]
      && (maxRows.None? || maxRows.value == 0 ==> p == base)
      && (maxRows.Some? && maxRows.value > 0 ==>
            |p.rows| == if maxRows.value < |base.rows| then maxRows.value else |base.rows|)
      && (dataOnly ==> forall i :: 0 <= i < |p.rows| ==> RowHasData(p.rows[i]))
  {
    var base := if dataOnly then DataOnly(f) else f;
    LimitRowsCount(base, maxRows);
    if dataOnly {
      DataOnlyHasNoEmptyLines(f);
      var p := Prepared(f, maxRows, dataOnly);
      forall i | 0 <= i < |p.rows| ensures RowHasData(p.rows[i]) {
        assert p.rows[i] == base.rows[i];
      }
    }
  }

  // ---------------------------------------------------------------------------
  // Search results

  /** A match record as handed to the formatter; a missing key is `None`,
      and a present "value" key may hold an empty cell. */
  datatype MatchRecord = MatchRecord(
    row: Option<int>, column: Option<string>, cellAddress: Option<string>, value: Option<Option<Value>>)

  /** A formatted match; the context lists are always empty. */
  datatype FormattedMatch = FormattedMatch(
    row: int, column: string, cellAddress: string, value: Option<Value>,
    before: seq<Option<Value>>, after: seq<Option<Value>>)

  datatype SearchSummary = SearchSummary(searchTerm: string, totalMatches: nat, matches: seq<FormattedMatch>)

  /** One record with its defaults filled in: row 0, empty column and
      address, and an empty string for a missing value. */
  function FormatMatch(m: MatchRecord): (r: FormattedMatch)
    ensures r.row == (if m.row.Some? then m.row.value else 0)
    ensures r.column == (if m.column.Some? then m.column.value else "")
    ensures r.cellAddress == (if m.cellAddress.Some? then m.cellAddress.value else "")
    ensures r.value == FormatValue(if m.value.Some? then m.value.value else Some(Str("")))
    ensures r.before == [] && r.after == []
  {
    FormattedMatch(
      if m.row.Some? then m.row.value else 0,
      if m.column.Some? then m.column.value else "",
      if m.cellAddress.Some? then m.cellAddress.value else "",
      FormatValue(if m.value.Some? then m.value.value else Some(Str(""))),
      [], [])
  }

  /** One formatted entry per record, in order, and their count. */
  method FormatSearchResults(matches: seq<MatchRecord>, searchTerm: string) returns (r: SearchSummary)
    ensures r.searchTerm == searchTerm
    ensures r.totalMatches == |r.matches| == |matches|
    ensures forall k :: 0 <= k < |matches| ==> r.matches[k] == FormatMatch(matches[k])
  {
    var out: seq<FormattedMatch> := [];
    for k := 0 to |matches|
      invariant |out| == k
      invariant forall i :: 0 <= i < k ==> out[i] == FormatMatch(matches[i])
    {
      out := out + [FormatMatch(matches[k])];
    }
    r := SearchSummary(searchTerm, |out|, out);
  }

  /** A match found by the worksheet search, as a record with every key. */
  function RecordOf(m: ExcelProcessor.Match): MatchRecord {
    MatchRecord(Some(m.row), Some(m.column), Some(m.cellAddress), Some(Some(Str(m.value))))
  }

  /** Formatting a match the worksheet search found keeps its row, column,
      address and text. */
  lemma FormatFoundMatch(m: ExcelProcessor.Match)
    ensures FormatMatch(RecordOf(m)) ==
              FormattedMatch(m.row, m.column, m.cellAddress, Some(Str(m.value)), [], [])
  {
  }
}

/** What the spreadsheet libraries hand back for a workbook, as values: the
    kinds of cell value, the cell grid as the workbook reader sees a sheet
    (its maximum row and column and the non-empty cells), and the table the
    data-frame reader makes of the same sheet (column labels, per-column type
    names, row labels and rows). Parsing the binary file formats is not part
    of this model; both views of a sheet are given. */
module Workbook {
  import opened Common

  /** The kinds of cell value the formatter distinguishes. A float carries
      the text Python prints for it; a date or timestamp carries both its
      ISO form and its str() form; `Other` stands for any remaining object,
      by its str() text. */
  datatype Value =
    | Int(i: int)
    | Float(repr: string)
    | Str(s: string)
    | Bool(b: bool)
    | Stamp(iso: string, text: string)
    | Other(text: string)

  /** A column whose dtype is a datetime64 or timedelta64 type holds its
      missing values as `NaT`. */
  predicate TimeColumn(dtype: string) {
    (|dtype| >= 10 && dtype[..10] == "datetime64") || (|dtype| >= 11 && dtype[..11] == "timedelta64")
  }

  /** str() of a cell of a column of type `dtype`, as the data-frame reader
      holds it: an empty cell is `NaT` in a time column and prints as "NaT",
      and a floating-point NaN printing as "nan" in any other column. */
  function Show(v: Option<Value>, dtype: string): (r: string)
    ensures v.None? ==> (r == "NaT" <==> TimeColumn(dtype)) && (r == "nan" <==> !TimeColumn(dtype))
  {
    match v
    case None => if TimeColumn(dtype) then "NaT" else "nan"
    case Some(Int(i)) => IntText(i)
    case Some(Float(repr)) => repr
    case Some(Str(s)) => s
    case Some(Bool(b)) => if b then "True" else "False"
    case Some(Stamp(_, text)) => text
    case Some(Other(text)) => text
  }

  /** The workbook reader's view of a sheet: `cells` maps a 1-based
      (row, column) to the value of a non-empty cell. */
  datatype Grid = Grid(maxRow: nat, maxCol: nat, cells: map<(nat, nat), Value>)

  datatype Table = Table(
    columns: seq<string>,        // column labels
    dtypes: seq<string>,         // str() of each column's dtype
    index: seq<int>,             // row labels
    indexName: Option<string>,   // the index's name
    rows: seq<seq<Option<Value>>>)

  predicate Rectangular(t: Table) {
    && |t.dtypes| == |t.columns|
    && |t.index| == |t.rows|
    && forall i :: 0 <= i < |t.rows| ==> |t.rows[i]| == |t.columns|
  }

  /** A data frame: one type name per column, one label per row, and every
      row exactly as wide as the column list. */
  type Frame = t: Table | Rectangular(t) witness Table([], [], [], None, [])

  // ---------------------------------------------------------------------------
  // A row as one array (`df.values`, or one row of `iterrows`)

  /** A column numpy stores as machine integers or floats. */
  predicate NumericColumn(dtype: string) {
    StartsWith(dtype, "int") || StartsWith(dtype, "uint") || StartsWith(dtype, "float")
  }

  /** A whole row is held in one array of the columns' common type, which is
      a float type exactly when every column is numeric and some column is a
      float column. */
  predicate FloatRows(f: Frame) {
    && (forall j :: 0 <= j < |f.dtypes| ==> NumericColumn(f.dtypes[j]))
    && (exists j :: 0 <= j < |f.dtypes| && StartsWith(f.dtypes[j], "float"))
  }

  /** An integer cell converted to a float, printed as Python prints it. */
  function AsFloat(v: Option<Value>): Option<Value> {
    if v.Some? && v.value.Int? then Some(Float(IntText(v.value.i) + ".0")) else v
  }

  /** The cells of row `i` as they come out of the row array: in a float
      array integer cells become floats, in any other array every cell is
      unchanged. */
  function RowValues(f: Frame, i: nat): (r: seq<Option<Value>>)
    requires i < |f.rows|
    ensures |r| == |f.columns|
  {
    if FloatRows(f) then seq(|f.columns|, j requires 0 <= j < |f.columns| => AsFloat(f.rows[i][j]))
    else f.rows[i]
  }

  /** Only integer cells of an all-numeric frame with a float column change:
      each becomes the float of the same number; empty cells stay empty and
      every other cell is kept. */
  lemma RowValuesCells(f: Frame, i: nat, j: nat)
    requires i < |f.rows| && j < |f.columns|
    ensures RowValues(f, i)[j].None? <==> f.rows[i][j].None?
    ensures !FloatRows(f) || !(f.rows[i][j].Some? && f.rows[i][j].value.Int?) ==>
              RowValues(f, i)[j] == f.rows[i][j]
    ensures FloatRows(f) && f.rows[i][j].Some? && f.rows[i][j].value.Int? ==>
              RowValues(f, i)[j] == Some(Float(IntText(f.rows[i][j].value.i) + ".0"))
  {
  }

  /** Every row of the frame, as the row arrays give them. */
  function AllRowValues(f: Frame): (r: seq<seq<Option<Value>>>)
    ensures |r| == |f.rows|
    ensures forall i :: 0 <= i < |f.rows| ==> r[i] == RowValues(f, i)
  {
    seq(|f.rows|, i requires 0 <= i < |f.rows| => RowValues(f, i))
  }

  datatype Sheet = Sheet(name: string, grid: Grid, frame: Frame)

  /** The sheets of a workbook, in workbook order. */
  type Book = seq<Sheet>

  /** Positions 0..n-1, the row labels a freshly read frame carries. */
  function Positions(n: nat): (r: seq<int>)
    ensures |r| == n
    ensures forall i :: 0 <= i < n ==> r[i] == i
  {
    seq(n, i requires 0 <= i < n => i)
  }

  /** The frame the reader returns for the sheet chosen by `worksheetName`:
      the sheet of that name when the name is non-empty, otherwise the first
      sheet. */
  function SelectFrame(book: Book, worksheetName: Option<string>): (r: Result<Frame, string>)
    ensures worksheetName.Some? && worksheetName.value != "" ==>
              (r.Ok? <==> exists k :: 0 <= k < |book| && book[k].name == worksheetName.value)
    ensures r.Ok? && worksheetName.Some? && worksheetName.value != "" ==>
              exists k :: 0 <= k < |book| && book[k].name == worksheetName.value && r.value == book[k].frame
    ensures (worksheetName.None? || worksheetName.value == "") ==>
              (r.Ok? <==> |book| > 0) && (r.Ok? ==> r.value == book[0].frame)
  {
    if worksheetName.Some? && worksheetName.value != "" then
      FrameNamed(book, worksheetName.value)
    else if |book| == 0 then
      Err("Worksheet index 0 is invalid, 0 worksheets found")
    else
      Ok(book[0].frame)
  }

  function FrameNamed(book: Book, name: string): (r: Result<Frame, string>)
    ensures r.Ok? <==> exists k :: 0 <= k < |book| && book[k].name == name
    ensures r.Ok? ==> exists k :: 0 <= k < |book| && book[k].name == name && r.value == book[k].frame
    decreases |book|
  {
    if |book| == 0 then Err("Worksheet named '" + name + "' not found")
    else if book[0].name == name then Ok(book[0].frame)
    else
      var r := FrameNamed(book[1..], name);
      assert forall k :: 1 <= k < |book| ==> book[k] == book[1..][k - 1];
      if r.Ok? then
        var k :| 0 <= k < |book[1..]| && book[1..][k].name == name && r.value == book[1..][k].frame;
        assert book[k + 1].name == name;
        r
      else
        Err("Worksheet named '" + name + "' not found")
  }

  // ---------------------------------------------------------------------------
  // The dtype table: `{column label: dtype name}`

  /** The dictionary built by assigning `dtypes[j]` to `columns[j]` for j in
      order; a later column with the same label overwrites an earlier one. */
  function DataTypesOf(columns: seq<string>, dtypes: seq<string>): map<string, string>
    requires |dtypes| == |columns|
    decreases |columns|
  {
    if |columns| == 0 then map[]
    else DataTypesOf(columns[..|columns| - 1], dtypes[..|columns| - 1])[columns[|columns| - 1] := dtypes[|columns| - 1]]
  }

  /** The dtype table has exactly the column labels as keys. */
  lemma {:induction false} DataTypesKeys(columns: seq<string>, dtypes: seq<string>)
    requires |dtypes| == |columns|
    ensures forall x :: x in DataTypesOf(columns, dtypes) <==> x in columns
    decreases |columns|
  {
    if |columns| > 0 {
      var n := |columns| - 1;
      DataTypesKeys(columns[..n], dtypes[..n]);
      assert columns == columns[..n] + [columns[n]];
    }
  }

  /** Each label maps to the type of the last column carrying it. */
  lemma {:induction false} DataTypesLast(columns: seq<string>, dtypes: seq<string>, j: nat)
    requires |dtypes| == |columns|
    requires j < |columns| && columns[j] !in columns[j + 1..]
    ensures columns[j] in DataTypesOf(columns, dtypes)
    ensures DataTypesOf(columns, dtypes)[columns[j]] == dtypes[j]
    decreases |columns|
  {
    var n := |columns| - 1;
    if j < n {
      assert columns[..n][j + 1..] == columns[j + 1..n];
      assert columns[n] in columns[j + 1..];
      DataTypesLast(columns[..n], dtypes[..n], j);
    }
  }

  /** With distinct labels there are exactly as many keys as columns. */
  lemma DataTypesSize(columns: seq<string>, dtypes: seq<string>)
    requires |dtypes| == |columns|
    requires forall a, b :: 0 <= a < b < |columns| ==> columns[a] != columns[b]
    ensures |DataTypesOf(columns, dtypes)| == |columns|
  {
    DataTypesKeys(columns, dtypes);
    var keys := DataTypesOf(columns, dtypes).Keys;
    assert keys == set x | x in columns;
    DistinctSeqSetSize(columns);
  }

  lemma {:induction false} DistinctSeqSetSize(s: seq<string>)
    requires forall a, b :: 0 <= a < b < |s| ==> s[a] != s[b]
    ensures |set x | x in s| == |s|
    decreases |s|
  {
    if |s| > 0 {
      var n := |s| - 1;
      DistinctSeqSetSize(s[..n]);
      assert s == s[..n] + [s[n]];
      assert (set x | x in s) == (set x | x in s[..n]) + {s[n]};
      assert s[n] !in s[..n];
    }
  }

  /** The loop that fills the dtype table column by column. */
  method CollectDataTypes(columns: seq<string>, dtypes: seq<string>) returns (types: map<string, string>)
    requires |dtypes| == |columns|
    ensures types == DataTypesOf(columns, dtypes)
    ensures forall x :: x in types <==> x in columns
  {
    types := map[];
    for i := 0 to |columns|
      invariant types == DataTypesOf(columns[..i], dtypes[..i])
    {
      assert columns[..i + 1][..i] == columns[..i] && dtypes[..i + 1][..i] == dtypes[..i];
      types := types[columns[i] := dtypes[i]];
    }
    assert columns[..|columns|] == columns && dtypes[..|columns|] == dtypes;
    DataTypesKeys(columns, dtypes);
  }

  // ---------------------------------------------------------------------------
  // Row limits (the data frame's `head`)

  /** How many rows `head(n)` keeps of `total`: the first n for n >= 0, all but
      the last -n for a negative n. */
  function HeadCount(total: nat, n: int): (k: nat)
    ensures k <= total
    ensures n >= 0 ==> k == if n < total then n else total
    ensures n < 0 ==> k == if total + n > 0 then total + n else 0
  {
    if n >= 0 then (if n < total then n else total)
    else if total + n > 0 then total + n else 0
  }

  function Head(f: Frame, n: int): (r: Frame)
    ensures r.columns == f.columns && r.dtypes == f.dtypes && r.indexName == f.indexName
    ensures r.rows == f.rows[..HeadCount(|f.rows|, n)]
    ensures r.index == f.index[..HeadCount(|f.rows|, n)]
  {
    var k := HeadCount(|f.rows|, n);
    Table(f.columns, f.dtypes, f.index[..k], f.indexName, f.rows[..k])
  }

  /** `if max_rows and len(df) > max_rows: df = df.head(max_rows)`. */
  function LimitRows(f: Frame, maxRows: Option<int>): Frame {
    if maxRows.Some? && maxRows.value != 0 && |f.rows| > maxRows.value then Head(f, maxRows.value) else f
  }

  /** A positive limit keeps min(limit, rows) rows from the top; no limit or a
      zero limit keeps all rows; a negative limit drops that many rows from the
      bottom (the data frame's `head` with a negative count). */
  lemma LimitRowsCount(f: Frame, maxRows: Option<int>)
    ensures LimitRows(f, maxRows).columns == f.columns
    ensures LimitRows(f, maxRows).rows == f.rows[..|LimitRows(f, maxRows).rows|]
    ensures LimitRows(f, maxRows).index == f.index[..|LimitRows(f, maxRows).rows|]
    ensures maxRows.None? || maxRows.value == 0 ==> LimitRows(f, maxRows) == f
    ensures maxRows.Some? && maxRows.value > 0 ==>
              |LimitRows(f, maxRows).rows| == if maxRows.value < |f.rows| then maxRows.value else |f.rows|
    ensures maxRows.Some? && maxRows.value < 0 ==>
              |LimitRows(f, maxRows).rows| == if |f.rows| + maxRows.value > 0 then |f.rows| + maxRows.value else 0
  {
  }

  // ---------------------------------------------------------------------------
  // Column letters

  /** The d-th capital letter, `chr(65 + d)`. */
  function Letter(d: nat): char
    requires d < 26
  {
    ('A' as int + d) as char
  }

  /** The spreadsheet name of 1-based column `n` (1 -> "A", 27 -> "AA");
      column 0 has no name and the conversion fails. */
  function ColumnLetter(n: nat): (r: Option<string>)
    ensures r.Some? <==> n >= 1
    ensures r.Some? ==> |r.value| >= 1
    decreases n
  {
    if n == 0 then None
    else if n <= 26 then Some([Letter(n - 1)])
    else Some(ColumnLetter((n - 1) / 26).value + [Letter((n - 1) % 26)])
  }

  /** A column name is one letter exactly for the first 26 columns. */
  lemma ColumnLetterLength(n: nat)
    requires n >= 1
    ensures |ColumnLetter(n).value| == 1 <==> n <= 26
  {
    if n > 26 {
      assert |ColumnLetter((n - 1) / 26).value| >= 1;
    }
  }

  /** Distinct columns get distinct names. */
  lemma {:induction false} ColumnLetterInjective(a: nat, b: nat)
    requires a >= 1 && b >= 1
    ensures ColumnLetter(a) == ColumnLetter(b) ==> a == b
    decreases a + b
  {
    if ColumnLetter(a) == ColumnLetter(b) {
      ColumnLetterLength(a);
      ColumnLetterLength(b);
      if a > 26 && b > 26 {
        var qa, da := LastLetterSplit(a);
        var qb, db := LastLetterSplit(b);
        AppendCancel(ColumnLetter(qa).value, Letter(da), ColumnLetter(qb).value, Letter(db));
        ColumnLetterInjective(qa, qb);
      }
    }
  }

  lemma AppendCancel(p: string, c: char, q: string, d: char)
    requires p + [c] == q + [d]
    ensures p == q && c == d
  {
    assert p == (p + [c])[..|p|];
    assert q == (q + [d])[..|q|];
  }

  /** A name past "Z" is the name of the quotient column followed by one letter. */
  lemma LastLetterSplit(n: nat) returns (q: nat, d: nat)
    requires n > 26
    ensures n - 1 == 26 * q + d && d < 26 && 1 <= q < n
    ensures ColumnLetter(n).value == ColumnLetter(q).value + [Letter(d)]
  {
    q, d := (n - 1) / 26, (n - 1) % 26;
  }
}

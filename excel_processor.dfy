/** Reading spreadsheets on behalf of the server: the extension test, the
    ordered validation of a file path, the per-file worksheet overview, the
    row read with its limit, the per-sheet summary with data range and header
    row, and the substring search over all cells.

    Only `GetFileInfo` runs the file through `ValidateFilePath`; the reader,
    the summary and the search check the extension alone, as the processor
    does. */
module ExcelProcessor {
  import opened Common
  import opened Workbook
  import opened FileSystem
  import opened ConfigManager

  /** The lower-cased suffix of the path is one of the configured extensions. */
  predicate IsSupportedFile(cfg: Config, raw: string) {
    Extension(raw) in SupportedExtensions(cfg)
  }

  /** Upper-case and lower-case spellings of a path are treated alike. */
  lemma SupportedIgnoresCase(cfg: Config, raw: string)
    ensures IsSupportedFile(cfg, Lower(raw)) == IsSupportedFile(cfg, raw)
  {
    ExtensionIgnoresCase(raw);
  }

  /** Only a name with a real suffix can be supported when no configured
      extension is empty: a name without a dot, or a dot-file such as
      ".xlsx", never is. */
  lemma SupportedNeedsSuffix(cfg: Config, raw: string)
    requires "" !in SupportedExtensions(cfg)
    ensures IsSupportedFile(cfg, raw) ==> Suffix(Name(raw)) != "" && LastDot(Name(raw)) > 0
  {
  }

  // ---------------------------------------------------------------------------
  // Validation

  /** What a failed validation carries besides its code and message. */
  datatype Detail =
    | NoDetail
    | WorkDir(dir: string)                       // the work directory, on ACCESS_DENIED
    | Sizes(sizeBytes: nat, maxSizeMb: int)      // the file's size and the ceiling, on FILE_TOO_LARGE

  datatype FileCheck =
    | Valid(filePath: string, sizeBytes: nat)
    | Invalid(code: ErrorCode, error: string, detail: Detail)

  const MiB: nat := 1048576

  /** The checks a file path must pass, first failure wins: it exists, it is
      a regular file, it lies in the work directory, and it is no larger than
      the ceiling. A failing `stat` is reported as a validation error. */
  function ValidateFilePath(cfg: Config, fs: Fs, raw: string): (r: FileCheck)
    ensures r.Valid? ==> IsPathWithinWorkDirectory(cfg, fs, raw)
    ensures r.Valid? ==> ProbeAt(fs, Canonical(fs, raw)) == Found(File(r.sizeBytes))
                         && r.sizeBytes <= MaxFileSizeMb(cfg) * MiB
  {
    var c := Canonical(fs, raw);
    match ProbeAt(fs, c)
    case Faulted(f) => Invalid(ValidationError, "File validation error: " + f.message, NoDetail)
    case Missing => Invalid(FileNotFound, "File does not exist: " + raw, NoDetail)
    case Found(Dir) => Invalid(NotAFile, "Path is not a file: " + raw, NoDetail)
    case Found(File(size)) =>
      if !IsPathWithinWorkDirectory(cfg, fs, raw) then
        var wd := WorkDirectory(cfg, fs);
        Invalid(AccessDenied, "File access denied: " + raw + ". Work directory: " + wd, WorkDir(wd))
      else if size > MaxFileSizeMb(cfg) * MiB then
        Invalid(FileTooLarge, "File too large: ", Sizes(size, MaxFileSizeMb(cfg)))
      else
        Valid(CanonText(c), size)
  }

  /** Each code is reported exactly when its check is the first to fail. */
  lemma ValidationOrder(cfg: Config, fs: Fs, raw: string)
    ensures var r, p := ValidateFilePath(cfg, fs, raw), ProbeAt(fs, Canonical(fs, raw));
      && (r == Invalid(FileNotFound, "File does not exist: " + raw, NoDetail) <==> p.Missing?)
      && (r.Invalid? && r.code == ValidationError <==> p.Faulted?)
      && (r.Invalid? && r.code == NotAFile <==> p == Found(Dir))
      && (r.Invalid? && r.code == AccessDenied <==>
            p.Found? && p.node.File? && !IsPathWithinWorkDirectory(cfg, fs, raw))
      && (r.Invalid? && r.code == FileTooLarge <==>
            p.Found? && p.node.File? && IsPathWithinWorkDirectory(cfg, fs, raw)
            && p.node.sizeBytes > MaxFileSizeMb(cfg) * MiB)
      && (r.Valid? <==>
            p.Found? && p.node.File? && IsPathWithinWorkDirectory(cfg, fs, raw)
            && p.node.sizeBytes <= MaxFileSizeMb(cfg) * MiB)
  {
  }

  /** A denial names the work directory, and a size failure reports both the
      size and the ceiling. */
  lemma ValidationDetails(cfg: Config, fs: Fs, raw: string)
    ensures var r := ValidateFilePath(cfg, fs, raw);
      && (r.Invalid? && r.code == AccessDenied ==> r.detail == WorkDir(WorkDirectory(cfg, fs)))
      && (r.Invalid? && r.code == FileTooLarge ==>
            r.detail == Sizes(ProbeAt(fs, Canonical(fs, raw)).node.sizeBytes, MaxFileSizeMb(cfg)))
  {
  }

  /** A file that passes lies at or below the work directory, component by
      component, and its reported path is its resolved location. */
  lemma ValidFileConfined(cfg: Config, fs: Fs, raw: string)
    requires ValidateFilePath(cfg, fs, raw).Valid?
    ensures RelativeTo(Canonical(fs, raw), Canonical(fs, WorkDirectory(cfg, fs)))
    ensures ValidateFilePath(cfg, fs, raw).filePath == CanonText(Canonical(fs, raw))
  {
    InsideIffPrefix(cfg, fs, raw);
  }

  /** The ceiling is inclusive: a file of exactly the ceiling's size passes. */
  lemma SizeCeilingInclusive(cfg: Config, fs: Fs, raw: string)
    requires MaxFileSizeMb(cfg) >= 0
    requires ProbeAt(fs, Canonical(fs, raw)) == Found(File(MaxFileSizeMb(cfg) * MiB))
    requires IsPathWithinWorkDirectory(cfg, fs, raw)
    ensures ValidateFilePath(cfg, fs, raw) == Valid(CanonText(Canonical(fs, raw)), MaxFileSizeMb(cfg) * MiB)
  {
  }

  /** The policy check comes before the size check, so a file outside the
      work directory is denied whatever its size. */
  lemma OutsideDeniedBeforeSize(cfg: Config, fs: Fs, raw: string, size: nat)
    requires ProbeAt(fs, Canonical(fs, raw)) == Found(File(size))
    requires !IsPathWithinWorkDirectory(cfg, fs, raw)
    ensures ValidateFilePath(cfg, fs, raw).Invalid?
    ensures ValidateFilePath(cfg, fs, raw).code == AccessDenied
  {
  }

  // ---------------------------------------------------------------------------
  // File information

  datatype SheetInfo = SheetInfo(name: string, index: nat, rowCount: nat, columnCount: nat, hasData: bool)

  datatype FileInfo =
    | InfoOk(filePath: string, fileName: string, fileSize: nat, worksheets: seq<SheetInfo>,
             totalWorksheets: nat, fileFormat: string)
    | InfoDenied(error: string, code: ErrorCode, filePath: string, workDirectory: string)
    | InfoUnsupported(error: string, supportedFormats: seq<string>)
    | InfoFailed(error: string, filePath: string)

  /** The overview of sheet `i`: a sheet has data when it is more than one
      row or more than one column. */
  predicate InfoFits(sheet: Sheet, i: nat, s: SheetInfo) {
    && s.name == sheet.name
    && s.index == i
    && s.rowCount == sheet.grid.maxRow
    && s.columnCount == sheet.grid.maxCol
    && (s.hasData <==> s.rowCount > 1 || s.columnCount > 1)
  }

  /** The loop over the sheets: one overview per sheet, indexed in workbook
      order. */
  method ListSheets(book: Book) returns (worksheets: seq<SheetInfo>)
    ensures |worksheets| == |book|
    ensures forall i :: 0 <= i < |book| ==> InfoFits(book[i], i, worksheets[i])
  {
    worksheets := [];
    for i := 0 to |book|
      invariant |worksheets| == i
      invariant forall k :: 0 <= k < i ==> InfoFits(book[k], k, worksheets[k])
    {
      var g := book[i].grid;
      var hasData := false;
      if g.maxRow > 1 || g.maxCol > 1 {
        hasData := true;
      }
      worksheets := worksheets + [SheetInfo(book[i].name, i, g.maxRow, g.maxCol, hasData)];
    }
  }

  /** Validates the path, checks the extension, opens the workbook and lists
      its sheets in workbook order. */
  method GetFileInfo(cfg: Config, fs: Fs, raw: string) returns (r: FileInfo)
    ensures var v := ValidateFilePath(cfg, fs, Text(raw));
      && (r.InfoDenied? <==> v.Invalid?)
      && (r.InfoDenied? ==> r.code == v.code && r.error == v.error && r.filePath == Text(raw)
                            && r.workDirectory == (if v.detail.WorkDir? then v.detail.dir else ""))
      && (r.InfoUnsupported? <==> v.Valid? && !IsSupportedFile(cfg, raw))
      && (r.InfoOk? <==> v.Valid? && IsSupportedFile(cfg, raw) && LoadBook(fs, raw).Ok?)
    ensures r.InfoOk? ==>
      var book := LoadBook(fs, raw).value;
      && IsPathWithinWorkDirectory(cfg, fs, raw)
      && |r.worksheets| == |book| == r.totalWorksheets
      && (forall i :: 0 <= i < |book| ==> InfoFits(book[i], i, r.worksheets[i]))
      && r.fileFormat == Extension(raw)
      && r.fileName == Name(raw)
      && ProbeAt(fs, Canonical(fs, raw)) == Found(File(r.fileSize))
    ensures r.InfoFailed? ==> r.error == "Cannot get file information: " + FaultText(LoadBook(fs, raw).error, Text(raw))
  {
    var text := Text(raw);
    var v := ValidateFilePath(cfg, fs, text);
    if v.Invalid? {
      return InfoDenied(v.error, v.code, text, if v.detail.WorkDir? then v.detail.dir else "");
    }
    TextSameLocation(fs, raw);
    SameLocationSameVerdict(cfg, fs, text, raw);
    assert ProbeAt(fs, Canonical(fs, raw)) == Found(File(v.sizeBytes));
    if !IsSupportedFile(cfg, raw) {
      return InfoUnsupported("Unsupported file format: " + Suffix(Name(raw)), SupportedExtensions(cfg));
    }
    var loaded := LoadBook(fs, raw);
    if loaded.Err? {
      return InfoFailed("Cannot get file information: " + FaultText(loaded.error, text), AbsoluteText(fs, raw));
    }
    var worksheets := ListSheets(loaded.value);
    r := InfoOk(AbsoluteText(fs, raw), Name(raw), v.sizeBytes, worksheets, |worksheets|, Extension(raw));
  }

  // ---------------------------------------------------------------------------
  // Reading rows

  datatype ReadResult =
    | ReadOk(filePath: string, worksheetName: string, headers: seq<string>,
             rows: seq<seq<Option<Value>>>, rowCount: nat, columnCount: nat,
             dataTypes: map<string, string>, maxRowsApplied: Option<int>, includeHeaders: bool)
    | ReadUnsupported(error: string, supportedFormats: seq<string>)
    | ReadFailed(error: string, filePath: string)

  /** The message of a failed read: a missing file and a refused one have
      their own texts; anything else passes its own text through. */
  function ReadFailure(f: ReadFault, text: string): string {
    match f
    case NoSuchFile => "File not found: " + text
    case NoAccess(_) => "No permission to access file: " + text
    case Unreadable(m) => "Cannot read data: " + m
  }

  /** `a or b or "Sheet1"` over optional names: the first non-empty one. */
  function FirstName(a: Option<string>, b: Option<string>): (r: string)
    ensures r != ""
    ensures a.Some? && a.value != "" ==> r == a.value
    ensures (a.None? || a.value == "") && b.Some? && b.value != "" ==> r == b.value
  {
    if a.Some? && a.value != "" then a.value
    else if b.Some? && b.value != "" then b.value
    else "Sheet1"
  }

  /** Without headers every row is prefixed with its row label. */
  method IndexedRows(f: Frame) returns (rows: seq<seq<Option<Value>>>)
    ensures |rows| == |f.rows|
    ensures forall i :: 0 <= i < |rows| ==> rows[i] == [Some(Int(f.index[i]))] + RowValues(f, i)
    ensures forall i :: 0 <= i < |rows| ==> |rows[i]| == |f.columns| + 1
  {
    rows := [];
    for i := 0 to |f.rows|
      invariant |rows| == i
      invariant forall k :: 0 <= k < i ==> rows[k] == [Some(Int(f.index[k]))] + RowValues(f, k)
    {
      rows := rows + [[Some(Int(f.index[i]))] + RowValues(f, i)];
    }
  }

  /** Reads one sheet (the named one, or the first), keeps at most
      `maxRows` rows when that is non-zero, and reports the rows with their
      headers, with or without the row labels. */
  method ReadWorksheetData(cfg: Config, fs: Fs, raw: string, worksheetName: Option<string>,
                           maxRows: Option<int>, includeHeaders: bool) returns (r: ReadResult)
    ensures r.ReadUnsupported? <==> !IsSupportedFile(cfg, raw)
    ensures r.ReadOk? <==> IsSupportedFile(cfg, raw) && ReadFrame(fs, raw, worksheetName).Ok?
    ensures r.ReadFailed? ==> r.error == ReadFailure(ReadFrame(fs, raw, worksheetName).error, Text(raw))
    ensures r.ReadOk? ==>
      var f := LimitRows(ReadFrame(fs, raw, worksheetName).value, maxRows);
      && r.rowCount == |r.rows| == |f.rows|
      && r.columnCount == |r.headers|
      && (forall i :: 0 <= i < |r.rows| ==> |r.rows[i]| == r.columnCount)
      && (includeHeaders ==> r.headers == f.columns && r.rows == AllRowValues(f))
      && (!includeHeaders ==> r.headers == ["Index"] + f.columns
                              && forall i :: 0 <= i < |r.rows| ==> r.rows[i] == [Some(Int(f.index[i]))] + RowValues(f, i))
      && r.dataTypes == DataTypesOf(f.columns, f.dtypes)
      && (forall x :: x in r.dataTypes <==> x in f.columns)
      && r.worksheetName == FirstName(worksheetName, f.indexName)
      && r.maxRowsApplied == maxRows
    ensures r.ReadOk? && maxRows.Some? && maxRows.value > 0 ==>
      var total := |ReadFrame(fs, raw, worksheetName).value.rows|;
      r.rowCount == if maxRows.value < total then maxRows.value else total
  {
    if !IsSupportedFile(cfg, raw) {
      return ReadUnsupported("Unsupported file format: " + Suffix(Name(raw)), SupportedExtensions(cfg));
    }
    var read := ReadFrame(fs, raw, worksheetName);
    if read.Err? {
      return ReadFailed(ReadFailure(read.error, Text(raw)), AbsoluteText(fs, raw));
    }
    var f := LimitRows(read.value, maxRows);
    LimitRowsCount(read.value, maxRows);
    var headers: seq<string>;
    var rows: seq<seq<Option<Value>>>;
    if includeHeaders {
      headers, rows := f.columns, AllRowValues(f);
    } else {
      headers := ["Index"] + f.columns;
      rows := IndexedRows(f);
    }
    var types := CollectDataTypes(f.columns, f.dtypes);
    r := ReadOk(AbsoluteText(fs, raw), FirstName(worksheetName, f.indexName), headers, rows,
                |rows|, |headers|, types, maxRows, includeHeaders);
  }

  // ---------------------------------------------------------------------------
  // Worksheet summary

  /** Cell (r, c) lies inside the sheet's dimensions and holds a value. */
  predicate Filled(g: Grid, r: nat, c: nat) {
    1 <= r <= g.maxRow && 1 <= c <= g.maxCol && (r, c) in g.cells
  }

  /** `r` is the first row holding a value, or the last row when no row
      does (the scan starts from the maximum and only lowers it). */
  ghost predicate IsFirstRow(g: Grid, r: nat) {
    && r <= g.maxRow
    && (forall r', c' :: Filled(g, r', c') ==> r <= r')
    && (r == g.maxRow || exists c :: Filled(g, r, c))
  }

  ghost predicate IsFirstCol(g: Grid, c: nat) {
    && c <= g.maxCol
    && (forall r', c' :: Filled(g, r', c') ==> c <= c')
    && (c == g.maxCol || exists r :: Filled(g, r, c))
  }

  /** There is only one first row and one first column. */
  lemma FirstUnique(g: Grid, a: nat, b: nat, x: nat, y: nat)
    ensures IsFirstRow(g, a) && IsFirstRow(g, b) ==> a == b
    ensures IsFirstCol(g, x) && IsFirstCol(g, y) ==> x == y
  {
  }

  /** The nested scan over every cell of the sheet that lowers the first
      row and column to each non-empty cell it meets. */
  method FirstCells(g: Grid) returns (minRow: nat, minCol: nat)
    ensures IsFirstRow(g, minRow) && IsFirstCol(g, minCol)
  {
    minRow, minCol := g.maxRow, g.maxCol;
    for r := 1 to g.maxRow + 1
      invariant minRow <= g.maxRow && minCol <= g.maxCol
      invariant forall r': nat, c': nat :: Filled(g, r', c') && r' < r ==> minRow <= r' && minCol <= c'
      invariant minRow == g.maxRow || exists c :: Filled(g, minRow, c)
      invariant minCol == g.maxCol || exists r' :: Filled(g, r', minCol)
    {
      for c := 1 to g.maxCol + 1
        invariant minRow <= g.maxRow && minCol <= g.maxCol
        invariant forall r': nat, c': nat :: Filled(g, r', c') && (r' < r || (r' == r && c' < c)) ==> minRow <= r' && minCol <= c'
        invariant minRow == g.maxRow || exists c' :: Filled(g, minRow, c')
        invariant minCol == g.maxCol || exists r' :: Filled(g, r', minCol)
      {
        if (r, c) in g.cells {
          assert Filled(g, r, c);
          if r < minRow { minRow := r; }
          if c < minCol { minCol := c; }
        }
      }
    }
  }

  /** The values of the non-empty cells of row 1, columns 1 to n, left to
      right. */
  function HeaderValues(g: Grid, n: nat): (r: seq<Value>)
    ensures |r| <= n
    decreases n
  {
    if n == 0 then []
    else HeaderValues(g, n - 1) + (if Filled(g, 1, n) then [g.cells[(1, n)]] else [])
  }

  /** The header row holds exactly the values of the filled cells of row 1
      (within the first n columns), and is as long as there are such cells. */
  lemma {:induction false} HeaderValuesExact(g: Grid, n: nat, v: Value)
    ensures v in HeaderValues(g, n) <==> exists c :: 1 <= c <= n && Filled(g, 1, c) && g.cells[(1, c)] == v
    decreases n
  {
    if n > 0 {
      HeaderValuesExact(g, n - 1, v);
      if Filled(g, 1, n) && g.cells[(1, n)] == v {
        assert v in HeaderValues(g, n);
      }
    }
  }

  datatype Range = Range(startRow: nat, endRow: nat, startColumn: string, endColumn: string)

  datatype SheetSummary = SheetSummary(
    name: string, index: nat, rowCount: nat, columnCount: nat, hasData: bool,
    dataRange: Option<Range>, headers: seq<Value>, headerCount: nat)

  datatype SummaryResult =
    | SummaryOk(filePath: string, fileName: string, worksheets: seq<SheetSummary>, totalWorksheets: nat)
    | SummaryUnsupported(error: string, supportedFormats: seq<string>)
    | SummaryFailed(error: string, filePath: string)

  /** The range ends at the last row and column and starts at the first
      non-empty row and column. */
  ghost predicate RangeFits(g: Grid, rg: Range) {
    && rg.endRow == g.maxRow
    && ColumnLetter(g.maxCol) == Some(rg.endColumn)
    && IsFirstRow(g, rg.startRow)
    && exists c :: IsFirstCol(g, c) && ColumnLetter(c) == Some(rg.startColumn)
  }

  /** What the summary promises about sheet `i`. */
  ghost predicate SummaryFits(sheet: Sheet, i: nat, s: SheetSummary) {
    var g := sheet.grid;
    && s.name == sheet.name
    && s.index == i
    && s.rowCount == g.maxRow
    && s.columnCount == g.maxCol
    && (s.hasData <==> g.maxRow > 1 || g.maxCol > 1)
    && (s.dataRange.Some? <==> s.hasData)
    && (s.dataRange.Some? ==> RangeFits(g, s.dataRange.value))
    && s.headers == (if g.maxRow > 0 then HeaderValues(g, g.maxCol) else [])
    && s.headerCount == |s.headers|
  }

  /** A sheet with more than one row but no column has no name for its
      first column, and the column-name conversion raises. */
  method SummarizeSheet(sheet: Sheet, i: nat) returns (r: Result<SheetSummary, string>)
    ensures r.Err? <==> Unnameable(sheet)
    ensures r.Err? ==> r.error == "Invalid column index 0"
    ensures r.Ok? ==> SummaryFits(sheet, i, r.value)
  {
    var g := sheet.grid;
    var hasData := false;
    var dataRange: Option<Range> := None;
    if g.maxRow > 1 || g.maxCol > 1 {
      hasData := true;
      var minRow, minCol := FirstCells(g);
      if minRow <= g.maxRow && minCol <= g.maxCol {
        var start := ColumnLetter(minCol);
        if start.None? {
          return Err("Invalid column index 0");
        }
        var end := ColumnLetter(g.maxCol);
        dataRange := Some(Range(minRow, g.maxRow, start.value, end.value));
      }
    }
    var headers: seq<Value> := [];
    if g.maxRow > 0 {
      headers := HeaderValues(g, g.maxCol);
    }
    r := Ok(SheetSummary(sheet.name, i, g.maxRow, g.maxCol, hasData, dataRange, headers, |headers|));
  }

  /** A sheet whose summary raises: more than one row and no column. */
  predicate Unnameable(sheet: Sheet) {
    sheet.grid.maxRow > 1 && sheet.grid.maxCol == 0
  }

  /** The loop over the sheets, in workbook order; the first sheet whose
      summary raises ends it. */
  method SummarizeBook(book: Book) returns (r: Result<seq<SheetSummary>, string>)
    ensures r.Ok? <==> forall i :: 0 <= i < |book| ==> !Unnameable(book[i])
    ensures r.Ok? ==> |r.value| == |book|
    ensures r.Ok? ==> forall i :: 0 <= i < |book| ==> SummaryFits(book[i], i, r.value[i])
  {
    var summaries: seq<SheetSummary> := [];
    for i := 0 to |book|
      invariant |summaries| == i
      invariant forall k :: 0 <= k < i ==> SummaryFits(book[k], k, summaries[k])
      invariant forall k :: 0 <= k < i ==> !Unnameable(book[k])
    {
      var s := SummarizeSheet(book[i], i);
      if s.Err? {
        return Err(s.error);
      }
      summaries := summaries + [s.value];
    }
    r := Ok(summaries);
  }

  /** Checks the extension, opens the workbook and summarises its sheets. */
  method GetWorksheetSummary(cfg: Config, fs: Fs, raw: string) returns (r: SummaryResult)
    ensures r.SummaryUnsupported? <==> !IsSupportedFile(cfg, raw)
    ensures r.SummaryOk? <==>
      && IsSupportedFile(cfg, raw)
      && LoadBook(fs, raw).Ok?
      && forall i :: 0 <= i < |LoadBook(fs, raw).value| ==> !Unnameable(LoadBook(fs, raw).value[i])
    ensures r.SummaryOk? ==>
      var book := LoadBook(fs, raw).value;
      && |r.worksheets| == |book| == r.totalWorksheets
      && forall i :: 0 <= i < |book| ==> SummaryFits(book[i], i, r.worksheets[i])
  {
    if !IsSupportedFile(cfg, raw) {
      return SummaryUnsupported("Unsupported file format: " + Suffix(Name(raw)), SupportedExtensions(cfg));
    }
    var loaded := LoadBook(fs, raw);
    if loaded.Err? {
      return SummaryFailed("Cannot get worksheet information: " + FaultText(loaded.error, Text(raw)),
                           AbsoluteText(fs, raw));
    }
    var summaries := SummarizeBook(loaded.value);
    if summaries.Err? {
      return SummaryFailed("Cannot get worksheet information: " + summaries.error, AbsoluteText(fs, raw));
    }
    r := SummaryOk(AbsoluteText(fs, raw), Name(raw), summaries.value, |summaries.value|);
  }

  // ---------------------------------------------------------------------------
  // Search

  datatype Match = Match(row: nat, column: string, columnIndex: nat, value: string, cellAddress: string)

  datatype SearchResult =
    | SearchOk(filePath: string, worksheetName: string, searchTerm: string, caseSensitive: bool,
               totalMatches: nat, matches: seq<Match>)
    | SearchUnsupported(error: string, supportedFormats: seq<string>)
    | SearchFailed(error: string, filePath: string)

  /** The term actually searched for: lower-cased unless the search is case
      sensitive. */
  function SearchTerm(term: string, caseSensitive: bool): string {
    if caseSensitive then term else Lower(term)
  }

  /** Cell (i, j) of the frame, 0-based, contains the term. The cell is read
      by its str() text ("nan" for an empty cell), lower-cased when the search
      is not case sensitive. */
  predicate Hit(f: Frame, term: string, caseSensitive: bool, i: nat, j: nat)
    requires i < |f.rows| && j < |f.columns|
  {
    var text := Show(f.rows[i][j], f.dtypes[j]);
    Contains(if caseSensitive then text else Lower(text), term)
  }

  /** The match reported for cell (i, j): 1-based row, the column label, and
      the spreadsheet-style address label + row. */
  function MatchAt(f: Frame, i: nat, j: nat): Match
    requires i < |f.rows| && j < |f.columns|
  {
    Match(i + 1, f.columns[j], j, Show(f.rows[i][j], f.dtypes[j]), f.columns[j] + NatText(i + 1))
  }

  /** What cell (i, j) yields to the search: its match, when it contains the
      term. */
  function Yield(f: Frame, term: string, cs: bool, i: nat, j: nat): Option<Match>
    requires i < |f.rows| && j < |f.columns|
  {
    if Hit(f, term, cs, i, j) then Some(MatchAt(f, i, j)) else None
  }

  /** The yields of column j, top to bottom. */
  function Column(f: Frame, term: string, cs: bool, j: nat): (ys: seq<Option<Match>>)
    requires j < |f.columns|
    ensures |ys| == |f.rows|
  {
    seq(|f.rows|, i requires 0 <= i < |f.rows| => Yield(f, term, cs, i, j))
  }

  /** The yields of every cell, column by column. */
  function Table(f: Frame, term: string, cs: bool): (t: seq<seq<Option<Match>>>)
    ensures |t| == |f.columns|
  {
    seq(|f.columns|, j requires 0 <= j < |f.columns| => Column(f, term, cs, j))
  }

  /** The matches among the first n yields, in order. */
  function Present(ys: seq<Option<Match>>, n: nat): seq<Match>
    requires n <= |ys|
    decreases n
  {
    if n == 0 then []
    else Present(ys, n - 1) + (if ys[n - 1].Some? then [ys[n - 1].value] else [])
  }

  /** The matches in the first m columns of a table, column by column. */
  function Gather(t: seq<seq<Option<Match>>>, m: nat): seq<Match>
    requires m <= |t|
    decreases m
  {
    if m == 0 then []
    else Gather(t, m - 1) + Present(t[m - 1], |t[m - 1]|)
  }

  /** The matches in the first m columns of the frame, column by column. */
  function Hits(f: Frame, term: string, cs: bool, m: nat): seq<Match>
    requires m <= |f.columns|
  {
    Gather(Table(f, term, cs), m)
  }

  /** The whole search, spelled as the nested loop over columns and rows. */
  method SearchFrame(f: Frame, term: string, cs: bool) returns (matches: seq<Match>)
    ensures matches == Hits(f, term, cs, |f.columns|)
  {
    matches := [];
    for j := 0 to |f.columns|
      invariant matches == Hits(f, term, cs, j)
    {
      var column := SearchColumn(f, term, cs, j);
      HitsStep(f, term, cs, j);
      matches := matches + column;
    }
  }

  /** One more column adds that column's hits, top to bottom. */
  lemma HitsStep(f: Frame, term: string, cs: bool, j: nat)
    requires j < |f.columns|
    ensures Hits(f, term, cs, j + 1) == Hits(f, term, cs, j) + Present(Column(f, term, cs, j), |f.rows|)
  {
    assert Table(f, term, cs)[j] == Column(f, term, cs, j);
  }

  /** The inner loop: the rows of column j, top to bottom. */
  method SearchColumn(f: Frame, term: string, cs: bool, j: nat) returns (matches: seq<Match>)
    requires j < |f.columns|
    ensures matches == Present(Column(f, term, cs, j), |f.rows|)
  {
    matches := [];
    for i := 0 to |f.rows|
      invariant matches == Present(Column(f, term, cs, j), i)
    {
      var y := SearchCell(f, term, cs, i, j);
      ColumnStep(f, term, cs, i, j);
      if y.Some? {
        matches := matches + [y.value];
      }
    }
  }

  /** One more row adds that cell's match, if it yields one. */
  lemma ColumnStep(f: Frame, term: string, cs: bool, i: nat, j: nat)
    requires i < |f.rows| && j < |f.columns|
    ensures var y := Yield(f, term, cs, i, j);
      Present(Column(f, term, cs, j), i + 1) ==
      Present(Column(f, term, cs, j), i) + (if y.Some? then [y.value] else [])
  {
    assert Column(f, term, cs, j)[i] == Yield(f, term, cs, i, j);
  }

  /** The test of one cell: str() of its value, lower-cased unless the
      search is case sensitive, searched for the term. */
  method SearchCell(f: Frame, term: string, cs: bool, i: nat, j: nat) returns (y: Option<Match>)
    requires i < |f.rows| && j < |f.columns|
    ensures y == Yield(f, term, cs, i, j)
  {
    var text := Show(f.rows[i][j], f.dtypes[j]);
    var found := if cs then Contains(text, term) else Contains(Lower(text), term);
    assert found == Hit(f, term, cs, i, j);
    y := if found then Some(MatchAt(f, i, j)) else None;
  }

  /** Match k was found at cell (i, j). */
  predicate FoundAt(f: Frame, term: string, cs: bool, ms: seq<Match>, k: nat, i: nat, j: nat) {
    && k < |ms| && i < |f.rows| && j < |f.columns|
    && Hit(f, term, cs, i, j) && ms[k] == MatchAt(f, i, j)
  }

  /** Every match kept among the first n yields is one of them. */
  lemma {:induction false} PresentSound(ys: seq<Option<Match>>, n: nat, k: nat)
    requires n <= |ys| && k < |Present(ys, n)|
    ensures exists i :: 0 <= i < n && ys[i] == Some(Present(ys, n)[k])
    decreases n
  {
    var prev := Present(ys, n - 1);
    if k < |prev| {
      PresentSound(ys, n - 1, k);
      var i :| 0 <= i < n - 1 && ys[i] == Some(prev[k]);
      assert Present(ys, n)[k] == prev[k];
    } else {
      assert ys[n - 1] == Some(Present(ys, n)[k]);
    }
  }

  /** Every match gathered from a table is the yield of one of its cells. */
  lemma {:induction false} GatherSound(t: seq<seq<Option<Match>>>, m: nat, k: nat)
    requires m <= |t| && k < |Gather(t, m)|
    ensures exists j, i :: 0 <= j < m && 0 <= i < |t[j]| && t[j][i] == Some(Gather(t, m)[k])
    decreases m
  {
    var prev := Gather(t, m - 1);
    if k < |prev| {
      GatherSound(t, m - 1, k);
      var j, i :| 0 <= j < m - 1 && 0 <= i < |t[j]| && t[j][i] == Some(prev[k]);
      assert Gather(t, m)[k] == prev[k];
    } else {
      PresentSound(t[m - 1], |t[m - 1]|, k - |prev|);
      var i :| 0 <= i < |t[m - 1]| && t[m - 1][i] == Some(Present(t[m - 1], |t[m - 1]|)[k - |prev|]);
      assert Gather(t, m)[k] == Present(t[m - 1], |t[m - 1]|)[k - |prev|];
    }
  }

  /** A match that cell (i, j) yields is a match found there. */
  lemma YieldFound(f: Frame, term: string, cs: bool, ms: seq<Match>, k: nat, i: nat, j: nat)
    requires k < |ms| && i < |f.rows| && j < |f.columns|
    requires Table(f, term, cs)[j][i] == Some(ms[k])
    ensures FoundAt(f, term, cs, ms, k, i, j)
  {
    assert Table(f, term, cs)[j][i] == Yield(f, term, cs, i, j);
  }

  /** Every reported match is a cell that contains the term. */
  lemma SearchSound(f: Frame, term: string, cs: bool, m: nat, k: nat)
    requires m <= |f.columns| && k < |Hits(f, term, cs, m)|
    ensures exists i: nat, j: nat :: j < m && FoundAt(f, term, cs, Hits(f, term, cs, m), k, i, j)
  {
    var t := Table(f, term, cs);
    GatherSound(t, m, k);
    var j, i :| 0 <= j < m && 0 <= i < |t[j]| && t[j][i] == Some(Gather(t, m)[k]);
    YieldFound(f, term, cs, Hits(f, term, cs, m), k, i, j);
  }

  /** Every match among the first n yields is kept. */
  lemma {:induction false} PresentComplete(ys: seq<Option<Match>>, n: nat, i: nat)
    requires i < n <= |ys| && ys[i].Some?
    ensures ys[i].value in Present(ys, n)
    decreases n
  {
    if i < n - 1 {
      PresentComplete(ys, n - 1, i);
    }
  }

  /** Every yield of the first m columns of a table is gathered. */
  lemma {:induction false} GatherComplete(t: seq<seq<Option<Match>>>, m: nat, j: nat, i: nat)
    requires j < m <= |t| && i < |t[j]| && t[j][i].Some?
    ensures t[j][i].value in Gather(t, m)
    decreases m
  {
    if j < m - 1 {
      GatherComplete(t, m - 1, j, i);
    } else {
      PresentComplete(t[j], |t[j]|, i);
    }
  }

  /** Every cell that contains the term is reported. */
  lemma SearchComplete(f: Frame, term: string, cs: bool, m: nat, i: nat, j: nat)
    requires j < m <= |f.columns| && i < |f.rows| && Hit(f, term, cs, i, j)
    ensures MatchAt(f, i, j) in Hits(f, term, cs, m)
  {
    var t := Table(f, term, cs);
    assert t[j][i] == Yield(f, term, cs, i, j);
    GatherComplete(t, m, j, i);
  }

  /** Match `a` comes strictly before match `b` in column-major order. */
  predicate Before(a: Match, b: Match) {
    a.columnIndex < b.columnIndex || (a.columnIndex == b.columnIndex && a.row < b.row)
  }

  /** The yields of column j sit in column j, each on its own 1-based row. */
  predicate Placed(ys: seq<Option<Match>>, j: nat) {
    forall i :: 0 <= i < |ys| && ys[i].Some? ==> ys[i].value.row == i + 1 && ys[i].value.columnIndex == j
  }

  /** The matches kept from placed yields stay in their column and come top
      to bottom. */
  lemma {:induction false} PresentShape(ys: seq<Option<Match>>, j: nat, n: nat)
    requires n <= |ys| && Placed(ys, j)
    ensures forall k :: 0 <= k < |Present(ys, n)| ==>
              Present(ys, n)[k].columnIndex == j && 1 <= Present(ys, n)[k].row <= n
    ensures forall a, b :: 0 <= a < b < |Present(ys, n)| ==> Present(ys, n)[a].row < Present(ys, n)[b].row
    decreases n
  {
    if n > 0 {
      PresentShape(ys, j, n - 1);
    }
  }

  /** Gathering a table whose columns are placed lists matches column by
      column, top to bottom. */
  lemma {:induction false} GatherOrdered(t: seq<seq<Option<Match>>>, m: nat)
    requires m <= |t| && forall j :: 0 <= j < |t| ==> Placed(t[j], j)
    ensures forall k :: 0 <= k < |Gather(t, m)| ==> Gather(t, m)[k].columnIndex < m
    ensures forall a, b :: 0 <= a < b < |Gather(t, m)| ==> Before(Gather(t, m)[a], Gather(t, m)[b])
    decreases m
  {
    if m > 0 {
      GatherOrdered(t, m - 1);
      PresentShape(t[m - 1], m - 1, |t[m - 1]|);
    }
  }

  /** Every yield of the frame sits at its own cell. */
  lemma TablePlaced(f: Frame, term: string, cs: bool)
    ensures forall j :: 0 <= j < |Table(f, term, cs)| ==> Placed(Table(f, term, cs)[j], j)
  {
    var t: seq<seq<Option<Match>>> := Table(f, term, cs);
    forall j: nat, i: nat | j < |t| && i < |t[j]| && t[j][i].Some?
      ensures t[j][i].value.row == i + 1 && t[j][i].value.columnIndex == j
    {
      assert t[j][i] == Yield(f, term, cs, i, j);
    }
  }

  /** Matches come column by column, and top to bottom within a column; so
      no cell is reported twice. */
  lemma SearchOrdered(f: Frame, term: string, cs: bool, m: nat)
    requires m <= |f.columns|
    ensures forall k :: 0 <= k < |Hits(f, term, cs, m)| ==> Hits(f, term, cs, m)[k].columnIndex < m
    ensures forall a, b :: 0 <= a < b < |Hits(f, term, cs, m)| ==>
              Before(Hits(f, term, cs, m)[a], Hits(f, term, cs, m)[b])
  {
    TablePlaced(f, term, cs);
    GatherOrdered(Table(f, term, cs), m);
  }

  /** Reads the sheet and reports every cell containing the term, with its
      1-based row and its address; the term it echoes is the one searched. */
  method SearchInWorksheet(cfg: Config, fs: Fs, raw: string, term: string, worksheetName: Option<string>,
                           caseSensitive: bool) returns (r: SearchResult)
    ensures r.SearchUnsupported? <==> !IsSupportedFile(cfg, raw)
    ensures r.SearchOk? <==> IsSupportedFile(cfg, raw) && ReadFrame(fs, raw, worksheetName).Ok?
    ensures r.SearchFailed? ==>
      r.error == "Error occurred during search: " + FaultText(ReadFrame(fs, raw, worksheetName).error, Text(raw))
    ensures r.SearchOk? ==>
      var f := ReadFrame(fs, raw, worksheetName).value;
      && r.matches == Hits(f, SearchTerm(term, caseSensitive), caseSensitive, |f.columns|)
      && r.totalMatches == |r.matches|
      && r.searchTerm == SearchTerm(term, caseSensitive)
      && r.worksheetName == FirstName(worksheetName, None)
  {
    if !IsSupportedFile(cfg, raw) {
      return SearchUnsupported("Unsupported file format: " + Suffix(Name(raw)), SupportedExtensions(cfg));
    }
    var read := ReadFrame(fs, raw, worksheetName);
    if read.Err? {
      return SearchFailed("Error occurred during search: " + FaultText(read.error, Text(raw)), AbsoluteText(fs, raw));
    }
    var searched := term;
    if !caseSensitive {
      searched := Lower(term);
    }
    var matches := SearchFrame(read.value, searched, caseSensitive);
    r := SearchOk(AbsoluteText(fs, raw), FirstName(worksheetName, None), searched, caseSensitive,
                  |matches|, matches);
  }

  /** A search that ignores case finds the same cells whatever the case of
      the term. */
  lemma SearchIgnoresTermCase(f: Frame, term: string)
    ensures Hits(f, SearchTerm(Lower(term), false), false, |f.columns|)
         == Hits(f, SearchTerm(term, false), false, |f.columns|)
  {
    LowerIdempotent(term);
  }

  /** An empty cell outside a time column reads as "nan", so a term such as
      "an" matches it, reported with the value "nan". */
  lemma EmptyCellReadsNan(f: Frame, i: nat, j: nat)
    requires i < |f.rows| && j < |f.columns| && f.rows[i][j].None? && !TimeColumn(f.dtypes[j])
    ensures Hit(f, "an", true, i, j) && Hit(f, "an", false, i, j)
    ensures MatchAt(f, i, j).value == "nan"
  {
    assert OccursAt("nan", "an", 1);
    ContainsAt("nan", "an");
    assert Lower("nan") == "nan";
  }

  /** An empty cell of a time column reads as "NaT": the term "nat" matches
      it when case is ignored, and "an" does not match it. */
  lemma EmptyTimeCellReadsNaT(f: Frame, i: nat, j: nat)
    requires i < |f.rows| && j < |f.columns| && f.rows[i][j].None? && TimeColumn(f.dtypes[j])
    ensures Hit(f, "nat", false, i, j) && !Hit(f, "nat", true, i, j)
    ensures !Hit(f, "an", true, i, j) && !Hit(f, "an", false, i, j)
    ensures MatchAt(f, i, j).value == "NaT"
  {
    assert Lower("NaT") == "nat";
    assert OccursAt("nat", "nat", 0);
    ContainsAt("nat", "nat");
    NoOccurrence("NaT", "nat");
    NoOccurrence("NaT", "an");
    NoOccurrence("nat", "an");
  }

  /** Neither "nat" nor "an" occurs in "NaT", and "an" does not occur in
      "nat". */
  lemma NoOccurrence(text: string, term: string)
    requires (text, term) in {("NaT", "nat"), ("NaT", "an"), ("nat", "an")}
    ensures !Contains(text, term)
  {
    ContainsAt(text, term);
    forall k: int ensures !OccursAt(text, term, k) {
      if 0 <= k && k + |term| <= |text| {
        assert text[k..k + |term|][0] != term[0] || text[k..k + |term|][1] != term[1];
      }
    }
  }
}

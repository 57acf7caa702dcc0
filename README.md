# Excel search server — a Dafny model

The system is a small tool server for spreadsheets. Clients can list the Excel
files under a directory, find them by name, validate a file path, describe a
workbook's sheets, read a sheet's rows, summarise a sheet's used range and
header row, search a sheet for a text, and format a sheet or a list of search
matches as JSON-ready values. Every file and directory a client names should
lie inside one configured *work directory*.

This project models the core of that system in Dafny. There is one module per
source file:

- `ConfigManager` (`config_manager.dfy`) holds the settings and their
  defaults, and the work-directory confinement check.
- `ExcelProcessor` (`excel_processor.dfy`) covers the supported-extension
  test, file validation, file information, reading rows, the worksheet
  summary and the cell search.
- `FileScanner` (`file_scanner.dfy`) covers directory validation, file
  metadata, the directory scan with its file cap, and the search by
  file-name pattern.
- `DataFormatter` (`data_formatter.dfy`) covers value formatting, frame
  formatting, dropping empty rows and columns, and formatting search
  results.
- `Server` (`server.dfy`) is the tool dispatcher. It checks arguments,
  routes each call and wraps the replies in envelopes. It also runs the
  batch-summary loop.

Three shared modules hold the values those files work on:

- `Common` (`common.dfy`) has options and results, the error codes, ASCII
  lower-casing, substrings, and splitting and joining on `/`.
- `FileSystem` (`filesystem.dfy`) models the disk as a value:
  - canonical paths are sequences of components, each mapped to a file
    (with its size) or a directory;
  - directory entries are kept in enumeration order;
  - `stat` and path resolution can fail at given paths;
  - each workbook stored on disk is a value.

  It also has lexical path resolution with `..` collapsing, and path names
  and suffixes.
- `Workbook` (`workbook.dfy`) models cell values, the cell grid of a sheet
  (its dimensions and filled cells), and the data frame read from a sheet:
  its column labels, column types, row labels and rows. It also has the
  dtype table, `head` with a row limit, and spreadsheet column letters.

The source objects set their fields once, at construction, and only read them
afterwards. So the settings and the disk are values passed to every
operation, and the model has no classes. Each loop of the source is a
`method` with a loop and its invariants. Each such method is proved against
a specification function, and the properties are proved about that function.

## Model

| member | source | states |
|---|---|---|
| ConfigManager.GetterDefaults | src/config_manager.py:61-81 | For each of the five keys, a present key wins. A missing key, or a missing "excel" section, gives the built-in default: `<home>/Documents`, the four extensions, 100 MB, 1000 files, recursive search. |
| ConfigManager.DefaultSettings | src/config_manager.py:37-63 | The built-in settings have no work-directory key. So the work directory falls back to `<home>/Documents`, which resolves to the home directory's components plus "Documents". |
| ConfigManager.IsPathWithinWorkDirectory | src/config_manager.py:83-103 | A path is reported inside only when both it and the work directory resolve. |
| ConfigManager.SameAsWorkDirectoryInside | src/config_manager.py:86-91 | A path that resolves to the resolved work directory is inside, however it is written. |
| ConfigManager.InsideIffPrefix | src/config_manager.py:94-99 | When both paths resolve, a path is inside exactly when the work directory's components are a prefix of its components. |
| ConfigManager.SiblingOutside | src/config_manager.py:94-99 | A sibling such as `/work2` beside `/work` is outside, and so is everything below it; matching is by component, not by text. |
| ConfigManager.AncestorOutside | src/config_manager.py:94-99 | Every proper ancestor of the work directory, the root included, is outside. |
| ConfigManager.ResolveFaultOutside | src/config_manager.py:101-103 | A failure while resolving either path gives "outside" and is never raised. |
| ConfigManager.SameLocationSameVerdict | src/config_manager.py:86-87 | Two paths that name the same location get the same verdict. |
| ConfigManager.DotDotSameVerdict | src/config_manager.py:86-87 | `root/x/../rest` gets the same verdict as `root/rest`. |
| ExcelProcessor.SupportedIgnoresCase | src/excel_processor.py:27-29 | The supported-extension test gives the same answer for a path and its lower-cased spelling. |
| ExcelProcessor.SupportedNeedsSuffix | src/excel_processor.py:27-29 | When no configured extension is empty, only a name with a real suffix is supported: a dot-file such as ".xlsx" is not. |
| ExcelProcessor.ValidateFilePath | src/excel_processor.py:35-90 | A file that passes is inside the work directory, is a regular file of the reported size, and is no larger than the ceiling. |
| ExcelProcessor.ValidationOrder | src/excel_processor.py:35-90 | Each error code is reported exactly when its check is the first to fail: not found, not a file, access denied, too large. A failing `stat` gives a validation error. The path is valid exactly when all the checks pass. |
| ExcelProcessor.ValidationDetails | src/excel_processor.py:56-76 | A denial carries the work directory. A size failure carries both the file's size and the ceiling. |
| ExcelProcessor.ValidFileConfined | src/excel_processor.py:56-80 | A valid file lies at or below the work directory, component by component. Its reported path is its resolved location. |
| ExcelProcessor.SizeCeilingInclusive | src/excel_processor.py:66-83 | A file of exactly the ceiling's size passes. |
| ExcelProcessor.OutsideDeniedBeforeSize | src/excel_processor.py:56-69 | A file outside the work directory is denied whatever its size. |
| ExcelProcessor.ListSheets | src/excel_processor.py:120-143 | There is one overview per sheet, in workbook order. Each gives the sheet's name, index and dimensions. A sheet has data exactly when it has more than one row or more than one column. |
| ExcelProcessor.GetFileInfo | src/excel_processor.py:92-169 | A validation failure is reported exactly when validation fails, with its code and the work directory. Otherwise an unsupported extension is reported. Otherwise the sheet list is reported exactly when the workbook opens, and it covers every sheet of an in-directory file. |
| ExcelProcessor.FirstName | src/excel_processor.py:224 | The reported sheet name is the first non-empty of the given name and the frame's index name, and "Sheet1" when both are empty. It is never empty. |
| ExcelProcessor.IndexedRows | src/excel_processor.py:209-214 | Without headers, each row is its row label followed by its cells as the row array gives them, one column wider than the frame. |
| ExcelProcessor.ReadWorksheetData | src/excel_processor.py:171-252 | Only an unsupported extension is refused, and a read succeeds exactly when the sheet can be read. A positive `max_rows` keeps min(`max_rows`, rows) rows from the top. The headers are the column labels, or "Index" plus them. The rows are the frame's rows as the row arrays give them, so integer cells become floats when every column is numeric and one is a float column. Every row is as wide as the headers. The dtype table's keys are exactly the column labels. Failures are reported with their own messages. |
| ExcelProcessor.FirstUnique | src/excel_processor.py:283-290 | The first used row and the first used column are each unique. |
| ExcelProcessor.FirstCells | src/excel_processor.py:283-290 | The nested cell scan finds the smallest row and the smallest column holding a value, or keeps the maxima when none does. |
| ExcelProcessor.HeaderValuesExact | src/excel_processor.py:301-305 | The header list holds exactly the values of the filled cells of row 1. |
| ExcelProcessor.SummarizeSheet | src/excel_processor.py:270-319 | A sheet summary has the sheet's name, index and dimensions. It has data exactly when there is more than one row or column, and a data range exactly when it has data. The range starts at the first used row and column and ends at the last row and column. The headers are the filled cells of row 1. A sheet with rows but no column raises. |
| ExcelProcessor.SummarizeBook | src/excel_processor.py:267-319 | The book's summary succeeds exactly when no sheet raises. It then holds one summary per sheet, in workbook order. |
| ExcelProcessor.GetWorksheetSummary | src/excel_processor.py:254-339 | Only an unsupported extension is refused. The summary succeeds exactly when the workbook opens and no sheet raises, with one fitting summary per sheet. |
| ExcelProcessor.SearchFrame | src/excel_processor.py:373-397 | The nested loop over columns and rows produces exactly the column-major list of hits. |
| ExcelProcessor.SearchColumn | src/excel_processor.py:375-397 | The inner loop over one column yields, top to bottom, exactly that column's hits. |
| ExcelProcessor.SearchCell | src/excel_processor.py:376-397 | A cell yields a match exactly when its text, lower-cased unless the search is case-sensitive, contains the term. The match carries the 1-based row, the column label and index, the text and the address. |
| ExcelProcessor.SearchSound | src/excel_processor.py:373-397 | Every reported match is a cell whose text contains the term, reported with its 1-based row, label, text and address. |
| ExcelProcessor.SearchComplete | src/excel_processor.py:373-397 | Every cell whose text contains the term is reported. |
| ExcelProcessor.SearchOrdered | src/excel_processor.py:374-375 | Matches come column by column, and top to bottom within a column. |
| ExcelProcessor.SearchInWorksheet | src/excel_processor.py:341-415 | Only an unsupported extension is refused, and the search succeeds exactly when the sheet can be read. It reports every hit, and the count of hits. The term it echoes is lower-cased unless the search is case-sensitive. |
| ExcelProcessor.SearchIgnoresTermCase | src/excel_processor.py:366-368 | A search that ignores case finds the same cells whatever the case of the term. |
| ExcelProcessor.EmptyCellReadsNan | src/excel_processor.py:374-388 | An empty cell outside a time column is searched as the text "nan", so the term "an" matches it in both modes. |
| ExcelProcessor.EmptyTimeCellReadsNaT | src/excel_processor.py:374-388 | An empty cell of a datetime or timedelta column is searched as the text "NaT": "nat" matches it only when case is ignored, and "an" never does. |
| Workbook.RowValuesCells | src/excel_processor.py:207-214 | In a row array, an integer cell becomes the float of the same number exactly when every column is numeric and one is a float column. Empty cells stay empty, and every other cell is kept. |
| Workbook.SelectFrame | src/excel_processor.py:188-195 | A non-empty sheet name picks the sheet of that name, and fails when there is none. Otherwise the first sheet is picked, and an empty workbook fails. |
| Workbook.DataTypesKeys | src/excel_processor.py:216-219 | The dtype table has exactly the column labels as keys. |
| Workbook.DataTypesLast | src/data_formatter.py:94-96 | When two column labels print alike, the label maps to the type of the last column that carries it. |
| Workbook.DataTypesSize | src/excel_processor.py:216-219 | With distinct labels there are as many keys as columns. |
| Workbook.CollectDataTypes | src/excel_processor.py:216-219 | The loop builds the dtype table, whose keys are exactly the column labels. |
| Workbook.LimitRowsCount | src/excel_processor.py:198-199 | The limit keeps a prefix of the rows with their labels. No limit or a zero limit keeps all rows. A positive limit keeps min(limit, rows) rows. A negative limit drops that many rows from the bottom. |
| Workbook.ColumnLetter | src/excel_processor.py:296-297 | A column has a name exactly when its index is at least 1, and the name is not empty. |
| Workbook.ColumnLetterInjective | src/excel_processor.py:296-297 | Distinct columns get distinct names. |
| FileSystem.DotDotCancels | src/config_manager.py:86-87 | A component followed by `..` cancels: `a/x/../b` and `a/b` resolve alike. |
| FileSystem.TextSameLocation | src/file_scanner.py:140 | Printing a path and parsing it again gives the same components, the same kind (absolute or relative) and the same location. |
| FileSystem.ExtensionIgnoresCase | src/excel_processor.py:29 | The lower-cased suffix of a path does not depend on the case of the path. |
| FileSystem.Glob | src/file_scanner.py:149-156 | The listing holds exactly the entries below the directory: its direct children, or all its descendants when recursive. |
| FileSystem.FlatWithinRecursive | src/file_scanner.py:149-156 | A flat listing is part of the recursive one and never reaches into a subdirectory. |
| FileScanner.ExcelFileIffListed | src/file_scanner.py:27-29 | A file counts as an Excel file exactly when its lower-cased suffix is a configured extension, whatever the case of its path. |
| FileScanner.ValidateDirectoryPath | src/file_scanner.py:35-77 | A directory that passes exists, is a directory, lies in the work directory, and is reported by its resolved location. |
| FileScanner.DirectoryValidationOrder | src/file_scanner.py:35-77 | Each error code is reported exactly when its check is the first to fail: not found, not a directory, access denied. A failure during the checks gives a validation error. |
| FileScanner.ValidDirectoryConfined | src/file_scanner.py:59-75 | A valid directory lies at or below the work directory, component by component. |
| FileScanner.Metadata | src/file_scanner.py:79-102 | The record always carries the path, the name and the lower-cased suffix. It carries an error, with size 0, exactly when `stat` fails. Otherwise it carries the file's size. |
| FileScanner.GetFileMetadata | src/file_scanner.py:79-102 | A path's metadata has its absolute path, name and extension. It carries an error exactly when the path cannot be looked up, and the size is then 0. |
| FileScanner.WalkCollects | src/file_scanner.py:146-167 | The scan loop collects, after what it had, only regular files with a configured extension. The visit count grows by at least the number collected and by at most the number of entries. |
| FileScanner.WalkCapped | src/file_scanner.py:159-162 | A positive cap bounds the number of files collected. |
| FileScanner.WalkNegativeCap | src/file_scanner.py:156-162 | A negative cap ends the loop at the first entry, which is still counted as scanned. |
| FileScanner.WalkUnlimited | src/file_scanner.py:156-167 | Without a cap (missing or zero) and without failing `stat`s, every entry is visited and exactly the matching files are collected, in order. |
| FileScanner.WalkBelowCap | src/file_scanner.py:156-167 | When fewer files than the cap were collected, nothing was cut off: every entry was visited and every matching file collected. |
| FileScanner.ScanDirectory | src/file_scanner.py:104-201 | The scan method computes exactly the scan specification: validation first, then the capped walk, then the report. |
| FileScanner.ScanFindsExcelFiles | src/file_scanner.py:123-180 | A successful scan was given a valid directory. It reports as many files as it collected, never more than it visited. Each file has a configured extension and no metadata error. |
| FileScanner.ScanConfined | src/file_scanner.py:123-167 | Every file a scan collects lies in the work directory. |
| FileScanner.FlatScanWithinRecursive | src/file_scanner.py:149-167 | Without a cap and without failing `stat`s, a file a flat scan collects is also collected by the recursive scan of the same directory, and lies directly in it. |
| FileScanner.SiftCollects | src/file_scanner.py:242-245 | The pattern-search loop succeeds exactly when no `stat` fails. It then keeps exactly the matching regular files, in order. |
| FileScanner.FindExcelFilesByName | src/file_scanner.py:203-266 | The method computes the pattern search as written: a missing or non-directory path is refused, and there is no work-directory check. |
| FileScanner.FindExcelFilesByNameConfined | src/file_scanner.py:203-266 | The method computes the corrected search, which validates the directory first. |
| FileScanner.ConfinedSearchInside | src/file_scanner.py:218-245 | For a pattern that tests an entry's own name, every file the corrected search keeps lies in the work directory. |
| FileScanner.ConfinedSearchValidates | src/file_scanner.py:218-228 | A corrected search that succeeds was given a directory inside the work directory. |
| FileScanner.PatternSearchEscapes | src/file_scanner.py:218-245 | With work directory `/work`, searching `/other` lists `/other/a.xlsx` even though directory validation denies `/other`. |
| DataFormatter.FormatValue | src/data_formatter.py:31-64 | An empty cell stays empty. Numbers, text and booleans come back unchanged. A date becomes its ISO text. Any other value becomes its text. The result is always a plain JSON value. |
| DataFormatter.FormatValueIdempotent | src/data_formatter.py:31-64 | Formatting a formatted value changes nothing. |
| DataFormatter.FormatDataframe | src/data_formatter.py:66-105 | The headers are the column labels, or "Index" plus them. There is one formatted row per frame row, made of the formatted cells of its row array, and the counts of rows and headers are reported. The dtype table is keyed by the column labels. |
| DataFormatter.FormattedShape | src/data_formatter.py:74-91 | Every formatted row is exactly as wide as the headers, and every value in it is plain. Without headers each row starts with its label. |
| DataFormatter.DropEmptyRowsKeeps | src/data_formatter.py:139 | Dropping empty rows gives exactly the rows that hold a value, in order, with their labels: the frame's rows and labels filtered by "holds a value". |
| DataFormatter.DropEmptyColumnsKeeps | src/data_formatter.py:139 | Dropping empty columns gives exactly the columns that hold a value, in order, with their types. Each row becomes its cells in those columns, in order. |
| DataFormatter.DataOnlyHasNoEmptyLines | src/data_formatter.py:137-139 | In the data-only view every row and every column holds a value. |
| DataFormatter.PreparedRows | src/data_formatter.py:136-143 | The prepared frame is a prefix of the (data-only) frame. A positive limit keeps min(limit, rows) rows, and no limit or a zero limit keeps all rows. In data-only mode every kept row holds a value. |
| DataFormatter.FormatExcelData | src/data_formatter.py:118-164 | The call succeeds exactly when the sheet can be read, and a failure is reported with its text. A success formats the prepared frame, names the sheet or "Sheet1", and echoes the options. |
| DataFormatter.FormatSearchResults | src/data_formatter.py:228-253 | There is one formatted entry per match, in input order, and the total is the number of matches. Missing keys take their defaults, and the context lists are empty. |
| DataFormatter.FormatFoundMatch | src/data_formatter.py:235-242 | A match from the worksheet search keeps its row, column, address and text when formatted. |
| Server.Wrap | src/server.py:345-356 | A returned result is the single reply item. A value, type, not-found or permission error becomes one failure item "Tool execution failed: …". Any other exception escapes. |
| Server.MultipleSummaries | src/server.py:103-116 | The batch loop computes the batch specification: one summary per path, in order, or the first exception. |
| Server.SummariesOnePerPath | src/server.py:107-110 | The batch succeeds exactly when every summary does. It then holds exactly one summary per path, in input order. |
| Server.BatchShape | src/server.py:103-116 | A successful batch is the envelope with success, the number of paths and the summaries in input order. A failed batch carries the exception of its first failing path. |
| Server.CallTool | src/server.py:234-356 | A tool call is routed by its name and arguments, runs the chosen collaborator, and wraps the outcome. |
| Server.OneItem | src/server.py:234-356 | Every reply is exactly one item, unless a collaborator raised an exception the dispatcher does not catch. A refused call replies with the refusal message. |
| Server.ListFilesArguments | src/server.py:239-255 | `list_excel_files` is refused exactly when `directory_path` is missing or falsy. `recursive` defaults to true. |
| Server.SingleIff | src/server.py:262-273 | The single-file summary runs exactly when `file_path` is truthy and `file_paths` is falsy, so `file_paths=[]` beside a path is a single-file call. |
| Server.BatchIff | src/server.py:276-294 | The batch runs exactly when `file_paths` is given, `file_path` is falsy, and `file_paths` is a non-empty list; it then runs over those paths. A given `file_paths` that is not a non-empty list is refused as such. |
| Server.EitherNotBoth | src/server.py:297-307 | Both arguments truthy, or neither given, is refused with "Either file_path or file_paths is required, but not both". |
| Server.ReadDataNeedsPath | src/server.py:309-324 | `read_excel_data` without a truthy `file_path` is refused with "file_path is required", whatever the reader would do. |
| Server.UnknownTool | src/server.py:333-343 | Any other tool name is refused with "Unknown tool: " and the name. |

## Left out

- Logging, the clock and the timestamps (`modified_time`, `created_time`) are not modelled. Metadata records have no time fields.
- Reading the settings file from disk, and saving it, are not modelled. The settings are a value passed to every operation.
- Size validation compares exact integers, bytes > ceiling × 1048576, instead of the floating-point megabyte comparison. The "File too large" message leaves out the two `:.2f` figures. The valid result reports the size in bytes, not in megabytes.
- Path resolution is lexical (`..` and `.` collapsed, relative paths taken from the working directory). Symbolic links are not followed. A path whose resolution fails is a given set of locations.
- Glob patterns are abstracted:
  - the scan's `*` and `**/*` patterns are the direct children and all descendants of the directory;
  - a file-name pattern is a given predicate on an entry's last name component, so fnmatch syntax is not modelled;
  - enumeration order is the order of the entries on the disk value;
  - a failure raised by the enumeration itself is not modelled, only failures of `stat` on the entries.
- Spreadsheet parsing is abstracted: a workbook is a value on the disk value.
  - The cell grid, the data frame and the column types are given.
  - Column-type changes caused by replacing NaN with None are not modelled.
  - Missing cells in a frame are `None`.
  - A row array's common type is decided from the column type names alone: a float type when every column is an integer or float type and one is a float type, otherwise a type that keeps each cell as it is.
- FileSystem.LoadBook: a file that exists but cannot be opened is an opaque failure message. The kind of each read failure comes from the disk value.
- Workbook.RowValuesCells: an integer cell turned into a float prints as the integer followed by ".0". Python prints floats of 10^16 and above in exponent form, and integers beyond 2^53 lose precision; neither is modelled.
- ExcelProcessor.IndexedRows: inherits the float text of large integers described for Workbook.RowValuesCells.
- ExcelProcessor.ReadWorksheetData: inherits the float text of large integers described for Workbook.RowValuesCells.
- DataFormatter.FormatDataframe: inherits the float text of large integers described for Workbook.RowValuesCells.
- DataFormatter.FormatExcelData: inherits the float text of large integers described for Workbook.RowValuesCells.
- ExcelProcessor.SearchCell: lower-casing folds only the ASCII letters A to Z. Python's `str.lower` also folds other scripts ("Ä" to "ä"), sometimes into longer text ("İ"); case-insensitive matching of such letters is not modelled.
- ExcelProcessor.SearchInWorksheet: the echoed term and the matching use the ASCII-only lower-casing described for ExcelProcessor.SearchCell.
- ExcelProcessor.SearchIgnoresTermCase: proved for ASCII case only, as described for ExcelProcessor.SearchCell.
- ExcelProcessor.ValidateFilePath: existence, type and size are looked up at the lexically collapsed location. The operating system walks the raw path, so `/work/missing/../a.xlsx` is not found there; the model finds `/work/a.xlsx`.
- FileScanner.ValidateDirectoryPath: existence and type are looked up at the lexically collapsed location, as described for ExcelProcessor.ValidateFilePath.
- FileScanner.GetFileMetadata: `stat` is looked up at the lexically collapsed location, as described for ExcelProcessor.ValidateFilePath.
- FileScanner.FindExcelFilesByName: the directory checks are looked up at the lexically collapsed location, as described for ExcelProcessor.ValidateFilePath.
- FileScanner.ConfinedSearchInside: the pattern is a test on an entry's last name component, so the corrected search confines its results only for patterns without `/` or `..` segments. A pattern such as `../other/*.xlsx` leaves the validated directory, and the correction in "## Findings" would then also have to check each found path against the work directory; neither that escape nor that check is modelled.
- FileScanner.Metadata: a directory's `file_size` is 0, while `stat` reports the directory entry's own size.
- DataFormatter.FormatValue: NaN detection, numpy scalar and array unwrapping, and the exact text of `isoformat` and `str` are not modelled. A date carries its ISO text and any other object carries its text.
- DataFormatter.FormatDataframe: the failure path (empty result with an `error`) is not modelled. With formatting abstracted as above, no exception can arise there.
- DataFormatter.FormatSearchResults: the `context_rows` parameter is not modelled, because the source never uses it. The failure path is not modelled either, because the model raises nothing there.
- `create_summary_stats` is not modelled: mean, median, standard deviation and percentages are floating-point statistics.
- `export_to_json` is not modelled: it is JSON serialisation and file output.
- The module-level convenience wrappers that construct an object and delegate to it are not modelled.
- In the dispatcher, the collaborators (`list_excel_files_dummy`, `get_excel_summary_dummy`, `read_excel_data_dummy`) are function parameters that return a value or raise. Their fixed sample payloads are not modelled.
- The dispatcher's `json.dumps` text is not modelled: a reply item is the JSON value itself, and JSON numbers are integers only.
- The transport, the tool listing (`list_tools`), the entry point and the asynchronous runtime are not modelled.
- Where the code and the design differ, the model follows the code:
  - Server replies carry no `error_code`.
  - The batch has no partial-success counts.
  - The scan reports no truncation flag.
  - `read_worksheet_data`, `get_worksheet_summary` and `search_in_worksheet` check only the extension; they never validate the path against the work directory.
  - `get_file_info` checks the extension after validation.

## Findings

| source | as written | input that shows it | evidently intended | confidence | as-written member | corrected member |
|---|---|---|---|---|---|---|
| src/file_scanner.py:218-245 | `find_excel_files_by_name` only checks that the directory exists and is a directory. It never checks the work directory, unlike `scan_directory`. | Work directory `/work`; directory `/other` holding the file `/other/a.xlsx`; pattern `*.xlsx`. | The directory is validated like the scan's, so every file a name pattern finds lies inside the work directory. | not executed | FileScanner.PatternSearchEscapes | FileScanner.ConfinedSearchInside |

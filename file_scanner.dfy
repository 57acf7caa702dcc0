/** Finding spreadsheets on disk: the extension test, the ordered validation
    of a directory path, per-file metadata with its degraded form, the
    directory scan with its visit counter and optional cap, and the search by
    file-name pattern. */
module FileScanner {
  import opened Common
  import opened FileSystem
  import opened ConfigManager

  /** The configured extensions, as the set the scanner keeps. */
  function ExtensionSet(cfg: Config): set<string> {
    set e | e in SupportedExtensions(cfg)
  }

  /** A file name whose lower-cased suffix is a configured extension (a
      member of the list; the scanner's set has the same members). */
  predicate IsExcelName(cfg: Config, name: string) {
    Lower(Suffix(name)) in SupportedExtensions(cfg)
  }

  predicate IsExcelFile(cfg: Config, raw: string) {
    IsExcelName(cfg, Name(raw))
  }

  /** The scanner's set test agrees with the processor's list test, and
      ignores case like it. */
  lemma ExcelFileIffListed(cfg: Config, raw: string)
    ensures IsExcelFile(cfg, raw) <==> Extension(raw) in ExtensionSet(cfg)
    ensures IsExcelFile(cfg, raw) <==> Extension(raw) in SupportedExtensions(cfg)
    ensures IsExcelFile(cfg, Lower(raw)) == IsExcelFile(cfg, raw)
  {
    ExtensionIgnoresCase(raw);
  }

  /** The last component of a location, its `name`. */
  function LastComponent(c: Canon): string {
    if c == [] then "" else c[|c| - 1]
  }

  // ---------------------------------------------------------------------------
  // Directory validation

  datatype DirCheck =
    | DirValid(directory: Canon, text: string)
    | DirInvalid(code: ErrorCode, error: string, workDirectory: Option<string>)

  /** The checks a directory path must pass, first failure wins: it exists,
      it is a directory, and it lies in the work directory. A failing `stat`
      is reported as a validation error. */
  function ValidateDirectoryPath(cfg: Config, fs: Fs, raw: string): (r: DirCheck)
    ensures r.DirValid? ==> IsPathWithinWorkDirectory(cfg, fs, raw)
    ensures r.DirValid? ==> ProbeAt(fs, r.directory) == Found(Dir) && r.directory == Canonical(fs, raw)
    ensures r.DirValid? ==> r.text == CanonText(r.directory)
  {
    var c := Canonical(fs, raw);
    match ProbeAt(fs, c)
    case Faulted(f) => DirInvalid(ValidationError, "Path validation error: " + f.message, None)
    case Missing => DirInvalid(DirectoryNotFound, "Directory does not exist: " + raw, None)
    case Found(File(_)) => DirInvalid(NotADirectory, "Path is not a directory: " + raw, None)
    case Found(Dir) =>
      if !IsPathWithinWorkDirectory(cfg, fs, raw) then
        var wd := WorkDirectory(cfg, fs);
        DirInvalid(AccessDenied, "Directory access denied: " + raw + ". Work directory: " + wd, Some(wd))
      else
        DirValid(c, CanonText(c))
  }

  /** Each code is reported exactly when its check is the first to fail; only
      a denial names the work directory. */
  lemma DirectoryValidationOrder(cfg: Config, fs: Fs, raw: string)
    ensures var r, p := ValidateDirectoryPath(cfg, fs, raw), ProbeAt(fs, Canonical(fs, raw));
      && (r.DirInvalid? && r.code == ValidationError <==> p.Faulted?)
      && (r.DirInvalid? && r.code == DirectoryNotFound <==> p.Missing?)
      && (r.DirInvalid? && r.code == NotADirectory <==> p.Found? && p.node.File?)
      && (r.DirInvalid? && r.code == AccessDenied <==> p == Found(Dir) && !IsPathWithinWorkDirectory(cfg, fs, raw))
      && (r.DirValid? <==> p == Found(Dir) && IsPathWithinWorkDirectory(cfg, fs, raw))
      && (r.DirInvalid? ==> (r.workDirectory.Some? <==> r.code == AccessDenied))
      && (r.DirInvalid? && r.code == AccessDenied ==> r.workDirectory == Some(WorkDirectory(cfg, fs)))
  {
  }

  /** A directory that passes lies at or below the work directory. */
  lemma ValidDirectoryConfined(cfg: Config, fs: Fs, raw: string)
    requires ValidateDirectoryPath(cfg, fs, raw).DirValid?
    ensures RelativeTo(ValidateDirectoryPath(cfg, fs, raw).directory, Canonical(fs, WorkDirectory(cfg, fs)))
  {
    InsideIffPrefix(cfg, fs, raw);
  }

  // ---------------------------------------------------------------------------
  // Metadata

  /** Timestamps are not part of this model; a failed `stat` leaves a zero
      size and an error text. */
  datatype FileMeta = FileMeta(filePath: string, fileName: string, fileSize: nat, extension: string,
                               error: Option<string>)

  /** The metadata of an entry, given what `stat` reports for it; `shown` is
      the entry's absolute path, `given` the path as it was handed over. */
  function Metadata(p: Probe, shown: string, given: string, name: string): (r: FileMeta)
    ensures r.filePath == shown && r.fileName == name && r.extension == Lower(Suffix(name))
    ensures r.error.Some? <==> p.Faulted? || p.Missing?
    ensures r.error.Some? ==> r.fileSize == 0
    ensures p.Found? && p.node.File? ==> r.fileSize == p.node.sizeBytes
  {
    match p
    case Faulted(f) => FileMeta(shown, name, 0, Lower(Suffix(name)), Some(f.message))
    case Missing => FileMeta(shown, name, 0, Lower(Suffix(name)),
                             Some("[Errno 2] No such file or directory: '" + given + "'"))
    case Found(File(size)) => FileMeta(shown, name, size, Lower(Suffix(name)), None)
    case Found(Dir) => FileMeta(shown, name, 0, Lower(Suffix(name)), None)
  }

  /** Metadata of a path string: when `stat` fails the name and extension
      are still reported. */
  function GetFileMetadata(fs: Fs, raw: string): (r: FileMeta)
    ensures r.fileName == Name(raw) && r.extension == Extension(raw)
    ensures r.filePath == AbsoluteText(fs, raw)
    ensures r.error.Some? <==> !ProbeAt(fs, Canonical(fs, raw)).Found?
    ensures r.error.Some? ==> r.fileSize == 0
  {
    Metadata(ProbeAt(fs, Canonical(fs, raw)), AbsoluteText(fs, raw), Text(raw), Name(raw))
  }

  /** Metadata of an entry met while scanning a resolved directory. */
  function EntryMetadata(fs: Fs, c: Canon): FileMeta {
    Metadata(ProbeAt(fs, c), CanonText(c), CanonText(c), LastComponent(c))
  }

  // ---------------------------------------------------------------------------
  // Directory scan

  /** What the scan learns about one entry: what `stat` reports for it, and
      whether its name carries a configured extension. */
  datatype Visit = Visit(entry: Canon, probe: Probe, excelName: bool)

  function Classify(cfg: Config, fs: Fs, c: Canon): (v: Visit)
    ensures v.entry == c && v.probe == ProbeAt(fs, c) && v.excelName == IsExcelName(cfg, LastComponent(c))
  {
    Visit(c, ProbeAt(fs, c), IsExcelName(cfg, LastComponent(c)))
  }

  function Classified(cfg: Config, fs: Fs, entries: seq<Canon>): (r: seq<Visit>)
    ensures |r| == |entries|
  {
    seq(|entries|, k requires 0 <= k < |entries| => Classify(cfg, fs, entries[k]))
  }

  /** An entry the scan collects: a regular file with a configured extension. */
  predicate Collects(v: Visit) {
    v.probe.Found? && v.probe.node.File? && v.excelName
  }

  /** A cap is in force when it is present and non-zero. */
  predicate CapSet(cap: Option<int>) {
    cap.Some? && cap.value != 0
  }

  /** How a walk over the entries ends: with the visit count and the
      collected entries, or on a `stat` that raises. */
  datatype WalkEnd = Done(scanned: nat, found: seq<Canon>) | Denied | Broken(message: string)

  /** A `stat` that raises ends the scan with what it raised. */
  function Halt(f: Fault): WalkEnd {
    match f
    case PermissionDenied(_) => Denied
    case OsFailure(m) => Broken(m)
  }

  /** `found`, with the visited entry appended when the scan collects it. */
  function Keep(v: Visit, found: seq<Canon>): seq<Canon> {
    if Collects(v) then found + [v.entry] else found
  }

  /** The scan loop over `visits`, having visited `scanned` entries and
      collected `found`: each entry is counted, then the cap is checked, then
      the entry is tested. */
  function Walk(visits: seq<Visit>, cap: Option<int>, scanned: nat, found: seq<Canon>): WalkEnd
    decreases |visits|
  {
    if visits == [] then Done(scanned, found)
    else if CapSet(cap) && |found| >= cap.value then Done(scanned + 1, found)
    else if visits[0].probe.Faulted? then Halt(visits[0].probe.fault)
    else Walk(visits[1..], cap, scanned + 1, Keep(visits[0], found))
  }

  /** One step of the scan loop over `visits` from index i. */
  lemma WalkStep(visits: seq<Visit>, i: nat, cap: Option<int>, scanned: nat, found: seq<Canon>)
    requires i < |visits|
    ensures Walk(visits[i..], cap, scanned, found) ==
      if CapSet(cap) && |found| >= cap.value then Done(scanned + 1, found)
      else if visits[i].probe.Faulted? then Halt(visits[i].probe.fault)
      else Walk(visits[i + 1..], cap, scanned + 1, Keep(visits[i], found))
  {
    assert visits[i..][0] == visits[i] && visits[i..][1..] == visits[i + 1..];
  }

  /** The entries an unlimited walk collects, in order. */
  function Collected(visits: seq<Visit>): (r: seq<Canon>)
    ensures |r| <= |visits|
    decreases |visits|
  {
    if visits == [] then []
    else Keep(visits[0], []) + Collected(visits[1..])
  }

  /** No entry's `stat` raises. */
  predicate NoFaults(visits: seq<Visit>) {
    forall v :: v in visits ==> !v.probe.Faulted?
  }

  /** `c` is the entry of a visit the scan collects. */
  predicate Gathered(visits: seq<Visit>, c: Canon) {
    exists v :: v in visits && Collects(v) && v.entry == c
  }

  lemma GatheredTail(visits: seq<Visit>, c: Canon)
    requires visits != [] && Gathered(visits[1..], c)
    ensures Gathered(visits, c)
  {
    var v :| v in visits[1..] && Collects(v) && v.entry == c;
    assert v in visits;
  }

  /** Only regular files with a configured extension are collected, after
      what was collected before; the visit count grows by at least the number
      collected and by at most the number of entries. */
  lemma {:induction false} WalkCollects(visits: seq<Visit>, cap: Option<int>, scanned: nat, found: seq<Canon>)
    ensures var w := Walk(visits, cap, scanned, found);
      w.Done? ==>
        && |found| <= |w.found|
        && w.found[..|found|] == found
        && (forall k :: |found| <= k < |w.found| ==> Gathered(visits, w.found[k]))
        && w.scanned - scanned >= |w.found| - |found|
        && w.scanned <= scanned + |visits|
    decreases |visits|
  {
    if visits != [] && !(CapSet(cap) && |found| >= cap.value) && !visits[0].probe.Faulted? {
      var next := Keep(visits[0], found);
      WalkCollects(visits[1..], cap, scanned + 1, next);
      var w := Walk(visits[1..], cap, scanned + 1, next);
      if w.Done? {
        assert w.found[..|next|] == next;
        assert w.found[..|found|] == next[..|found|];
        forall k | |found| <= k < |w.found| ensures Gathered(visits, w.found[k]) {
          if k >= |next| {
            assert |next| <= k < |w.found|;
            assert Gathered(visits[1..], w.found[k]);
            GatheredTail(visits, w.found[k]);
          } else {
            assert Collects(visits[0]);
            assert w.found[k] == next[k] == visits[0].entry;
            assert visits[0] in visits;
          }
        }
      }
    }
  }

  /** A positive cap bounds the number collected. */
  lemma {:induction false} WalkCapped(visits: seq<Visit>, cap: Option<int>, scanned: nat, found: seq<Canon>)
    requires cap.Some? && cap.value > 0 && |found| <= cap.value
    ensures var w := Walk(visits, cap, scanned, found);
      w.Done? ==> |w.found| <= cap.value
    decreases |visits|
  {
    if visits != [] && !(|found| >= cap.value) && !visits[0].probe.Faulted? {
      WalkCapped(visits[1..], cap, scanned + 1, Keep(visits[0], found));
    }
  }

  /** A negative cap stops at the first entry, which is still counted. */
  lemma WalkNegativeCap(visits: seq<Visit>, cap: Option<int>, scanned: nat, found: seq<Canon>)
    requires cap.Some? && cap.value < 0 && visits != []
    ensures Walk(visits, cap, scanned, found) == Done(scanned + 1, found)
  {
  }

  /** Collecting after `found` appends to `found`. */
  lemma KeepAppends(v: Visit, found: seq<Canon>, rest: seq<Canon>)
    ensures Keep(v, found) + rest == found + (Keep(v, []) + rest)
  {
  }

  /** Without a cap (missing or zero) and without failing `stat`s, the walk
      visits every entry and collects exactly the matching ones. */
  lemma {:induction false} WalkUnlimited(visits: seq<Visit>, cap: Option<int>, scanned: nat, found: seq<Canon>)
    requires !CapSet(cap) && NoFaults(visits)
    ensures Walk(visits, cap, scanned, found) == Done(scanned + |visits|, found + Collected(visits))
    decreases |visits|
  {
    if visits != [] {
      assert visits[0] in visits;
      assert NoFaults(visits[1..]) by {
        forall v | v in visits[1..] ensures v in visits { }
      }
      WalkUnlimited(visits[1..], cap, scanned + 1, Keep(visits[0], found));
      KeepAppends(visits[0], found, Collected(visits[1..]));
    }
  }

  /** A cap that was not reached truncates nothing: fewer entries collected
      than the cap means every matching entry was collected. */
  lemma {:induction false} WalkBelowCap(visits: seq<Visit>, cap: Option<int>, scanned: nat, found: seq<Canon>)
    requires cap.Some? && cap.value > 0
    ensures var w := Walk(visits, cap, scanned, found);
      w.Done? && |w.found| < cap.value ==> w == Done(scanned + |visits|, found + Collected(visits))
    decreases |visits|
  {
    var w := Walk(visits, cap, scanned, found);
    if visits != [] && w.Done? && |w.found| < cap.value {
      if |found| >= cap.value {
        assert false;
      }
      WalkBelowCap(visits[1..], cap, scanned + 1, Keep(visits[0], found));
      KeepAppends(visits[0], found, Collected(visits[1..]));
    }
  }

  /** An entry is collected exactly when it is visited and collectable. */
  lemma {:induction false} CollectedMembers(visits: seq<Visit>, c: Canon)
    ensures c in Collected(visits) <==> Gathered(visits, c)
    decreases |visits|
  {
    if visits != [] {
      CollectedMembers(visits[1..], c);
      assert visits == [visits[0]] + visits[1..];
    }
  }

  function Metas(fs: Fs, found: seq<Canon>): (r: seq<FileMeta>)
    ensures |r| == |found|
    ensures forall k :: 0 <= k < |found| ==> r[k] == EntryMetadata(fs, found[k])
  {
    seq(|found|, k requires 0 <= k < |found| => EntryMetadata(fs, found[k]))
  }

  lemma MetasAppend(fs: Fs, found: seq<Canon>, e: Canon)
    ensures Metas(fs, found + [e]) == Metas(fs, found) + [EntryMetadata(fs, e)]
  {
    var a, b := Metas(fs, found + [e]), Metas(fs, found) + [EntryMetadata(fs, e)];
    forall k | 0 <= k < |a| ensures a[k] == b[k] {
      assert (found + [e])[k] == if k < |found| then found[k] else e;
    }
  }

  datatype ScanResult =
    | ScanOk(directory: string, totalFiles: nat, scannedFiles: nat, files: seq<FileMeta>,
             supportedExtensions: set<string>)
    | ScanInvalid(error: string, code: ErrorCode, directory: string, recursive: bool,
                  totalFiles: nat, files: seq<FileMeta>, workDirectory: string)
    | ScanFailed(error: string, directory: string, totalFiles: nat, files: seq<FileMeta>)

  /** What the scan reports once the walk has ended. */
  function ScanReport(cfg: Config, fs: Fs, raw: string, w: WalkEnd): ScanResult {
    match w
    case Done(s, found) => ScanOk(raw, |found|, s, Metas(fs, found), ExtensionSet(cfg))
    case Denied => ScanFailed("No permission to access directory: " + raw, raw, 0, [])
    case Broken(m) => ScanFailed("Error occurred during directory search: " + m, raw, 0, [])
  }

  /** The entries of a validated directory, flat or recursive, in the order
      enumeration meets them. */
  function Entries(fs: Fs, dir: Canon, recursive: bool): seq<Canon> {
    Glob(fs.order, dir, recursive)
  }

  /** The result of scanning `raw`: validation first, then the walk. */
  function Scan(cfg: Config, fs: Fs, raw: string, recursive: bool, maxFiles: Option<int>): ScanResult {
    var v := ValidateDirectoryPath(cfg, fs, raw);
    if v.DirInvalid? then
      ScanInvalid(v.error, v.code, raw, recursive, 0, [],
                  if v.workDirectory.Some? then v.workDirectory.value else "")
    else
      ScanReport(cfg, fs, raw, Walk(Classified(cfg, fs, Entries(fs, v.directory, recursive)), maxFiles, 0, []))
  }

  /** One step of the scan loop: the entry is counted, the cap checked, the
      entry tested. */
  method VisitEntry(cfg: Config, fs: Fs, entries: seq<Canon>, i: nat, cap: Option<int>, scanned: nat,
                    files: seq<FileMeta>, ghost found: seq<Canon>)
    returns (stop: bool, halted: Option<Fault>, files': seq<FileMeta>, ghost found': seq<Canon>)
    requires i < |entries| && files == Metas(fs, found)
    ensures files' == Metas(fs, found')
    ensures var visits := Classified(cfg, fs, entries);
      if stop then Walk(visits[i..], cap, scanned, found) == Done(scanned + 1, found') && halted.None?
      else if halted.Some? then Walk(visits[i..], cap, scanned, found) == Halt(halted.value)
      else Walk(visits[i..], cap, scanned, found) == Walk(visits[i + 1..], cap, scanned + 1, found')
  {
    found' := found;
    files' := files;
    halted := None;
    WalkStep(Classified(cfg, fs, entries), i, cap, scanned, found);
    stop := cap.Some? && cap.value != 0 && |files| >= cap.value;
    if stop {
      return;
    }
    var e := entries[i];
    ghost var v := Classified(cfg, fs, entries)[i];
    assert v == Classify(cfg, fs, e);
    var p := ProbeAt(fs, e);
    if p.Faulted? {
      halted := Some(p.fault);
    } else if p.Found? && p.node.File? && IsExcelName(cfg, LastComponent(e)) {
      assert Keep(v, found) == found + [e];
      files' := files + [EntryMetadata(fs, e)];
      found' := found + [e];
      MetasAppend(fs, found, e);
    } else {
      assert Keep(v, found) == found;
    }
  }

  /** Validates the directory, then walks its entries: every visited entry is
      counted; the walk stops when a cap in force is reached; regular files
      with a configured extension are collected with their metadata. */
  method ScanDirectory(cfg: Config, fs: Fs, raw: string, recursive: bool, maxFiles: Option<int>)
    returns (r: ScanResult)
    ensures r == Scan(cfg, fs, raw, recursive, maxFiles)
  {
    var v := ValidateDirectoryPath(cfg, fs, raw);
    if v.DirInvalid? {
      return ScanInvalid(v.error, v.code, raw, recursive, 0, [],
                         if v.workDirectory.Some? then v.workDirectory.value else "");
    }
    r := WalkEntries(cfg, fs, raw, Entries(fs, v.directory, recursive), maxFiles);
  }

  /** The scan loop over the entries of a validated directory, and its
      report. */
  method WalkEntries(cfg: Config, fs: Fs, raw: string, entries: seq<Canon>, maxFiles: Option<int>)
    returns (r: ScanResult)
    ensures r == ScanReport(cfg, fs, raw, Walk(Classified(cfg, fs, entries), maxFiles, 0, []))
  {
    ghost var visits := Classified(cfg, fs, entries);
    ghost var whole := Walk(visits, maxFiles, 0, []);
    var files: seq<FileMeta> := [];
    ghost var found: seq<Canon> := [];
    var scanned: nat := 0;
    var i := 0;
    while i < |entries|
      invariant 0 <= i <= |entries| && scanned == i
      invariant whole == Walk(visits[i..], maxFiles, scanned, found)
      invariant files == Metas(fs, found)
    {
      var stop, halted;
      stop, halted, files, found := VisitEntry(cfg, fs, entries, i, maxFiles, scanned, files, found);
      scanned := scanned + 1;
      if stop {
        assert whole == Done(scanned, found);
        return ScanOk(raw, |files|, scanned, files, ExtensionSet(cfg));
      }
      if halted.Some? {
        assert whole == Halt(halted.value);
        match halted.value
        case PermissionDenied(_) =>
          return ScanFailed("No permission to access directory: " + raw, raw, 0, []);
        case OsFailure(m) =>
          return ScanFailed("Error occurred during directory search: " + m, raw, 0, []);
      }
      i := i + 1;
    }
    assert visits[i..] == [];
    r := ScanOk(raw, |files|, scanned, files, ExtensionSet(cfg));
  }

  /** A successful scan reports as many files as it collected, never more
      than it visited, and each is a regular file with a configured
      extension lying below the scanned directory. */
  lemma ScanFindsExcelFiles(cfg: Config, fs: Fs, raw: string, recursive: bool, maxFiles: Option<int>)
    ensures var r := Scan(cfg, fs, raw, recursive, maxFiles);
      r.ScanOk? ==>
        && ValidateDirectoryPath(cfg, fs, raw).DirValid?
        && r.totalFiles == |r.files| <= r.scannedFiles
        && forall k :: 0 <= k < |r.files| ==>
             && r.files[k].error.None?
             && r.files[k].extension in ExtensionSet(cfg)
  {
    var r := Scan(cfg, fs, raw, recursive, maxFiles);
    var d := ValidateDirectoryPath(cfg, fs, raw);
    if d.DirValid? {
      var entries := Entries(fs, d.directory, recursive);
      var w := Walk(Classified(cfg, fs, entries), maxFiles, 0, []);
      assert r == ScanReport(cfg, fs, raw, w);
      WalkFindsExcelFiles(cfg, fs, entries, maxFiles);
    }
  }

  /** The files a walk collects are regular files with a configured
      extension, no more than it visited. */
  lemma WalkFindsExcelFiles(cfg: Config, fs: Fs, entries: seq<Canon>, cap: Option<int>)
    ensures var w := Walk(Classified(cfg, fs, entries), cap, 0, []);
      w.Done? ==>
        && |w.found| <= w.scanned
        && forall k :: 0 <= k < |w.found| ==>
             && Metas(fs, w.found)[k].error.None?
             && Metas(fs, w.found)[k].extension in ExtensionSet(cfg)
  {
    var visits := Classified(cfg, fs, entries);
    var w := Walk(visits, cap, 0, []);
    if w.Done? {
      var none: seq<Canon> := [];
      WalkCollects(visits, cap, 0, none);
      forall k | 0 <= k < |w.found|
        ensures Metas(fs, w.found)[k].error.None? && Metas(fs, w.found)[k].extension in ExtensionSet(cfg)
      {
        assert |none| <= k < |w.found|;
        GatheredMetadata(cfg, fs, entries, w.found[k]);
      }
    }
  }

  /** An entry a walk over `entries` collects has metadata without error and
      with a configured extension. */
  lemma GatheredMetadata(cfg: Config, fs: Fs, entries: seq<Canon>, c: Canon)
    requires Gathered(Classified(cfg, fs, entries), c)
    ensures EntryMetadata(fs, c).error.None?
    ensures EntryMetadata(fs, c).extension in ExtensionSet(cfg)
  {
    GatheredIff(cfg, fs, entries, c);
    CollectedMetadata(cfg, fs, c);
  }

  /** A collected entry's metadata carries no error and a configured
      extension. */
  lemma CollectedMetadata(cfg: Config, fs: Fs, c: Canon)
    requires Collects(Classify(cfg, fs, c))
    ensures EntryMetadata(fs, c).error.None?
    ensures EntryMetadata(fs, c).extension in ExtensionSet(cfg)
  {
  }

  /** Every entry of a validated directory lies in the work directory. */
  lemma EntriesConfined(cfg: Config, fs: Fs, raw: string, recursive: bool)
    requires ValidateDirectoryPath(cfg, fs, raw).DirValid?
    ensures forall c :: c in Entries(fs, ValidateDirectoryPath(cfg, fs, raw).directory, recursive) ==>
              RelativeTo(c, Canonical(fs, WorkDirectory(cfg, fs)))
  {
    var dir := ValidateDirectoryPath(cfg, fs, raw).directory;
    var w := Canonical(fs, WorkDirectory(cfg, fs));
    ValidDirectoryConfined(cfg, fs, raw);
    forall c | c in Entries(fs, dir, recursive) ensures RelativeTo(c, w) {
      var k :| 0 <= k < |Entries(fs, dir, recursive)| && Entries(fs, dir, recursive)[k] == c;
      assert Below(dir, c, recursive);
      assert c[..|w|] == c[..|dir|][..|w|];
    }
  }

  /** Collecting keeps within any location that holds every visited entry. */
  lemma {:induction false} WalkWithin(visits: seq<Visit>, cap: Option<int>, scanned: nat, found: seq<Canon>, base: Canon)
    requires forall v :: v in visits ==> RelativeTo(v.entry, base)
    requires forall c :: c in found ==> RelativeTo(c, base)
    ensures var w := Walk(visits, cap, scanned, found);
      w.Done? ==> forall c :: c in w.found ==> RelativeTo(c, base)
    decreases |visits|
  {
    if visits != [] && !(CapSet(cap) && |found| >= cap.value) && !visits[0].probe.Faulted? {
      assert visits[0] in visits;
      forall v | v in visits[1..] ensures RelativeTo(v.entry, base) {
        assert v in visits;
      }
      WalkWithin(visits[1..], cap, scanned + 1, Keep(visits[0], found), base);
    }
  }

  /** The visits of a list of entries visit exactly those entries. */
  lemma ClassifiedEntries(cfg: Config, fs: Fs, entries: seq<Canon>)
    ensures forall v :: v in Classified(cfg, fs, entries) ==> v.entry in entries
  {
    forall v | v in Classified(cfg, fs, entries) ensures v.entry in entries {
      var j :| 0 <= j < |entries| && Classified(cfg, fs, entries)[j] == v;
    }
  }

  /** Every file a scan reports lies in the work directory. */
  lemma ScanConfined(cfg: Config, fs: Fs, raw: string, recursive: bool, maxFiles: Option<int>)
    requires ValidateDirectoryPath(cfg, fs, raw).DirValid?
    ensures var entries := Entries(fs, ValidateDirectoryPath(cfg, fs, raw).directory, recursive);
      var w := Walk(Classified(cfg, fs, entries), maxFiles, 0, []);
      w.Done? ==> forall c :: c in w.found ==> RelativeTo(c, Canonical(fs, WorkDirectory(cfg, fs)))
  {
    var entries := Entries(fs, ValidateDirectoryPath(cfg, fs, raw).directory, recursive);
    EntriesConfined(cfg, fs, raw, recursive);
    ClassifiedEntries(cfg, fs, entries);
    WalkWithin(Classified(cfg, fs, entries), maxFiles, 0, [], Canonical(fs, WorkDirectory(cfg, fs)));
  }

  /** An entry an unlimited flat scan collects is also collected by the
      recursive scan of the same directory, and lies directly in it. */
  lemma FlatScanWithinRecursive(cfg: Config, fs: Fs, dir: Canon, c: Canon)
    requires c in Collected(Classified(cfg, fs, Entries(fs, dir, false)))
    ensures c in Collected(Classified(cfg, fs, Entries(fs, dir, true)))
    ensures |c| == |dir| + 1
  {
    var flat, deep := Entries(fs, dir, false), Entries(fs, dir, true);
    CollectedMembers(Classified(cfg, fs, flat), c);
    GatheredIff(cfg, fs, flat, c);
    FlatWithinRecursive(fs.order, dir);
    GatheredIff(cfg, fs, deep, c);
    CollectedMembers(Classified(cfg, fs, deep), c);
  }

  /** An entry is collected from a listing exactly when it is listed and is
      a regular file with a configured extension. */
  lemma GatheredIff(cfg: Config, fs: Fs, entries: seq<Canon>, c: Canon)
    ensures Gathered(Classified(cfg, fs, entries), c) <==> c in entries && Collects(Classify(cfg, fs, c))
  {
    if Gathered(Classified(cfg, fs, entries), c) {
      GatheredListed(cfg, fs, entries, c);
    }
    if c in entries && Collects(Classify(cfg, fs, c)) {
      ListedGathered(cfg, fs, entries, c);
    }
  }

  lemma GatheredListed(cfg: Config, fs: Fs, entries: seq<Canon>, c: Canon)
    requires Gathered(Classified(cfg, fs, entries), c)
    ensures c in entries && Collects(Classify(cfg, fs, c))
  {
    var visits := Classified(cfg, fs, entries);
    var v :| v in visits && Collects(v) && v.entry == c;
    var j :| 0 <= j < |visits| && visits[j] == v;
    assert visits[j] == Classify(cfg, fs, entries[j]);
  }

  lemma ListedGathered(cfg: Config, fs: Fs, entries: seq<Canon>, c: Canon)
    requires c in entries && Collects(Classify(cfg, fs, c))
    ensures Gathered(Classified(cfg, fs, entries), c)
  {
    var visits := Classified(cfg, fs, entries);
    var j :| 0 <= j < |entries| && entries[j] == c;
    assert visits[j] == Classify(cfg, fs, c);
    assert visits[j] in visits;
  }

  // ---------------------------------------------------------------------------
  // Search by file-name pattern

  datatype FindResult =
    | FindOk(directory: string, pattern: string, totalFiles: nat, files: seq<FileMeta>)
    | FindFailed(error: string, directory: string, pattern: string, totalFiles: nat, files: seq<FileMeta>)

  /** The path an entry found below `dir` prints as, when the directory was
      given as `raw`: the entry's components below the directory appended to
      `raw` made absolute (".." is kept, as `absolute()` keeps it). */
  function FoundText(fs: Fs, raw: string, dir: Canon, c: Canon): string {
    "/" + JoinSlash(AbsoluteParts(fs, raw) + (if |dir| <= |c| then c[|dir|..] else []))
  }

  /** The metadata the pattern search reports for an entry it keeps. */
  function FoundMeta(fs: Fs, raw: string, dir: Canon, c: Canon): FileMeta {
    var t := FoundText(fs, raw, dir, c);
    Metadata(ProbeAt(fs, c), t, t, LastComponent(c))
  }

  function FoundMetas(fs: Fs, raw: string, dir: Canon, found: seq<Canon>): (r: seq<FileMeta>)
    ensures |r| == |found|
    ensures forall k :: 0 <= k < |found| ==> r[k] == FoundMeta(fs, raw, dir, found[k])
  {
    seq(|found|, k requires 0 <= k < |found| => FoundMeta(fs, raw, dir, found[k]))
  }

  lemma FoundMetasAppend(fs: Fs, raw: string, dir: Canon, found: seq<Canon>, e: Canon)
    ensures FoundMetas(fs, raw, dir, found + [e]) == FoundMetas(fs, raw, dir, found) + [FoundMeta(fs, raw, dir, e)]
  {
    var a, b := FoundMetas(fs, raw, dir, found + [e]), FoundMetas(fs, raw, dir, found) + [FoundMeta(fs, raw, dir, e)];
    forall k | 0 <= k < |a| ensures a[k] == b[k] {
      assert (found + [e])[k] == if k < |found| then found[k] else e;
    }
  }

  /** The pattern search over `visits`, having kept `found`: the first
      `stat` that raises ends the search with its text; unlike the scan
      there is no cap. */
  function Sift(visits: seq<Visit>, found: seq<Canon>): Result<seq<Canon>, string>
    decreases |visits|
  {
    if visits == [] then Ok(found)
    else if visits[0].probe.Faulted? then Err(visits[0].probe.fault.message)
    else Sift(visits[1..], Keep(visits[0], found))
  }

  /** The entries whose names match the pattern, in enumeration order. */
  function Matching(entries: seq<Canon>, nameMatches: string -> bool): (r: seq<Canon>)
    ensures forall c :: c in r <==> c in entries && nameMatches(LastComponent(c))
    decreases |entries|
  {
    if entries == [] then []
    else
      assert entries == [entries[0]] + entries[1..];
      (if nameMatches(LastComponent(entries[0])) then [entries[0]] else []) + Matching(entries[1..], nameMatches)
  }

  /** The search reported once the directory is known to be one: glob yields
      the entries whose names match, in enumeration order. */
  function Listing(cfg: Config, fs: Fs, raw: string, pattern: string, dir: Canon, recursive: bool,
                   nameMatches: string -> bool): FindResult
  {
    var entries := Matching(Entries(fs, dir, recursive), nameMatches);
    match Sift(Classified(cfg, fs, entries), [])
    case Ok(found) => FindOk(raw, pattern, |found|, FoundMetas(fs, raw, dir, found))
    case Err(m) => FindFailed("Error occurred during pattern search: " + m, raw, pattern, 0, [])
  }

  /** The search by file-name pattern as the scanner performs it: the
      directory must exist and be one, but it is not checked against the work
      directory. The glob pattern is abstracted as the test `nameMatches`
      on an entry's name. */
  function PatternSearch(cfg: Config, fs: Fs, raw: string, pattern: string, recursive: bool,
                         nameMatches: string -> bool): FindResult
  {
    var dir := Canonical(fs, raw);
    match ProbeAt(fs, dir)
    case Faulted(f) => FindFailed("Error occurred during pattern search: " + f.message, raw, pattern, 0, [])
    case Missing => FindFailed("Invalid directory: " + raw, raw, pattern, 0, [])
    case Found(File(_)) => FindFailed("Invalid directory: " + raw, raw, pattern, 0, [])
    case Found(Dir) => Listing(cfg, fs, raw, pattern, dir, recursive, nameMatches)
  }

  /** The search by file-name pattern with the directory validated first, as
      the scan validates it: a directory outside the work directory is
      refused with the validation's message. */
  function ConfinedPatternSearch(cfg: Config, fs: Fs, raw: string, pattern: string, recursive: bool,
                                 nameMatches: string -> bool): FindResult
  {
    var v := ValidateDirectoryPath(cfg, fs, raw);
    if v.DirInvalid? then FindFailed(v.error, raw, pattern, 0, [])
    else Listing(cfg, fs, raw, pattern, v.directory, recursive, nameMatches)
  }

  /** When no `stat` raises, the search keeps exactly the matching regular
      files with a configured extension, in order, after `found`; when one
      raises, it fails whatever was kept. */
  lemma {:induction false} SiftCollects(visits: seq<Visit>, found: seq<Canon>)
    ensures NoFaults(visits) <==> Sift(visits, found).Ok?
    ensures Sift(visits, found).Ok? ==> Sift(visits, found).value == found + Collected(visits)
    decreases |visits|
  {
    if visits != [] {
      assert visits[0] in visits;
      SiftCollects(visits[1..], Keep(visits[0], found));
      KeepAppends(visits[0], found, Collected(visits[1..]));
      assert visits == [visits[0]] + visits[1..];
      assert forall v :: v in visits <==> v == visits[0] || v in visits[1..];
    }
  }

  /** Every entry the confined search keeps lies in the work directory; the
      search runs only on a directory that passes validation. */
  lemma ConfinedSearchInside(cfg: Config, fs: Fs, raw: string, pattern: string, recursive: bool,
                             nameMatches: string -> bool)
    requires ValidateDirectoryPath(cfg, fs, raw).DirValid?
    ensures var entries := Matching(Entries(fs, ValidateDirectoryPath(cfg, fs, raw).directory, recursive), nameMatches);
      var s := Sift(Classified(cfg, fs, entries), []);
      s.Ok? ==> forall c :: c in s.value ==> RelativeTo(c, Canonical(fs, WorkDirectory(cfg, fs)))
  {
    var all := Entries(fs, ValidateDirectoryPath(cfg, fs, raw).directory, recursive);
    var entries := Matching(all, nameMatches);
    var visits := Classified(cfg, fs, entries);
    EntriesConfined(cfg, fs, raw, recursive);
    ClassifiedEntries(cfg, fs, entries);
    SiftCollects(visits, []);
    forall c | c in Collected(visits) ensures RelativeTo(c, Canonical(fs, WorkDirectory(cfg, fs))) {
      CollectedMembers(visits, c);
    }
  }

  /** A confined search that succeeds was given a directory inside the work
      directory. */
  lemma ConfinedSearchValidates(cfg: Config, fs: Fs, raw: string, pattern: string, recursive: bool,
                                nameMatches: string -> bool)
    ensures ConfinedPatternSearch(cfg, fs, raw, pattern, recursive, nameMatches).FindOk? ==>
              ValidateDirectoryPath(cfg, fs, raw).DirValid? && IsPathWithinWorkDirectory(cfg, fs, raw)
  {
  }

  /** One step of the search loop: the entry is tested and collected. */
  method TestEntry(cfg: Config, fs: Fs, raw: string, dir: Canon, entries: seq<Canon>, i: nat,
                   files: seq<FileMeta>, ghost found: seq<Canon>)
    returns (halted: Option<string>, files': seq<FileMeta>, ghost found': seq<Canon>)
    requires i < |entries| && files == FoundMetas(fs, raw, dir, found)
    ensures files' == FoundMetas(fs, raw, dir, found')
    ensures var visits := Classified(cfg, fs, entries);
      if halted.Some? then Sift(visits[i..], found) == Err(halted.value)
      else Sift(visits[i..], found) == Sift(visits[i + 1..], found')
  {
    found' := found;
    files' := files;
    halted := None;
    var e := entries[i];
    assert Classified(cfg, fs, entries)[i] == Classify(cfg, fs, e);
    SiftStep(Classified(cfg, fs, entries), i, found);
    var p := ProbeAt(fs, e);
    if p.Faulted? {
      halted := Some(p.fault.message);
    } else if p.Found? && p.node.File? && IsExcelName(cfg, LastComponent(e)) {
      files' := files + [FoundMeta(fs, raw, dir, e)];
      found' := found + [e];
      FoundMetasAppend(fs, raw, dir, found, e);
    }
  }

  /** The search loop over the matching entries of `dir`: each entry that
      is a regular file with a configured extension is collected with its
      metadata; a `stat` that raises ends the loop. */
  method SiftEntries(cfg: Config, fs: Fs, raw: string, dir: Canon, entries: seq<Canon>)
    returns (r: Result<seq<FileMeta>, string>)
    ensures var s := Sift(Classified(cfg, fs, entries), []);
      && (r.Ok? <==> s.Ok?)
      && (r.Ok? ==> r.value == FoundMetas(fs, raw, dir, s.value))
      && (r.Err? ==> r.error == s.error)
  {
    ghost var visits := Classified(cfg, fs, entries);
    ghost var whole := Sift(visits, []);
    ghost var found: seq<Canon> := [];
    var files: seq<FileMeta> := [];
    var halted: Option<string> := None;
    var i := 0;
    while i < |entries| && halted.None?
      invariant 0 <= i <= |entries|
      invariant halted.None? ==> whole == Sift(visits[i..], found)
      invariant halted.Some? ==> whole == Err(halted.value)
      invariant files == FoundMetas(fs, raw, dir, found)
    {
      halted, files, found := TestEntry(cfg, fs, raw, dir, entries, i, files, found);
      i := i + 1;
    }
    if halted.Some? {
      return Err(halted.value);
    }
    assert visits[i..] == [];
    r := Ok(files);
  }

  /** One step of the pattern search over `visits` from index i. */
  lemma SiftStep(visits: seq<Visit>, i: nat, found: seq<Canon>)
    requires i < |visits|
    ensures Sift(visits[i..], found) ==
      if visits[i].probe.Faulted? then Err(visits[i].probe.fault.message)
      else Sift(visits[i + 1..], Keep(visits[i], found))
  {
    assert visits[i..][0] == visits[i] && visits[i..][1..] == visits[i + 1..];
  }

  /** Reports a directory the search could list. */
  method ReportListing(cfg: Config, fs: Fs, raw: string, pattern: string, dir: Canon, recursive: bool,
                       nameMatches: string -> bool)
    returns (r: FindResult)
    ensures r == Listing(cfg, fs, raw, pattern, dir, recursive, nameMatches)
  {
    var entries := Matching(Entries(fs, dir, recursive), nameMatches);
    var files := SiftEntries(cfg, fs, raw, dir, entries);
    match files
    case Ok(fm) => r := FindOk(raw, pattern, |fm|, fm);
    case Err(m) => r := FindFailed("Error occurred during pattern search: " + m, raw, pattern, 0, []);
  }

  /** The search by file-name pattern as written: the directory is checked
      for existence and kind, not for confinement. */
  method FindExcelFilesByName(cfg: Config, fs: Fs, raw: string, pattern: string, recursive: bool,
                              nameMatches: string -> bool)
    returns (r: FindResult)
    ensures r == PatternSearch(cfg, fs, raw, pattern, recursive, nameMatches)
  {
    var dir := Canonical(fs, raw);
    var p := ProbeAt(fs, dir);
    if p.Faulted? {
      return FindFailed("Error occurred during pattern search: " + p.fault.message, raw, pattern, 0, []);
    }
    if p.Missing? || p.node.File? {
      return FindFailed("Invalid directory: " + raw, raw, pattern, 0, []);
    }
    r := ReportListing(cfg, fs, raw, pattern, dir, recursive, nameMatches);
  }

  /** The search by file-name pattern with the directory validated as the
      scan validates it, so that only the work directory is searched. */
  method FindExcelFilesByNameConfined(cfg: Config, fs: Fs, raw: string, pattern: string, recursive: bool,
                                      nameMatches: string -> bool)
    returns (r: FindResult)
    ensures r == ConfinedPatternSearch(cfg, fs, raw, pattern, recursive, nameMatches)
  {
    var v := ValidateDirectoryPath(cfg, fs, raw);
    if v.DirInvalid? {
      return FindFailed(v.error, raw, pattern, 0, []);
    }
    r := ReportListing(cfg, fs, raw, pattern, v.directory, recursive, nameMatches);
  }

  /** A work directory `/work` beside a directory `/other` holding the
      spreadsheet `/other/a.xlsx`. */
  const EscapeConfig := Config(Some("/work"), None)
  const EscapeFs := Fs([], "/home", map[["work"] := Dir, ["other"] := Dir, ["other", "a.xlsx"] := File(10)],
                       [["other", "a.xlsx"]], map[], {}, map[])

  /** Where the two directories of the example resolve to. */
  lemma EscapePaths()
    ensures Canonical(EscapeFs, WorkDirectory(EscapeConfig, EscapeFs)) == ["work"]
    ensures Canonical(EscapeFs, "/other") == ["other"]
    ensures ProbeAt(EscapeFs, ["other"]) == Found(Dir)
  {
    EscapeWork();
    assert "/other" == "/" + "other";
    RootChild(EscapeFs, "other");
  }

  lemma EscapeWork()
    ensures Canonical(EscapeFs, WorkDirectory(EscapeConfig, EscapeFs)) == ["work"]
  {
    assert WorkDirectory(EscapeConfig, EscapeFs) == "/" + "work";
    RootChild(EscapeFs, "work");
  }

  /** Nothing below `/other` lies in `/work`. */
  lemma EscapeOutside(c: Canon)
    requires |c| >= 1 && c[0] == "other"
    ensures !RelativeTo(c, Canonical(EscapeFs, WorkDirectory(EscapeConfig, EscapeFs)))
  {
    EscapePaths();
    assert "other"[0] != "work"[0];
    assert c[..1][0] == "other";
  }

  lemma EscapeDenied()
    ensures ValidateDirectoryPath(EscapeConfig, EscapeFs, "/other").DirInvalid?
    ensures ValidateDirectoryPath(EscapeConfig, EscapeFs, "/other").code == AccessDenied
  {
    EscapePaths();
    EscapeOutside(["other"]);
    assert !IsPathWithinWorkDirectory(EscapeConfig, EscapeFs, "/other");
    DirectoryValidationOrder(EscapeConfig, EscapeFs, "/other");
  }

  lemma EscapeCollected()
    ensures Collects(Classify(EscapeConfig, EscapeFs, ["other", "a.xlsx"]))
  {
    var file: Canon := ["other", "a.xlsx"];
    assert LastComponent(file) == "a.xlsx";
    assert LastDot("a.xlsx") == 1 by {
      assert "a.xlsx"[..5] == "a.xls" && "a.xls"[..4] == "a.xl" && "a.xl"[..3] == "a.x" && "a.x"[..2] == "a.";
    }
    assert Suffix("a.xlsx") == ".xlsx";
    assert Lower(".xlsx") == ".xlsx";
    assert ".xlsx" in ExtensionSet(EscapeConfig);
  }

  lemma EscapeListed()
    ensures PatternSearch(EscapeConfig, EscapeFs, "/other", "*.xlsx", true, EndsXlsx).FindOk?
    ensures PatternSearch(EscapeConfig, EscapeFs, "/other", "*.xlsx", true, EndsXlsx).totalFiles == 1
  {
    EscapePaths();
    EscapeMatching();
    EscapeSifted();
    assert PatternSearch(EscapeConfig, EscapeFs, "/other", "*.xlsx", true, EndsXlsx)
        == Listing(EscapeConfig, EscapeFs, "/other", "*.xlsx", ["other"], true, EndsXlsx);
  }

  /** The glob `*.xlsx` as a test on a name. */
  predicate EndsXlsx(name: string) {
    |name| >= 5 && name[|name| - 5..] == ".xlsx"
  }

  /** The only entry below `/other` is `/other/a.xlsx`, and it matches
      `*.xlsx`. */
  lemma EscapeMatching()
    ensures Matching(Entries(EscapeFs, ["other"], true), EndsXlsx) == [["other", "a.xlsx"]]
  {
    var file: Canon := ["other", "a.xlsx"];
    assert Below(["other"], file, true);
    assert Entries(EscapeFs, ["other"], true) == [file];
    assert LastComponent(file) == "a.xlsx";
    assert "a.xlsx"[1..] == ".xlsx";
  }

  /** The search keeps `/other/a.xlsx`. */
  lemma EscapeSifted()
    ensures Sift(Classified(EscapeConfig, EscapeFs, [["other", "a.xlsx"]]), []) == Ok([["other", "a.xlsx"]])
  {
    var cfg, fs := EscapeConfig, EscapeFs;
    var file: Canon := ["other", "a.xlsx"];
    EscapeCollected();
    var visits := Classified(cfg, fs, [file]);
    assert visits == [Classify(cfg, fs, file)];
    assert Keep(visits[0], []) == [file];
    assert visits[1..] == [];
  }

  /** The search as written lists a directory the scan refuses: with the
      work directory `/work`, the directory `/other` is denied by validation,
      yet the search reports the spreadsheet `/other/a.xlsx` in it, which
      lies outside the work directory. */
  lemma PatternSearchEscapes()
    ensures ValidateDirectoryPath(EscapeConfig, EscapeFs, "/other").DirInvalid?
    ensures ValidateDirectoryPath(EscapeConfig, EscapeFs, "/other").code == AccessDenied
    ensures var r := PatternSearch(EscapeConfig, EscapeFs, "/other", "*.xlsx", true, EndsXlsx);
      r.FindOk? && r.totalFiles == 1
    ensures !RelativeTo(["other", "a.xlsx"], Canonical(EscapeFs, WorkDirectory(EscapeConfig, EscapeFs)))
  {
    EscapeDenied();
    EscapeListed();
    EscapeOutside(["other", "a.xlsx"]);
  }
}

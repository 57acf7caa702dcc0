/** The filesystem as a value, and the pure path arithmetic the server relies
    on: parsing a path string into components, making it absolute against the
    working directory, resolving "." and ".." lexically, a path's name and
    suffix, and directory enumeration in on-disk order.

    Symbolic links are not followed: a location where resolution raises (a
    link loop, say) is listed in `resolveFault`; a location whose `stat`
    raises is listed in `statFault` with what it raises. */
module FileSystem {
  import opened Common
  import opened Workbook

  /** A canonical absolute path, as its components; the root is []. */
  type Canon = seq<string>

  datatype Node = File(sizeBytes: nat) | Dir

  /** What a failing `stat` raises: a PermissionError, or some other OSError. */
  datatype Fault = PermissionDenied(message: string) | OsFailure(message: string)

  datatype Fs = Fs(
    cwd: Canon,                     // the process's working directory
    home: string,                   // the user's home directory, as text
    nodes: map<Canon, Node>,        // every existing entry
    order: seq<Canon>,              // the order in which enumeration meets entries
    statFault: map<Canon, Fault>,   // entries whose stat raises
    resolveFault: set<Canon>,       // locations whose resolution raises
    books: map<Canon, Book>)        // files that parse as workbooks, with their sheets

  // ---------------------------------------------------------------------------
  // Parsing and resolving path strings

  predicate IsAbsolute(raw: string) {
    |raw| > 0 && raw[0] == '/'
  }

  /** Drops the empty and "." components, as Path does when it parses a string. */
  function Clean(segs: seq<string>): (r: seq<string>)
    ensures forall k :: 0 <= k < |r| ==> r[k] != "" && r[k] != "."
    ensures |r| <= |segs|
    decreases |segs|
  {
    if segs == [] then []
    else if segs[0] == "" || segs[0] == "." then Clean(segs[1..])
    else [segs[0]] + Clean(segs[1..])
  }

  lemma {:induction false} CleanAppend(p: seq<string>, q: seq<string>)
    ensures Clean(p + q) == Clean(p) + Clean(q)
    decreases |p|
  {
    if p != [] {
      assert (p + q)[0] == p[0] && (p + q)[1..] == p[1..] + q;
      CleanAppend(p[1..], q);
      if !(p[0] == "" || p[0] == ".") {
        calc {
          Clean(p + q);
          [p[0]] + Clean(p[1..] + q);
          [p[0]] + (Clean(p[1..]) + Clean(q));
          ([p[0]] + Clean(p[1..])) + Clean(q);
        }
      }
    } else {
      assert p + q == q;
    }
  }

  /** The components of a path string. */
  function Parts(raw: string): seq<string> {
    Clean(Split(raw))
  }

  /** The components of `Path(raw).absolute()`: relative paths are taken
      from the working directory; ".." is kept. */
  function AbsoluteParts(fs: Fs, raw: string): seq<string> {
    (if IsAbsolute(raw) then [] else fs.cwd) + Parts(raw)
  }

  /** Applies components left to right: ".." steps up (and stays at the root),
      anything else steps down. */
  function Collapse(acc: Canon, parts: seq<string>): Canon
    decreases |parts|
  {
    if parts == [] then acc
    else if parts[0] == ".." then Collapse(if acc == [] then [] else acc[..|acc| - 1], parts[1..])
    else Collapse(acc + [parts[0]], parts[1..])
  }

  /** The location a path string names. */
  function Canonical(fs: Fs, raw: string): Canon {
    Collapse([], AbsoluteParts(fs, raw))
  }

  /** `Path(raw).resolve()`: the canonical location, or nothing where
      resolution raises. */
  function Resolve(fs: Fs, raw: string): Option<Canon> {
    var c := Canonical(fs, raw);
    if c in fs.resolveFault then None else Some(c)
  }

  /** `str(Path(raw))`. */
  function Text(raw: string): string {
    if IsAbsolute(raw) then "/" + JoinSlash(Parts(raw))
    else if Parts(raw) == [] then "."
    else JoinSlash(Parts(raw))
  }

  /** `str(Path(raw).absolute())`. */
  function AbsoluteText(fs: Fs, raw: string): string {
    "/" + JoinSlash(AbsoluteParts(fs, raw))
  }

  /** The text of a canonical location. */
  function CanonText(c: Canon): string {
    "/" + JoinSlash(c)
  }

  // ---------------------------------------------------------------------------
  // ".." cancels the component before it

  lemma {:induction false} CollapseAppend(acc: Canon, p: seq<string>, q: seq<string>)
    ensures Collapse(acc, p + q) == Collapse(Collapse(acc, p), q)
    decreases |p|
  {
    if p != [] {
      assert (p + q)[0] == p[0] && (p + q)[1..] == p[1..] + q;
      var next := if p[0] == ".." then (if acc == [] then [] else acc[..|acc| - 1]) else acc + [p[0]];
      assert Collapse(acc, p + q) == Collapse(next, p[1..] + q);
      assert Collapse(acc, p) == Collapse(next, p[1..]);
      CollapseAppend(next, p[1..], q);
    } else {
      assert p + q == q;
    }
  }

  lemma SplitPlain(x: string)
    requires '/' !in x
    ensures Split(x) == [x]
    decreases |x|
  {
    if x != [] {
      assert x[1..] == x[1..];
      assert '/' !in x[1..];
      SplitPlain(x[1..]);
      assert x == [x[0]] + x[1..];
    }
  }

  lemma SplitDotDot(a: string, x: string, b: string)
    requires '/' !in x
    ensures Split(a + "/" + x + "/../" + b) == Split(a) + [x, ".."] + Split(b)
    ensures Split(a + "/" + b) == Split(a) + Split(b)
  {
    assert a + "/" + x + "/../" + b == a + "/" + (x + "/../" + b);
    SplitConcat(a, x + "/../" + b);
    SplitDotDotTail(x, b);
    SplitConcat(a, b);
  }

  lemma SplitDotDotTail(x: string, b: string)
    requires '/' !in x
    ensures Split(x + "/../" + b) == [x, ".."] + Split(b)
  {
    assert x + "/../" + b == x + "/" + (".." + "/" + b);
    SplitConcat(x, ".." + "/" + b);
    SplitPlain(x);
    SplitConcat("..", b);
    SplitDots();
  }

  lemma SplitDots()
    ensures Split("..") == [".."]
  {
    SplitPlain("..");
  }

  lemma PartsDotDot(a: string, x: string, b: string)
    requires '/' !in x && x != "" && x != "." && x != ".."
    ensures Parts(a + "/" + x + "/../" + b) == Parts(a) + [x, ".."] + Parts(b)
    ensures Parts(a + "/" + b) == Parts(a) + Parts(b)
  {
    SplitDotDot(a, x, b);
    var sa, sb := Split(a), Split(b);
    CleanAppend(sa + [x, ".."], sb);
    CleanAppend(sa, [x, ".."]);
    CleanAppend(sa, sb);
    assert Clean([x, ".."]) == [x, ".."];
  }

  lemma CollapseCancel(acc: Canon, x: string, q: seq<string>)
    requires x != ".."
    ensures Collapse(acc, [x, ".."] + q) == Collapse(acc, q)
  {
    var p := [x, ".."] + q;
    assert p[0] == x && p[1..] == [".."] + q;
    assert Collapse(acc, p) == Collapse(acc + [x], [".."] + q);
    assert ([".."] + q)[0] == ".." && ([".."] + q)[1..] == q;
    assert (acc + [x])[..|acc + [x]| - 1] == acc;
  }

  lemma AbsoluteSameStart(a: string, t: string, u: string)
    requires |t| > 0 && |u| > 0 && t[0] == '/' && u[0] == '/'
    ensures IsAbsolute(a + t) == IsAbsolute(a + u)
  {
    if a != [] { assert (a + t)[0] == a[0] && (a + u)[0] == a[0]; }
    else { assert a + t == t && a + u == u; }
  }

  lemma DotDotSameStart(a: string, x: string, b: string)
    ensures IsAbsolute(a + "/" + x + "/../" + b) == IsAbsolute(a + "/" + b)
  {
    var t := "/" + x + "/../" + b;
    assert a + "/" + x + "/../" + b == a + t;
    AbsoluteSameStart(a, t, "/" + b);
  }

  lemma AbsolutePartsSplit(fs: Fs, raw: string, other: string, pa: seq<string>, mid: seq<string>, pb: seq<string>)
    requires IsAbsolute(raw) == IsAbsolute(other)
    requires Parts(raw) == pa + mid + pb
    ensures AbsoluteParts(fs, raw) == ((if IsAbsolute(other) then [] else fs.cwd) + pa) + (mid + pb)
  {
  }

  /** A component followed by ".." names the same place as neither of them:
      `root/a/../b` resolves like `root/b`. */
  lemma {:induction false} DotDotCancels(fs: Fs, a: string, x: string, b: string)
    requires '/' !in x && x != "" && x != "." && x != ".."
    ensures Canonical(fs, a + "/" + x + "/../" + b) == Canonical(fs, a + "/" + b)
    ensures Resolve(fs, a + "/" + x + "/../" + b) == Resolve(fs, a + "/" + b)
  {
    var long := a + "/" + x + "/../" + b;
    var short := a + "/" + b;
    PartsDotDot(a, x, b);
    DotDotSameStart(a, x, b);
    AbsolutePartsSplit(fs, long, short, Parts(a), [x, ".."], Parts(b));
    AbsolutePartsSplit(fs, short, short, Parts(a), [], Parts(b));
    var front := (if IsAbsolute(short) then [] else fs.cwd) + Parts(a);
    assert [] + Parts(b) == Parts(b);
    CollapseAppend([], front, [x, ".."] + Parts(b));
    CollapseAppend([], front, Parts(b));
    CollapseCancel(Collapse([], front), x, Parts(b));
  }

  // ---------------------------------------------------------------------------
  // Printing a path and reading it back

  lemma {:induction false} CleanKeeps(ps: seq<string>)
    requires forall k :: 0 <= k < |ps| ==> ps[k] != "" && ps[k] != "."
    ensures Clean(ps) == ps
    decreases |ps|
  {
    if ps != [] {
      CleanKeeps(ps[1..]);
      assert ps == [ps[0]] + ps[1..];
    }
  }

  lemma {:induction false} SplitJoin(ps: seq<string>)
    requires |ps| >= 1
    requires forall k :: 0 <= k < |ps| ==> '/' !in ps[k]
    ensures Split(JoinSlash(ps)) == ps
    decreases |ps|
  {
    if |ps| == 1 {
      SplitPlain(ps[0]);
    } else {
      SplitJoin(ps[1..]);
      SplitConcat(ps[0], JoinSlash(ps[1..]));
      SplitPlain(ps[0]);
      assert ps == [ps[0]] + ps[1..];
    }
  }

  lemma JoinStart(ps: seq<string>)
    requires |ps| >= 1 && ps[0] != ""
    ensures JoinSlash(ps) != "" && JoinSlash(ps)[0] == ps[0][0]
  {
    if |ps| > 1 {
      assert JoinSlash(ps) == ps[0] + ("/" + JoinSlash(ps[1..]));
    }
  }

  lemma PartsPlain(raw: string)
    ensures forall k :: 0 <= k < |Parts(raw)| ==> '/' !in Parts(raw)[k] && Parts(raw)[k] != "" && Parts(raw)[k] != "."
  {
    var ps := Parts(raw);
    SplitNoSlash(raw);
    forall k | 0 <= k < |ps| ensures '/' !in ps[k] {
      CleanMember(Split(raw), ps[k]);
    }
  }

  lemma {:induction false} CleanMember(segs: seq<string>, x: string)
    requires x in Clean(segs)
    ensures x in segs
    decreases |segs|
  {
    if segs != [] && x != segs[0] {
      CleanMember(segs[1..], x);
    }
  }

  /** Printing a path and parsing the text again gives the same components
      and the same kind (absolute or relative): `str(Path(raw))` names the
      location `raw` names. */
  lemma TextSameLocation(fs: Fs, raw: string)
    ensures Parts(Text(raw)) == Parts(raw)
    ensures IsAbsolute(Text(raw)) == IsAbsolute(raw)
    ensures Canonical(fs, Text(raw)) == Canonical(fs, raw)
  {
    var ps := Parts(raw);
    PartsPlain(raw);
    CleanKeeps(ps);
    if IsAbsolute(raw) {
      if ps == [] {
        assert Text(raw) == "/";
        assert Split("/") == [""] + Split("");
      } else {
        SplitJoin(ps);
        SplitConcat("", JoinSlash(ps));
        assert "" + "/" + JoinSlash(ps) == Text(raw);
        CleanAppend([""], ps);
      }
    } else if ps == [] {
      assert Text(raw) == ".";
      SplitPlain(".");
      assert Clean(["."]) == [];
    } else {
      SplitJoin(ps);
      JoinStart(ps);
    }
  }

  /** `/name` names the entry `name` directly under the root. */
  lemma RootChild(fs: Fs, name: string)
    requires '/' !in name && name != "" && name != "." && name != ".."
    ensures Canonical(fs, "/" + name) == [name]
  {
    var raw := "/" + name;
    assert "" + "/" + name == raw;
    SplitConcat("", name);
    SplitPlain(name);
    assert Split(raw) == [""] + [name];
    assert Clean([""] + [name]) == [name];
    assert Parts(raw) == [name];
    assert IsAbsolute(raw);
    assert AbsoluteParts(fs, raw) == [name];
    assert Collapse([], [name]) == Collapse([name], []) == [name];
  }

  /** Appending one plain component to a non-empty path names the child of
      the location the path names. */
  lemma ChildLocation(fs: Fs, raw: string, child: string)
    requires raw != ""
    requires '/' !in child && child != "" && child != "." && child != ".."
    ensures Canonical(fs, raw + "/" + child) == Canonical(fs, raw) + [child]
  {
    SplitConcat(raw, child);
    SplitPlain(child);
    CleanAppend(Split(raw), [child]);
    assert Clean([child]) == [child];
    assert (raw + "/" + child)[0] == raw[0];
    var front := (if IsAbsolute(raw) then [] else fs.cwd) + Parts(raw);
    assert AbsoluteParts(fs, raw + "/" + child) == front + [child];
    CollapseAppend([], front, [child]);
  }

  // ---------------------------------------------------------------------------
  // Names, suffixes, extensions

  /** `Path(raw).name`: the last component, or "" for a path with none. */
  function Name(raw: string): string {
    var p := Parts(raw);
    if p == [] then "" else p[|p| - 1]
  }

  /** Index of the last '.' in `s`, or -1. */
  function LastDot(s: string): (i: int)
    ensures -1 <= i < |s|
    ensures i >= 0 ==> s[i] == '.'
    ensures forall k :: i < k < |s| ==> s[k] != '.'
    decreases |s|
  {
    if s == [] then -1
    else if s[|s| - 1] == '.' then |s| - 1
    else LastDot(s[..|s| - 1])
  }

  /** `PurePath.suffix` of a name: from the last '.' on, unless that dot
      starts or ends the name. */
  function Suffix(name: string): (r: string)
    ensures r == "" || (r[0] == '.' && |r| >= 2 && '.' !in r[1..])
  {
    var i := LastDot(name);
    if 0 < i < |name| - 1 then name[i..] else ""
  }

  /** The lower-cased suffix: the extension the server compares. */
  function Extension(raw: string): string {
    Lower(Suffix(Name(raw)))
  }

  lemma {:induction false} CleanLower(segs: seq<string>)
    ensures Clean(LowerAll(segs)) == LowerAll(Clean(segs))
    decreases |segs|
  {
    if segs != [] {
      LowerKeepsPunctuation(segs[0]);
      assert LowerAll(segs)[1..] == LowerAll(segs[1..]);
      CleanLower(segs[1..]);
      if !(segs[0] == "" || segs[0] == ".") {
        assert LowerAll([segs[0]] + Clean(segs[1..])) == [Lower(segs[0])] + LowerAll(Clean(segs[1..]));
      }
    }
  }

  lemma NameLower(raw: string)
    ensures Name(Lower(raw)) == Lower(Name(raw))
  {
    SplitLower(raw);
    CleanLower(Split(raw));
  }

  lemma {:induction false} LastDotLower(s: string)
    ensures LastDot(Lower(s)) == LastDot(s)
    decreases |s|
  {
    if s != [] {
      LowerKeepsPunctuation(s);
      assert Lower(s)[..|s| - 1] == Lower(s[..|s| - 1]);
      LastDotLower(s[..|s| - 1]);
    }
  }

  /** Whether a file is a spreadsheet does not depend on the case of its
      path: `Book.XLSX` has the extension `.xlsx`. */
  lemma ExtensionIgnoresCase(raw: string)
    ensures Extension(Lower(raw)) == Extension(raw)
  {
    NameLower(raw);
    var n := Name(raw);
    LastDotLower(n);
    var i := LastDot(n);
    if 0 < i < |n| - 1 {
      assert Lower(n)[i..] == Lower(n[i..]);
    }
    LowerIdempotent(Suffix(n));
  }

  // ---------------------------------------------------------------------------
  // Looking entries up

  datatype Probe = Faulted(fault: Fault) | Missing | Found(node: Node)

  /** What `stat` reports for a location. */
  function ProbeAt(fs: Fs, c: Canon): Probe {
    if c in fs.statFault then Faulted(fs.statFault[c])
    else if c in fs.nodes then Found(fs.nodes[c])
    else Missing
  }

  /** Why the spreadsheet readers could not open a file. */
  datatype ReadFault =
    | NoSuchFile                 // FileNotFoundError
    | NoAccess(message: string)  // PermissionError
    | Unreadable(message: string) // any other failure, with its text

  /** The text of the exception, as `str(e)` renders it. */
  function FaultText(f: ReadFault, raw: string): string {
    match f
    case NoSuchFile => "[Errno 2] No such file or directory: '" + raw + "'"
    case NoAccess(m) => m
    case Unreadable(m) => m
  }

  /** Opening a path as a workbook. */
  function LoadBook(fs: Fs, raw: string): (r: Result<Book, ReadFault>)
    ensures r.Ok? <==> ProbeAt(fs, Canonical(fs, raw)).Found?
                       && ProbeAt(fs, Canonical(fs, raw)).node.File?
                       && Canonical(fs, raw) in fs.books
    ensures r.Ok? ==> r.value == fs.books[Canonical(fs, raw)]
    ensures r == Err(NoSuchFile) <==> ProbeAt(fs, Canonical(fs, raw)).Missing?
  {
    var c := Canonical(fs, raw);
    match ProbeAt(fs, c)
    case Faulted(PermissionDenied(m)) => Err(NoAccess(m))
    case Faulted(OsFailure(m)) => Err(Unreadable(m))
    case Missing => Err(NoSuchFile)
    case Found(Dir) => Err(Unreadable("[Errno 21] Is a directory: '" + raw + "'"))
    case Found(File(_)) => if c in fs.books then Ok(fs.books[c]) else Err(Unreadable("File is not a zip file"))
  }

  /** The data-frame reader: open the workbook, then pick the sheet; a
      missing sheet raises like any other read failure. */
  function ReadFrame(fs: Fs, raw: string, worksheetName: Option<string>): (r: Result<Frame, ReadFault>)
    ensures r.Ok? <==> LoadBook(fs, raw).Ok? && SelectFrame(LoadBook(fs, raw).value, worksheetName).Ok?
    ensures r.Ok? ==> r.value == SelectFrame(LoadBook(fs, raw).value, worksheetName).value
    ensures LoadBook(fs, raw).Err? ==> r == Err(LoadBook(fs, raw).error)
  {
    match LoadBook(fs, raw)
    case Err(f) => Err(f)
    case Ok(book) =>
      match SelectFrame(book, worksheetName)
      case Err(m) => Err(Unreadable(m))
      case Ok(frame) => Ok(frame)
  }

  // ---------------------------------------------------------------------------
  // Enumeration

  /** `c` lies strictly below `dir`; for a flat listing, directly below. */
  predicate Below(dir: Canon, c: Canon, recursive: bool) {
    |c| > |dir| && c[..|dir|] == dir && (recursive || |c| == |dir| + 1)
  }

  // The recursive glob pattern "**" + "/*", or the flat pattern "*": the
  // entries below `dir`, in the order enumeration meets them.
  function Glob(entries: seq<Canon>, dir: Canon, recursive: bool): (r: seq<Canon>)
    ensures forall k :: 0 <= k < |r| ==> Below(dir, r[k], recursive) && r[k] in entries
    ensures forall c :: c in entries && Below(dir, c, recursive) ==> c in r
    ensures |r| <= |entries|
    decreases |entries|
  {
    if entries == [] then []
    else if Below(dir, entries[0], recursive) then [entries[0]] + Glob(entries[1..], dir, recursive)
    else Glob(entries[1..], dir, recursive)
  }

  /** A flat listing is part of the recursive one, and never reaches into a
      subdirectory. */
  lemma FlatWithinRecursive(entries: seq<Canon>, dir: Canon)
    ensures forall c :: c in Glob(entries, dir, false) ==> c in Glob(entries, dir, true)
    ensures forall c :: c in Glob(entries, dir, false) ==> |c| == |dir| + 1
  {
    forall c | c in Glob(entries, dir, false)
      ensures c in Glob(entries, dir, true) && |c| == |dir| + 1
    {
      var k :| 0 <= k < |Glob(entries, dir, false)| && Glob(entries, dir, false)[k] == c;
      assert Below(dir, c, true);
    }
  }
}

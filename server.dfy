/** The tool dispatcher: it picks the tool by name, checks the arguments
    with Python's truthiness, calls the tool's implementation, and wraps what
    comes back (or the error it raised) in exactly one reply item.

    The tools' implementations are collaborators passed in as functions that
    either return a JSON value or raise; serialising a reply to text is the
    identity here. */
module Server {
  import opened Common

  /** JSON values as the arguments and the replies carry them. */
  datatype Json =
    | JNull
    | JBool(b: bool)
    | JInt(i: int)
    | JStr(s: string)
    | JList(items: seq<Json>)
    | JObject(fields: map<string, Json>)

  /** Python's truth value of a decoded JSON value. */
  predicate Truthy(j: Json) {
    match j
    case JNull => false
    case JBool(b) => b
    case JInt(i) => i != 0
    case JStr(s) => s != ""
    case JList(items) => |items| > 0
    case JObject(fields) => |fields| > 0
  }

  /** `arguments.get(key, default)`. */
  function Get(args: map<string, Json>, key: string, default: Json): (r: Json)
    ensures key in args ==> r == args[key]
    ensures key !in args ==> r == default
  {
    if key in args then args[key] else default
  }

  /** The exceptions the dispatcher catches, and the rest. */
  datatype ExceptionKind = ValueErr | TypeErr | FileNotFound | Permission | OtherErr

  /** What a collaborator does: return a value, or raise. */
  datatype Outcome = Returned(value: Json) | Raised(kind: ExceptionKind, message: string)

  /** What the dispatcher does: reply with text items, or let an exception
      escape. */
  datatype Reply = Items(items: seq<Json>) | Escaped(kind: ExceptionKind, message: string)

  /** The failure envelope `{"success": false, "error": message}`. */
  function Failure(message: string): (r: Json)
    ensures r.JObject? && r.fields.Keys == {"success", "error"}
    ensures r.fields["success"] == JBool(false) && r.fields["error"] == JStr(message)
  {
    JObject(map["success" := JBool(false), "error" := JStr(message)])
  }

  /** A returned value becomes the single reply item; an exception of a
      caught kind becomes a failure envelope; any other exception escapes. */
  function Wrap(o: Outcome): (r: Reply)
    ensures o.Returned? ==> r == Items([o.value])
    ensures o.Raised? && o.kind != OtherErr ==> r == Items([Failure("Tool execution failed: " + o.message)])
    ensures o.Raised? && o.kind == OtherErr ==> r == Escaped(OtherErr, o.message)
  {
    match o
    case Returned(v) => Items([v])
    case Raised(OtherErr, m) => Escaped(OtherErr, m)
    case Raised(_, m) => Items([Failure("Tool execution failed: " + m)])
  }

  // ---------------------------------------------------------------------------
  // Routing

  /** What the dispatcher decides to do with a call. */
  datatype Route =
    | ListFiles(directoryPath: Json, recursive: Json)
    | SingleSummary(filePath: Json)
    | BatchSummaries(filePaths: seq<Json>)
    | ReadData(filePath: Json, worksheetName: Json, maxRows: Json)
    | Refuse(message: string)

  /** The refusals of `get_excel_summary`. */
  const NonEmptyListRequired := "file_paths must be a non-empty list"
  const PathOrPathsRequired := "Either file_path or file_paths is required, but not both"

  /** The routing decision for `get_excel_summary`: one file when
      `file_path` is truthy and `file_paths` is not; a batch when
      `file_paths` is given and `file_path` is not truthy, provided it is a
      non-empty list; otherwise a refusal. */
  function SummaryRoute(filePath: Json, filePaths: Json): Route {
    if Truthy(filePath) && !Truthy(filePaths) then SingleSummary(filePath)
    else if filePaths != JNull && !Truthy(filePath) then
      if !filePaths.JList? || |filePaths.items| == 0 then Refuse(NonEmptyListRequired)
      else BatchSummaries(filePaths.items)
    else Refuse(PathOrPathsRequired)
  }

  function RouteOf(name: string, args: map<string, Json>): Route {
    if name == "list_excel_files" then
      var directoryPath := Get(args, "directory_path", JNull);
      if !Truthy(directoryPath) then Refuse("directory_path is required")
      else ListFiles(directoryPath, Get(args, "recursive", JBool(true)))
    else if name == "get_excel_summary" then
      SummaryRoute(Get(args, "file_path", JNull), Get(args, "file_paths", JNull))
    else if name == "read_excel_data" then
      var filePath := Get(args, "file_path", JNull);
      if !Truthy(filePath) then Refuse("file_path is required")
      else ReadData(filePath, Get(args, "worksheet_name", JNull), Get(args, "max_rows", JNull))
    else Refuse("Unknown tool: " + name)
  }

  // ---------------------------------------------------------------------------
  // Batch summaries

  /** The summaries of `paths[..n]`, one per path in order, or what the
      first failing summary raised. */
  function Summaries(paths: seq<Json>, summary: Json -> Outcome): (r: Result<seq<Json>, Outcome>)
    ensures r.Err? ==> r.error.Raised?
    decreases |paths|
  {
    if paths == [] then Ok([])
    else
      var n := |paths| - 1;
      match Summaries(paths[..n], summary)
      case Err(o) => Err(o)
      case Ok(done) =>
        match summary(paths[n])
        case Returned(v) => Ok(done + [v])
        case Raised(k, m) => Err(Raised(k, m))
  }

  /** The batch envelope over a completed list of summaries. */
  function BatchEnvelope(total: nat, summaries: seq<Json>): Json {
    JObject(map["success" := JBool(true), "total_files" := JInt(total), "summaries" := JList(summaries)])
  }

  function Batch(paths: seq<Json>, summary: Json -> Outcome): Outcome {
    match Summaries(paths, summary)
    case Err(o) => o
    case Ok(s) => Returned(BatchEnvelope(|paths|, s))
  }

  /** The batch loop: one summary per path, in order; a summary that raises
      ends the batch with that exception. */
  method MultipleSummaries(paths: seq<Json>, summary: Json -> Outcome) returns (o: Outcome)
    ensures o == Batch(paths, summary)
  {
    var done: seq<Json> := [];
    for i := 0 to |paths|
      invariant Summaries(paths[..i], summary) == Ok(done)
    {
      assert paths[..i + 1][..i] == paths[..i];
      var s := summary(paths[i]);
      if s.Raised? {
        assert Summaries(paths[..i + 1], summary) == Err(s);
        SummariesStop(paths, summary, i + 1);
        return s;
      }
      done := done + [s.value];
    }
    assert paths[..|paths|] == paths;
    o := Returned(BatchEnvelope(|paths|, done));
  }

  /** Once a prefix fails, every longer prefix fails the same way. */
  lemma {:induction false} SummariesStop(paths: seq<Json>, summary: Json -> Outcome, i: nat)
    requires i <= |paths| && Summaries(paths[..i], summary).Err?
    ensures Summaries(paths, summary) == Summaries(paths[..i], summary)
    decreases |paths| - i
  {
    if i < |paths| {
      assert paths[..i + 1][..i] == paths[..i];
      SummariesStop(paths, summary, i + 1);
    } else {
      assert paths[..i] == paths;
    }
  }

  /** A batch succeeds exactly when every summary does; it then holds one
      summary per path, in input order, and counts the paths. */
  lemma {:induction false} SummariesOnePerPath(paths: seq<Json>, summary: Json -> Outcome)
    ensures Summaries(paths, summary).Ok? <==> forall k :: 0 <= k < |paths| ==> summary(paths[k]).Returned?
    ensures Summaries(paths, summary).Ok? ==>
              var s := Summaries(paths, summary).value;
              |s| == |paths| && forall k :: 0 <= k < |paths| ==> s[k] == summary(paths[k]).value
    decreases |paths|
  {
    if paths != [] {
      var n := |paths| - 1;
      SummariesOnePerPath(paths[..n], summary);
      assert forall k :: 0 <= k < n ==> paths[..n][k] == paths[k];
    }
  }

  /** The batch result's envelope: success, the number of paths, and the
      summaries in order; or the exception of the first summary that raised. */
  lemma BatchShape(paths: seq<Json>, summary: Json -> Outcome)
    ensures Batch(paths, summary).Returned? <==> forall k :: 0 <= k < |paths| ==> summary(paths[k]).Returned?
    ensures Batch(paths, summary).Returned? ==>
              exists s :: |s| == |paths|
                && (forall k :: 0 <= k < |paths| ==> s[k] == summary(paths[k]).value)
                && Batch(paths, summary).value == BatchEnvelope(|paths|, s)
    ensures Batch(paths, summary).Raised? ==>
              exists k :: 0 <= k < |paths| && summary(paths[k]) == Batch(paths, summary)
                && forall j :: 0 <= j < k ==> summary(paths[j]).Returned?
  {
    SummariesOnePerPath(paths, summary);
    if Summaries(paths, summary).Err? {
      FirstRaised(paths, summary);
    }
  }

  /** A failed batch carries the exception of its first failing summary. */
  lemma {:induction false} FirstRaised(paths: seq<Json>, summary: Json -> Outcome)
    requires Summaries(paths, summary).Err?
    ensures exists k :: 0 <= k < |paths| && summary(paths[k]) == Summaries(paths, summary).error
              && forall j :: 0 <= j < k ==> summary(paths[j]).Returned?
    decreases |paths|
  {
    var n := |paths| - 1;
    assert forall k :: 0 <= k < n ==> paths[..n][k] == paths[k];
    if Summaries(paths[..n], summary).Err? {
      FirstRaised(paths[..n], summary);
      var k :| 0 <= k < n && summary(paths[..n][k]) == Summaries(paths[..n], summary).error
               && forall j :: 0 <= j < k ==> summary(paths[..n][j]).Returned?;
      assert summary(paths[k]) == Summaries(paths, summary).error;
    } else {
      SummariesOnePerPath(paths[..n], summary);
      assert forall j :: 0 <= j < n ==> summary(paths[j]).Returned?;
    }
  }

  // ---------------------------------------------------------------------------
  // The dispatcher

  /** Handles one tool call: routes it, runs the chosen collaborator, and
      wraps the outcome. */
  method CallTool(name: string, args: map<string, Json>,
                  listFiles: (Json, Json) -> Outcome, summary: Json -> Outcome,
                  readData: (Json, Json, Json) -> Outcome)
    returns (r: Reply)
    ensures r == Perform(RouteOf(name, args), listFiles, summary, readData)
  {
    var route := RouteOf(name, args);
    match route
    case ListFiles(d, rec) => r := Wrap(listFiles(d, rec));
    case SingleSummary(p) => r := Wrap(summary(p));
    case BatchSummaries(ps) =>
      var o := MultipleSummaries(ps, summary);
      r := Wrap(o);
    case ReadData(p, w, m) => r := Wrap(readData(p, w, m));
    case Refuse(message) => r := Items([Failure(message)]);
  }

  /** What a route produces. */
  function Perform(route: Route, listFiles: (Json, Json) -> Outcome, summary: Json -> Outcome,
                   readData: (Json, Json, Json) -> Outcome): Reply
  {
    match route
    case ListFiles(d, rec) => Wrap(listFiles(d, rec))
    case SingleSummary(p) => Wrap(summary(p))
    case BatchSummaries(ps) => Wrap(Batch(ps, summary))
    case ReadData(p, w, m) => Wrap(readData(p, w, m))
    case Refuse(message) => Items([Failure(message)])
  }

  /** Every call replies with exactly one item, unless a collaborator raised
      an exception the dispatcher does not catch. */
  lemma OneItem(route: Route, listFiles: (Json, Json) -> Outcome, summary: Json -> Outcome,
                readData: (Json, Json, Json) -> Outcome)
    ensures var r := Perform(route, listFiles, summary, readData);
      (r.Items? ==> |r.items| == 1) && (r.Escaped? ==> r.kind == OtherErr)
    ensures route.Refuse? ==> Perform(route, listFiles, summary, readData) == Items([Failure(route.message)])
  {
  }

  /** `list_excel_files` refuses a missing or empty directory path and
      otherwise passes `recursive`, true when absent. */
  lemma ListFilesArguments(args: map<string, Json>)
    ensures var d := Get(args, "directory_path", JNull);
      !Truthy(d) <==> RouteOf("list_excel_files", args) == Refuse("directory_path is required")
    ensures Truthy(Get(args, "directory_path", JNull)) && "recursive" !in args ==>
              RouteOf("list_excel_files", args) == ListFiles(args["directory_path"], JBool(true))
  {
  }

  /** The single-file branch is taken exactly when `file_path` is truthy and
      `file_paths` is not; in particular `file_path` with `file_paths=[]`
      is a single-file call. */
  lemma SingleIff(fp: Json, fps: Json)
    ensures SummaryRoute(fp, fps).SingleSummary? <==> Truthy(fp) && !Truthy(fps)
    ensures Truthy(fp) ==> SummaryRoute(fp, JList([])) == SingleSummary(fp)
  {
  }

  /** The batch branch is taken exactly when `file_paths` is given, `file_path`
      is not truthy, and `file_paths` is a non-empty list; given but not a
      non-empty list, it is refused as such. */
  lemma BatchIff(fp: Json, fps: Json)
    ensures SummaryRoute(fp, fps).BatchSummaries? <==>
              fps != JNull && !Truthy(fp) && fps.JList? && |fps.items| > 0
    ensures SummaryRoute(fp, fps).BatchSummaries? ==> SummaryRoute(fp, fps).filePaths == fps.items
    ensures SummaryRoute(fp, fps) == Refuse(NonEmptyListRequired) <==>
              fps != JNull && !Truthy(fp) && !(fps.JList? && |fps.items| > 0)
  {
  }

  /** Both arguments truthy, or neither given, is refused. */
  lemma EitherNotBoth(fp: Json, fps: Json)
    ensures SummaryRoute(fp, fps) == Refuse(PathOrPathsRequired) <==>
              (Truthy(fp) && Truthy(fps)) || (!Truthy(fp) && fps == JNull)
  {
  }

  /** `read_excel_data` without a truthy `file_path` is refused and never
      consults the reader. */
  lemma ReadDataNeedsPath(args: map<string, Json>, listFiles: (Json, Json) -> Outcome, summary: Json -> Outcome,
                          readA: (Json, Json, Json) -> Outcome, readB: (Json, Json, Json) -> Outcome)
    requires !Truthy(Get(args, "file_path", JNull))
    ensures Perform(RouteOf("read_excel_data", args), listFiles, summary, readA)
         == Perform(RouteOf("read_excel_data", args), listFiles, summary, readB)
         == Items([Failure("file_path is required")])
  {
  }

  /** Any other tool name is refused by name. */
  lemma UnknownTool(name: string, args: map<string, Json>)
    requires name != "list_excel_files" && name != "get_excel_summary" && name != "read_excel_data"
    ensures RouteOf(name, args) == Refuse("Unknown tool: " + name)
  {
  }
}

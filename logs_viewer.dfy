/** The logs viewer widget: normalises the configured log sources, reads the
    tail of each one (a file, the systemd journal or one service's journal)
    and reports the sources that produced entries. Commands, files and the
    clock that stamps the payload are inputs. */
module LogsViewer {
  import opened Common

  const WidgetType: string := "logs_viewer"
  const DisplayName: string := "Logs Viewer"
  const Description: string := "View recent log entries from system and application logs"
  const DefaultMaxLines: int := 50

  /** `_get_default_log_files`: the journal, two files and two services. */
  function DefaultLogFiles(): (r: seq<Value>)
    ensures |r| == 5
  {
    [ VDict([("path", VStr("system")), ("name", VStr("System Journal")), ("type", VStr("journalctl"))]),
      VDict([("path", VStr("/var/log/syslog")), ("name", VStr("System Log")), ("type", VStr("file"))]),
      VDict([("path", VStr("/var/log/auth.log")), ("name", VStr("Authentication Log")), ("type", VStr("file"))]),
      VDict([("path", VStr("nginx")), ("name", VStr("Nginx Service")), ("type", VStr("service"))]),
      VDict([("path", VStr("apache2")), ("name", VStr("Apache Service")), ("type", VStr("service"))]) ]
  }

  /** `default_config`: refresh every 30 seconds, 50 lines, the default sources. */
  function DefaultConfig(): (d: Dict)
    ensures Keys(d) == ["refresh_interval", "max_lines", "log_files"]
  {
    [("refresh_interval", VInt(30)), ("max_lines", VInt(DefaultMaxLines)),
     ("log_files", VList(DefaultLogFiles()))]
  }

  /** What the widget can reach: the command runner, the text of files that
      exist and are readable, and `str()` of the values it has no fixed
      spelling for here (floats, lists, dicts). */
  datatype Env = Env(run: Runner, readable: string -> Option<string>, repr: Value -> string)

  /** `str(v)`. */
  function PyStr(v: Value, env: Env): string
  {
    match v
    case VNone => "None"
    case VBool(b) => if b then "True" else "False"
    case VInt(i) => IntToString(i)
    case VStr(s) => s
    case _ => env.repr(v)
  }

  // --------------------------------------------------------- sources

  /** `os.path.basename`: the text after the last '/'. */
  function Basename(path: string): (r: string)
    ensures '/' !in r
    ensures EndsWith(path, r)
  {
    match LastIndexOf(path, '/')
    case None => path
    case Some(i) => path[i + 1..]
  }

  /** A source after normalisation. */
  datatype LogSource = LogSource(name: Value, path: string, kind: Value)

  /** The TypeError `os.fspath` raises for a non-path. */
  function NotAPath(v: Value): string
  {
    "expected str, bytes or os.PathLike object, not " + TypeName(v)
  }

  /** The path of a source that normalises: a string, or a dict whose `path`
      is a string. */
  predicate HasPath(v: Value)
  {
    v.VStr? || (v.VDict? && Get(v.entries, "path").Some? && Get(v.entries, "path").value.VStr?)
  }

  /** Lines 34-41: a dict gives its `path`, its `name` (by default the path's
      basename, which is computed even when a name is given and so must be a
      path) and its `type` (by default `file`); anything else is itself the
      path of a plain file. A missing or non-string path raises. */
  function Normalize(v: Value): (r: Result<LogSource>)
    ensures r.Ok? <==> HasPath(v)
    ensures v.VStr? ==> r == Ok(LogSource(VStr(Basename(v.s)), v.s, VStr("file")))
    ensures r.Ok? && v.VDict? ==>
      && Get(v.entries, "path") == Some(VStr(r.value.path))
      && r.value.name == GetOr(v.entries, "name", VStr(Basename(r.value.path)))
      && r.value.kind == GetOr(v.entries, "type", VStr("file"))
    ensures r.Err? && v.VDict? ==> r.error == NotAPath(GetOr(v.entries, "path", VNone))
    ensures r.Err? && !v.VDict? ==> r.error == NotAPath(v)
  {
    match v
    case VDict(d) =>
      (match Get(d, "path")
       case Some(VStr(p)) => Ok(LogSource(GetOr(d, "name", VStr(Basename(p))), p, GetOr(d, "type", VStr("file"))))
       case Some(other) => Err(NotAPath(other))
       case None => Err(NotAPath(VNone)))
    case VStr(p) => Ok(LogSource(VStr(Basename(p)), p, VStr("file")))
    case _ => Err(NotAPath(v))
  }

  // --------------------------------------------------------- reading

  /** `lines[start:]` with Python's rules for a negative or too large start. */
  function SliceFrom<T>(lines: seq<T>, start: int): (r: seq<T>)
    ensures |r| <= |lines|
    ensures r == lines[|lines| - |r|..]
    ensures start >= 0 ==> |r| == if start <= |lines| then |lines| - start else 0
    ensures start < 0 ==> |r| == if -start <= |lines| then -start else |lines|
  {
    if start < 0 then (if -start <= |lines| then lines[|lines| + start..] else lines)
    else if start <= |lines| then lines[start..]
    else []
  }

  /** Text mode reading with universal newlines: "\r\n" and a lone "\r" both
      end a line. */
  function UniversalNewlines(s: string): (r: string)
    ensures '\r' !in r
    decreases |s|
  {
    if s == [] then []
    else if s[0] == '\r' then
      "\n" + UniversalNewlines(if |s| > 1 && s[1] == '\n' then s[2..] else s[1..])
    else [s[0]] + UniversalNewlines(s[1..])
  }

  /** `f.readlines()` with the line ends left off (they are stripped anyway):
      the pieces between newlines, with no empty piece after a final newline. */
  function ReadLines(content: string): (r: seq<string>)
  {
    var pieces := Split(UniversalNewlines(content), '\n');
    if pieces[|pieces| - 1] == [] then pieces[..|pieces| - 1] else pieces
  }

  /** A non-blank line with no surrounding whitespace. */
  predicate Trimmed(s: string)
  {
    s != [] && !IsSpace(s[0]) && !IsSpace(s[|s| - 1])
  }

  /** `[line.strip() for line in lines if line.strip()]`. */
  function KeepNonBlank(lines: seq<string>): (r: seq<string>)
    ensures |r| <= |lines|
    ensures forall k :: 0 <= k < |r| ==> Trimmed(r[k])
    decreases |lines|
  {
    if lines == [] then []
    else
      var t := Strip(lines[0]);
      var rest := KeepNonBlank(lines[1..]);
      if t != "" then
        StripTrimmed(lines[0]);
        TrimmedCons(t, rest);
        [t] + rest
      else rest
  }

  lemma StripTrimmed(s: string)
    requires Strip(s) != ""
    ensures Trimmed(Strip(s))
  {
  }

  lemma TrimmedCons(t: string, rest: seq<string>)
    requires Trimmed(t) && forall k :: 0 <= k < |rest| ==> Trimmed(rest[k])
    ensures forall k :: 0 <= k < |[t] + rest| ==> Trimmed(([t] + rest)[k])
  {
    forall k | 0 <= k < |[t] + rest|
      ensures Trimmed(([t] + rest)[k])
    {
      if k > 0 {
        assert ([t] + rest)[k] == rest[k - 1];
      }
    }
  }

  /** The file branch: the stripped non-blank lines among `lines[-max_lines:]`.
      Only an int (or bool) can be negated for the slice; anything else raises,
      which gives no entries. */
  function FileEntries(content: string, maxLines: Value): (r: seq<string>)
  {
    match maxLines
    case VInt(n) => KeepNonBlank(SliceFrom(ReadLines(content), -n))
    case VBool(b) => KeepNonBlank(SliceFrom(ReadLines(content), if b then -1 else 0))
    case _ => []
  }

  /** Lines 92-95: every entry is a stripped, non-blank line from the last
      `max_lines` lines; `max_lines` 0 keeps the whole file, because `-0` is 0. */
  lemma FileEntriesMeaning(content: string, n: int)
    ensures forall k :: 0 <= k < |FileEntries(content, VInt(n))| ==> Trimmed(FileEntries(content, VInt(n))[k])
    ensures n > 0 ==> |FileEntries(content, VInt(n))| <= n
    ensures n == 0 ==> FileEntries(content, VInt(n)) == KeepNonBlank(ReadLines(content))
  {
  }

  /** `stdout.strip().split('\n')` of a journal query that exited 0. */
  function JournalLines(c: Completed): (r: seq<string>)
    ensures |r| >= 1
  {
    Split(Strip(c.stdout), '\n')
  }

  /** An empty journal still yields one (empty) entry, so the source is reported. */
  lemma EmptyJournalOneEntry(c: Completed)
    requires Strip(c.stdout) == ""
    ensures JournalLines(c) == [""]
  {
  }

  /** Journal lines rejoined with newlines give back the stripped output. */
  lemma JournalLinesRejoin(c: Completed)
    ensures Join(JournalLines(c), '\n') == Strip(c.stdout)
  {
    JoinSplit(Strip(c.stdout), '\n');
  }

  /** A journal query: its lines when it exits 0, nothing otherwise. */
  function Journal(run: Runner, argv: seq<string>): seq<string>
  {
    match run(argv)
    case Some(c) => if c.returnCode == 0 then JournalLines(c) else []
    case None => []
  }

  /** `_read_log_file`: dispatch on the type; a nonzero exit, a raising
      command or an unreadable file gives no entries. */
  function ReadLogFile(source: LogSource, maxLines: Value, env: Env): (r: seq<string>)
    ensures source.kind == VStr("journalctl") ==>
      r == Journal(env.run, ["journalctl", "-n", PyStr(maxLines, env), "--no-pager"])
    ensures source.kind == VStr("service") ==>
      r == Journal(env.run, ["journalctl", "-u", source.path, "-n", PyStr(maxLines, env), "--no-pager"])
    ensures source.kind != VStr("journalctl") && source.kind != VStr("service") ==>
      r == match env.readable(source.path)
           case Some(content) => FileEntries(content, maxLines)
           case None => []
  {
    if source.kind == VStr("journalctl") then
      Journal(env.run, ["journalctl", "-n", PyStr(maxLines, env), "--no-pager"])
    else if source.kind == VStr("service") then
      Journal(env.run, ["journalctl", "-u", source.path, "-n", PyStr(maxLines, env), "--no-pager"])
    else match env.readable(source.path)
      case Some(content) => FileEntries(content, maxLines)
      case None => []
  }

  // --------------------------------------------------------- get_data

  datatype LogReport = LogReport(name: Value, path: string, kind: Value, entries: seq<string>, count: nat)

  datatype LogsData =
    | Logs(logs: seq<LogReport>, totalEntries: nat, timestamp: int)
    | LogsError(error: string, timestamp: int)

  /** The report for one source, if it produced entries. */
  function ReportFor(source: LogSource, maxLines: Value, env: Env): (r: seq<LogReport>)
    ensures |r| <= 1
    ensures r != [] <==> ReadLogFile(source, maxLines, env) != []
    ensures r != [] ==> r[0].entries == ReadLogFile(source, maxLines, env) && r[0].count == |r[0].entries|
  {
    var entries := ReadLogFile(source, maxLines, env);
    if entries != [] then [LogReport(source.name, source.path, source.kind, entries, |entries|)] else []
  }

  /** One source's contribution to a listing in progress; the first source
      that does not normalise aborts the whole listing. */
  function Step(acc: Result<seq<LogReport>>, item: Value, maxLines: Value, env: Env): Result<seq<LogReport>>
  {
    match acc
    case Err(_) => acc
    case Ok(rs) =>
      match Normalize(item)
      case Err(e) => Err(e)
      case Ok(src) => Ok(rs + ReportFor(src, maxLines, env))
  }

  /** The listing for a sequence of sources, built source by source. */
  function Reports(items: seq<Value>, maxLines: Value, env: Env): Result<seq<LogReport>>
    decreases |items|
  {
    if items == [] then Ok([])
    else Step(Reports(items[..|items| - 1], maxLines, env), items[|items| - 1], maxLines, env)
  }

  lemma ReportsSnoc(items: seq<Value>, i: nat, maxLines: Value, env: Env)
    requires i < |items|
    ensures Reports(items[..i + 1], maxLines, env) == Step(Reports(items[..i], maxLines, env), items[i], maxLines, env)
  {
    assert items[..i + 1][..i] == items[..i];
  }

  /** Every report has entries and counts them exactly. */
  predicate WellCounted(logs: seq<LogReport>)
  {
    forall k :: 0 <= k < |logs| ==> logs[k].entries != [] && logs[k].count == |logs[k].entries|
  }

  lemma {:induction false} ReportsWellCounted(items: seq<Value>, maxLines: Value, env: Env)
    ensures Reports(items, maxLines, env).Ok? ==> WellCounted(Reports(items, maxLines, env).value)
    decreases |items|
  {
    if items != [] {
      ReportsWellCounted(items[..|items| - 1], maxLines, env);
    }
  }

  /** `sum(log['count'] for log in logs)`. */
  function TotalEntries(logs: seq<LogReport>): nat
    decreases |logs|
  {
    if logs == [] then 0 else TotalEntries(logs[..|logs| - 1]) + logs[|logs| - 1].count
  }

  /** Since every reported source has at least one entry, the total is at
      least the number of reports. */
  lemma {:induction false} TotalAtLeastReports(logs: seq<LogReport>)
    requires WellCounted(logs)
    ensures TotalEntries(logs) >= |logs|
    decreases |logs|
  {
    if logs != [] {
      TotalAtLeastReports(logs[..|logs| - 1]);
    }
  }

  /** The error payload's message for a failed listing. */
  function Failure(e: string): string
  {
    "Failed to read logs: " + e
  }

  /** `get_data`: missing settings fall back to the default sources and 50
      lines; the result lists the reports of `Reports` with their total, or the
      error payload when the sources cannot be iterated or one does not
      normalise. */
  method GetData(config: Dict, env: Env, now: int) returns (r: LogsData)
    ensures r.timestamp == now
    ensures var files := GetOr(config, "log_files", VList(DefaultLogFiles()));
      var maxLines := GetOr(config, "max_lines", VInt(DefaultMaxLines));
      match Iterate(files)
      case None => r == LogsError(Failure("'" + TypeName(files) + "' object is not iterable"), now)
      case Some(items) =>
        match Reports(items, maxLines, env)
        case Err(e) => r == LogsError(Failure(e), now)
        case Ok(logs) => r == Logs(logs, TotalEntries(logs), now)
  {
    var files := GetOr(config, "log_files", VList(DefaultLogFiles()));
    var maxLines := GetOr(config, "max_lines", VInt(DefaultMaxLines));
    match Iterate(files) {
      case None =>
        return LogsError(Failure("'" + TypeName(files) + "' object is not iterable"), now);
      case Some(items) =>
        var logs: seq<LogReport> := [];
        var total: nat := 0;
        for i := 0 to |items|
          invariant Reports(items[..i], maxLines, env) == Ok(logs)
          invariant total == TotalEntries(logs)
        {
          ReportsSnoc(items, i, maxLines, env);
          match Normalize(items[i]) {
            case Err(e) =>
              ReportsFailFrom(items, i + 1, maxLines, env);
              return LogsError(Failure(e), now);
            case Ok(src) =>
              var more := ReportFor(src, maxLines, env);
              TotalSnoc(logs, more);
              logs := logs + more;
              total := total + if more == [] then 0 else more[0].count;
          }
        }
        assert items[..|items|] == items;
        return Logs(logs, total, now);
    }
  }

  lemma TotalSnoc(logs: seq<LogReport>, more: seq<LogReport>)
    requires |more| <= 1
    ensures TotalEntries(logs + more) == TotalEntries(logs) + if more == [] then 0 else more[0].count
  {
    if more != [] {
      assert (logs + more)[..|logs|] == logs;
    } else {
      assert logs + more == logs;
    }
  }

  /** Once a prefix fails, every longer prefix fails with the same error. */
  lemma {:induction false} ReportsFailFrom(items: seq<Value>, i: nat, maxLines: Value, env: Env)
    requires 0 < i <= |items|
    requires Reports(items[..i], maxLines, env).Err?
    ensures Reports(items, maxLines, env) == Reports(items[..i], maxLines, env)
    decreases |items| - i
  {
    if i < |items| {
      assert items[..i + 1][..i] == items[..i];
      ReportsFailFrom(items, i + 1, maxLines, env);
    } else {
      assert items[..i] == items;
    }
  }

  /** Every source has a path, so normalises. */
  predicate AllHavePaths(items: seq<Value>)
  {
    forall k :: 0 <= k < |items| ==> HasPath(items[k])
  }

  /** A listing fails only when one of its sources does not normalise. */
  lemma {:induction false} ReportsOkIffAllNormalize(items: seq<Value>, maxLines: Value, env: Env)
    ensures Reports(items, maxLines, env).Ok? <==> AllHavePaths(items)
    decreases |items|
  {
    if items != [] {
      var init := items[..|items| - 1];
      var last := items[|items| - 1];
      ReportsOkIffAllNormalize(init, maxLines, env);
      assert Reports(items, maxLines, env) == Step(Reports(init, maxLines, env), last, maxLines, env);
      StepOk(Reports(init, maxLines, env), last, maxLines, env);
      AllHavePathsLast(items);
    }
  }

  lemma AllHavePathsLast(items: seq<Value>)
    requires items != []
    ensures AllHavePaths(items) <==> AllHavePaths(items[..|items| - 1]) && HasPath(items[|items| - 1])
  {
    var init := items[..|items| - 1];
    assert forall k :: 0 <= k < |init| ==> init[k] == items[k];
  }

  lemma StepOk(acc: Result<seq<LogReport>>, item: Value, maxLines: Value, env: Env)
    ensures Step(acc, item, maxLines, env).Ok? <==> acc.Ok? && HasPath(item)
  {
  }

  /** With the default settings every default source is read, and what is
      reported is well counted. */
  lemma DefaultsReported(env: Env)
    ensures Reports(DefaultLogFiles(), VInt(DefaultMaxLines), env).Ok?
    ensures WellCounted(Reports(DefaultLogFiles(), VInt(DefaultMaxLines), env).value)
  {
    var d := DefaultLogFiles();
    DefaultsHavePaths();
    ReportsOkIffAllNormalize(d, VInt(DefaultMaxLines), env);
    ReportsWellCounted(d, VInt(DefaultMaxLines), env);
  }

  /** Every default source is a dict whose first key is a string `path`. */
  lemma DefaultsHavePaths()
    ensures forall k :: 0 <= k < |DefaultLogFiles()| ==> HasPath(DefaultLogFiles()[k])
  {
    var d := DefaultLogFiles();
    PathFirst(d[0]);
    PathFirst(d[1]);
    PathFirst(d[2]);
    PathFirst(d[3]);
    PathFirst(d[4]);
    forall k | 0 <= k < |d|
      ensures HasPath(d[k])
    {
      assert k == 0 || k == 1 || k == 2 || k == 3 || k == 4;
    }
  }

  lemma PathFirst(v: Value)
    requires v.VDict? && v.entries != [] && v.entries[0].0 == "path" && v.entries[0].1.VStr?
    ensures HasPath(v)
  {
  }
}

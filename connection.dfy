/** A monitored connection: its configuration columns, the cached result of the
    latest check, and the operations that update that cache and read the
    connection's history. */
module Connections {
  import opened Common
  import opened History

  const DefaultTimeout: int := 10
  const DefaultCheckInterval: int := 60
  const DefaultChartLimit: nat := 20

  /** The column names of the table; `hasattr` is true exactly for these among
      the keywords the constructor is given. */
  const Columns: set<string> := {
    "id", "name", "description", "connection_type", "target", "port", "timeout",
    "check_interval", "is_active", "created_at", "updated_at", "logo_filename",
    "last_check", "last_status", "last_response_time", "last_error", "config_options"
  }

  /** What the `timeout` or `check_interval` column holds as the database gives
      it back: an integer, NULL, or the blank string that SQLite keeps as text
      when `''` is written to an integer column. */
  datatype IntColumn = IntValue(n: int) | NullValue | BlankValue

  /** A snapshot of every column of one connection. */
  datatype ConnectionRecord = ConnectionRecord(
    id: int,
    name: string,
    description: Option<string>,
    connectionType: string,
    target: string,
    port: Option<int>,
    timeout: IntColumn,
    checkInterval: IntColumn,
    isActive: bool,
    createdAt: int,
    updatedAt: Option<int>,
    logoFilename: Option<string>,
    lastCheck: Option<int>,
    lastStatus: Option<string>,
    lastResponseTime: Option<real>,
    lastError: Option<string>,
    configOptions: Option<Value>)

  /** One column of the table. */
  datatype Column =
    | IdCol | NameCol | DescriptionCol | ConnectionTypeCol | TargetCol | PortCol
    | TimeoutCol | CheckIntervalCol | IsActiveCol | CreatedAtCol | UpdatedAtCol
    | LogoFilenameCol | LastCheckCol | LastStatusCol | LastResponseTimeCol
    | LastErrorCol | ConfigOptionsCol

  /** The attribute name of a column. */
  function ColumnName(col: Column): string
  {
    match col
    case IdCol => "id"
    case NameCol => "name"
    case DescriptionCol => "description"
    case ConnectionTypeCol => "connection_type"
    case TargetCol => "target"
    case PortCol => "port"
    case TimeoutCol => "timeout"
    case CheckIntervalCol => "check_interval"
    case IsActiveCol => "is_active"
    case CreatedAtCol => "created_at"
    case UpdatedAtCol => "updated_at"
    case LogoFilenameCol => "logo_filename"
    case LastCheckCol => "last_check"
    case LastStatusCol => "last_status"
    case LastResponseTimeCol => "last_response_time"
    case LastErrorCol => "last_error"
    case ConfigOptionsCol => "config_options"
  }

  /** `hasattr(connection, key)`: the column an attribute name denotes. */
  function ColumnOf(key: string): (r: Option<Column>)
    ensures r.Some? <==> key in Columns
    ensures r.Some? ==> ColumnName(r.value) == key
  {
    match key
    case "id" => Some(IdCol)
    case "name" => Some(NameCol)
    case "description" => Some(DescriptionCol)
    case "connection_type" => Some(ConnectionTypeCol)
    case "target" => Some(TargetCol)
    case "port" => Some(PortCol)
    case "timeout" => Some(TimeoutCol)
    case "check_interval" => Some(CheckIntervalCol)
    case "is_active" => Some(IsActiveCol)
    case "created_at" => Some(CreatedAtCol)
    case "updated_at" => Some(UpdatedAtCol)
    case "logo_filename" => Some(LogoFilenameCol)
    case "last_check" => Some(LastCheckCol)
    case "last_status" => Some(LastStatusCol)
    case "last_response_time" => Some(LastResponseTimeCol)
    case "last_error" => Some(LastErrorCol)
    case "config_options" => Some(ConfigOptionsCol)
    case _ => None
  }

  /** Every column is found again under its own name. */
  lemma ColumnOfName(col: Column)
    ensures ColumnOf(ColumnName(col)) == Some(col)
  {
    match col
    case IdCol =>
    case NameCol =>
    case DescriptionCol =>
    case ConnectionTypeCol =>
    case TargetCol =>
    case PortCol =>
    case TimeoutCol =>
    case CheckIntervalCol =>
    case IsActiveCol =>
    case CreatedAtCol =>
    case UpdatedAtCol =>
    case LogoFilenameCol =>
    case LastCheckCol =>
    case LastStatusCol =>
    case LastResponseTimeCol =>
    case LastErrorCol =>
    case ConfigOptionsCol =>
  }

  /** The integer SQLite's integer affinity makes of `v`: an int as it is, a
      bool as 0 or 1 (the driver binds it as an int), and a float with an
      integral value as that integer. */
  function IntegerOf(v: Value): (r: Option<int>)
    ensures v.VInt? ==> r == Some(v.i)
    ensures v.VBool? ==> r == Some(if v.b then 1 else 0)
    ensures r.Some? ==> v.VInt? || v.VBool? || v.VReal?
  {
    match v
    case VInt(i) => Some(i)
    case VBool(b) => Some(if b then 1 else 0)
    case VReal(x) => if x.Floor as real == x then Some(x.Floor) else None
    case _ => None
  }

  /** The text SQLite's text affinity makes of `v`: a string as it is, an int
      in decimal, a bool (bound as an int) as "1" or "0". */
  function TextOf(v: Value): (r: Option<string>)
    ensures v.VStr? ==> r == Some(v.s)
    ensures v.VInt? ==> r == Some(IntToString(v.i))
    ensures r.Some? ==> v.VStr? || v.VInt? || v.VBool?
  {
    match v
    case VStr(s) => Some(s)
    case VInt(i) => Some(IntToString(i))
    case VBool(b) => Some(if b then "1" else "0")
    case _ => None
  }

  /** A NOT NULL text column after `v` is written. */
  function TextCell(v: Value, current: string): string
  {
    match TextOf(v)
    case Some(t) => t
    case None => current
  }

  /** A nullable text column after `v` is written. */
  function OptString(v: Value, current: Option<string>): Option<string>
  {
    if v.VNone? then None
    else match TextOf(v)
      case Some(t) => Some(t)
      case None => current
  }

  /** A nullable timestamp column after `v` is written. */
  function OptInt(v: Value, current: Option<int>): Option<int>
  {
    match v
    case VNone => None
    case VInt(i) => Some(i)
    case _ => current
  }

  /** The port column after `v` is written. A blank string, which SQLite keeps
      as text, is read as no port: every reader of the column only tests its
      truthiness or uses its integer. */
  function PortCell(v: Value, current: Option<int>): Option<int>
  {
    if v.VNone? || v == VStr("") then None
    else match IntegerOf(v)
      case Some(n) => Some(n)
      case None => current
  }

  /** The `timeout` or `check_interval` column after `v` is written. */
  function IntCell(v: Value, current: IntColumn): IntColumn
  {
    if v.VNone? then NullValue
    else if v == VStr("") then BlankValue
    else match IntegerOf(v)
      case Some(n) => IntValue(n)
      case None => current
  }

  /** The columns declared `nullable=False` (and the primary key). */
  predicate NotNull(col: Column)
  {
    col.IdCol? || col.NameCol? || col.ConnectionTypeCol? || col.TargetCol? || col.IsActiveCol? || col.CreatedAtCol?
  }

  /** The database accepts `v` in column `col` at the commit: a list or a dict
      only in the JSON column, and `None` only in a nullable column. */
  predicate Storable(col: Column, v: Value)
  {
    && ((v.VList? || v.VDict?) ==> col.ConfigOptionsCol?)
    && (v.VNone? ==> !NotNull(col))
  }

  /** Every keyword argument that names a column holds a value the database
      accepts there. */
  predicate KwargsStorable(kwargs: seq<(string, Value)>)
  {
    forall k :: 0 <= k < |kwargs| && ColumnOf(kwargs[k].0).Some? ==> Storable(ColumnOf(kwargs[k].0).value, kwargs[k].1)
  }

  /** Assigning `v` to one column of a snapshot, as the database stores it at
      the commit: text columns take strings, ints and bools as SQLite's text
      for them, integer columns take ints, bools and integral floats as
      integers, and `None` empties a nullable column. A value the commit
      refuses (see `Storable`) or one the model does not convert leaves the
      column as it was. */
  function SetColumn(c: ConnectionRecord, col: Column, v: Value): ConnectionRecord
  {
    match col
    case IdCol => if v.VInt? then c.(id := v.i) else c
    case NameCol => c.(name := TextCell(v, c.name))
    case DescriptionCol => c.(description := OptString(v, c.description))
    case ConnectionTypeCol => c.(connectionType := TextCell(v, c.connectionType))
    case TargetCol => c.(target := TextCell(v, c.target))
    case PortCol => c.(port := PortCell(v, c.port))
    case TimeoutCol => c.(timeout := IntCell(v, c.timeout))
    case CheckIntervalCol => c.(checkInterval := IntCell(v, c.checkInterval))
    case IsActiveCol => if v.VBool? then c.(isActive := v.b) else c
    case CreatedAtCol => if v.VInt? then c.(createdAt := v.i) else c
    case UpdatedAtCol => c.(updatedAt := OptInt(v, c.updatedAt))
    case LogoFilenameCol => c.(logoFilename := OptString(v, c.logoFilename))
    case LastCheckCol => c.(lastCheck := OptInt(v, c.lastCheck))
    case LastStatusCol => c.(lastStatus := OptString(v, c.lastStatus))
    case LastResponseTimeCol =>
      (match v
       case VNone => c.(lastResponseTime := None)
       case VReal(x) => c.(lastResponseTime := Some(x))
       case VInt(i) => c.(lastResponseTime := Some(i as real))
       case _ => c)
    case LastErrorCol => c.(lastError := OptString(v, c.lastError))
    case ConfigOptionsCol => c.(configOptions := if v.VNone? then None else Some(v))
  }

  /** `setattr(connection, key, v)` on a snapshot, as the constructor does it
      for each keyword that `hasattr` accepts; other keys leave the snapshot
      as it was. */
  function WithAttr(c: ConnectionRecord, key: string, v: Value): (r: ConnectionRecord)
    ensures key !in Columns ==> r == c
    ensures key == "name" && v.VStr? ==> r == c.(name := v.s)
    ensures key == "name" && v.VInt? ==> r == c.(name := IntToString(v.i))
    ensures key == "port" && v.VInt? ==> r == c.(port := Some(v.i))
    ensures key == "port" && (v.VNone? || v == VStr("")) ==> r == c.(port := None)
    ensures key == "timeout" && v.VInt? ==> r == c.(timeout := IntValue(v.i))
    ensures key == "timeout" && v.VNone? ==> r == c.(timeout := NullValue)
    ensures key == "timeout" && v == VStr("") ==> r == c.(timeout := BlankValue)
    ensures key == "check_interval" && v.VNone? ==> r == c.(checkInterval := NullValue)
    ensures key == "check_interval" && v == VStr("") ==> r == c.(checkInterval := BlankValue)
    ensures key == "description" && v.VStr? ==> r == c.(description := Some(v.s))
    ensures key == "is_active" && v.VBool? ==> r == c.(isActive := v.b)
  {
    match ColumnOf(key)
    case None => c
    case Some(col) => SetColumn(c, col, v)
  }

  /** Two snapshots hold the same value in column `col`. */
  predicate Agree(a: ConnectionRecord, b: ConnectionRecord, col: Column)
  {
    match col
    case IdCol => a.id == b.id
    case NameCol => a.name == b.name
    case DescriptionCol => a.description == b.description
    case ConnectionTypeCol => a.connectionType == b.connectionType
    case TargetCol => a.target == b.target
    case PortCol => a.port == b.port
    case TimeoutCol => a.timeout == b.timeout
    case CheckIntervalCol => a.checkInterval == b.checkInterval
    case IsActiveCol => a.isActive == b.isActive
    case CreatedAtCol => a.createdAt == b.createdAt
    case UpdatedAtCol => a.updatedAt == b.updatedAt
    case LogoFilenameCol => a.logoFilename == b.logoFilename
    case LastCheckCol => a.lastCheck == b.lastCheck
    case LastStatusCol => a.lastStatus == b.lastStatus
    case LastResponseTimeCol => a.lastResponseTime == b.lastResponseTime
    case LastErrorCol => a.lastError == b.lastError
    case ConfigOptionsCol => a.configOptions == b.configOptions
  }

  /** Every column other than `col` holds the same value in both snapshots. */
  predicate SameExcept(a: ConnectionRecord, b: ConnectionRecord, col: Column)
  {
    && (col.IdCol? || a.id == b.id)
    && (col.NameCol? || a.name == b.name)
    && (col.DescriptionCol? || a.description == b.description)
    && (col.ConnectionTypeCol? || a.connectionType == b.connectionType)
    && (col.TargetCol? || a.target == b.target)
    && (col.PortCol? || a.port == b.port)
    && (col.TimeoutCol? || a.timeout == b.timeout)
    && (col.CheckIntervalCol? || a.checkInterval == b.checkInterval)
    && (col.IsActiveCol? || a.isActive == b.isActive)
    && (col.CreatedAtCol? || a.createdAt == b.createdAt)
    && (col.UpdatedAtCol? || a.updatedAt == b.updatedAt)
    && (col.LogoFilenameCol? || a.logoFilename == b.logoFilename)
    && (col.LastCheckCol? || a.lastCheck == b.lastCheck)
    && (col.LastStatusCol? || a.lastStatus == b.lastStatus)
    && (col.LastResponseTimeCol? || a.lastResponseTime == b.lastResponseTime)
    && (col.LastErrorCol? || a.lastError == b.lastError)
    && (col.ConfigOptionsCol? || a.configOptions == b.configOptions)
  }

  /** Assigning one column leaves every other column as it was. */
  lemma SetColumnOnlyThatColumn(c: ConnectionRecord, col: Column, v: Value)
    ensures SameExcept(c, SetColumn(c, col, v), col)
  {
    match col
    case IdCol =>
    case NameCol =>
    case DescriptionCol =>
    case ConnectionTypeCol =>
    case TargetCol =>
    case PortCol =>
    case TimeoutCol =>
    case CheckIntervalCol =>
    case IsActiveCol =>
    case CreatedAtCol =>
    case UpdatedAtCol =>
    case LogoFilenameCol =>
    case LastCheckCol =>
    case LastStatusCol =>
    case LastResponseTimeCol =>
    case LastErrorCol =>
    case ConfigOptionsCol =>
  }

  /** `setattr` touches only the named column, and a key that names no column
      changes nothing. */
  lemma WithAttrOnlyThatColumn(c: ConnectionRecord, key: string, v: Value)
    ensures ColumnOf(key).None? ==> WithAttr(c, key, v) == c
    ensures ColumnOf(key).Some? ==> SameExcept(c, WithAttr(c, key, v), ColumnOf(key).value)
  {
    if ColumnOf(key).Some? {
      SetColumnOnlyThatColumn(c, ColumnOf(key).value, v);
    }
  }

  /** The keyword arguments applied in order, each only if it names a column. */
  function ApplyKwargs(c: ConnectionRecord, kwargs: seq<(string, Value)>): ConnectionRecord
    decreases |kwargs|
  {
    if kwargs == [] then c
    else ApplyKwargs(WithAttr(c, kwargs[0].0, kwargs[0].1), kwargs[1..])
  }

  lemma {:induction false} ApplyKwargsSnoc(c: ConnectionRecord, kwargs: seq<(string, Value)>, kv: (string, Value))
    ensures ApplyKwargs(c, kwargs + [kv]) == WithAttr(ApplyKwargs(c, kwargs), kv.0, kv.1)
    decreases |kwargs|
  {
    if kwargs != [] {
      assert (kwargs + [kv])[1..] == kwargs[1..] + [kv];
      ApplyKwargsSnoc(WithAttr(c, kwargs[0].0, kwargs[0].1), kwargs[1..], kv);
    }
  }

  /** Keyword arguments that name no column change nothing. */
  lemma {:induction false} UnknownKwargsIgnored(c: ConnectionRecord, kwargs: seq<(string, Value)>)
    requires forall k :: 0 <= k < |kwargs| ==> kwargs[k].0 !in Columns
    ensures ApplyKwargs(c, kwargs) == c
    decreases |kwargs|
  {
    if kwargs != [] {
      UnknownKwargsIgnored(c, kwargs[1..]);
    }
  }

  /** A column no keyword names keeps the value it had. */
  lemma {:induction false} KwargsKeepUnnamed(c: ConnectionRecord, kwargs: seq<(string, Value)>, col: Column)
    requires forall k :: 0 <= k < |kwargs| ==> kwargs[k].0 != ColumnName(col)
    ensures Agree(ApplyKwargs(c, kwargs), c, col)
    decreases |kwargs|
  {
    if kwargs != [] {
      var c1 := WithAttr(c, kwargs[0].0, kwargs[0].1);
      WithAttrOnlyThatColumn(c, kwargs[0].0, kwargs[0].1);
      if ColumnOf(kwargs[0].0).Some? {
        SameExceptAgree(c, c1, ColumnOf(kwargs[0].0).value, col);
      }
      KwargsKeepUnnamed(c1, kwargs[1..], col);
      AgreeTransitive(ApplyKwargs(c1, kwargs[1..]), c1, c, col);
    }
  }

  /** What assigning a column stores depends only on that column's previous
      value. */
  lemma SetColumnAgree(a: ConnectionRecord, b: ConnectionRecord, col: Column, v: Value)
    requires Agree(a, b, col)
    ensures Agree(SetColumn(a, col, v), SetColumn(b, col, v), col)
  {
  }

  /** Among keyword arguments with distinct names, the one naming a column
      decides it: the result holds what that single assignment would store. */
  lemma {:induction false} KwargsSingleWrite(c: ConnectionRecord, kwargs: seq<(string, Value)>, i: nat, col: Column)
    requires i < |kwargs| && ColumnOf(kwargs[i].0) == Some(col)
    requires forall k :: 0 <= k < |kwargs| && k != i ==> kwargs[k].0 != kwargs[i].0
    ensures Agree(ApplyKwargs(c, kwargs), WithAttr(c, kwargs[i].0, kwargs[i].1), col)
    decreases |kwargs|
  {
    var c1 := WithAttr(c, kwargs[0].0, kwargs[0].1);
    ColumnOfName(col);
    if i == 0 {
      KwargsKeepUnnamed(c1, kwargs[1..], col);
    } else {
      WithAttrOnlyThatColumn(c, kwargs[0].0, kwargs[0].1);
      if ColumnOf(kwargs[0].0).Some? {
        SameExceptAgree(c, c1, ColumnOf(kwargs[0].0).value, col);
      }
      KwargsSingleWrite(c1, kwargs[1..], i - 1, col);
      SetColumnAgree(c1, c, col, kwargs[i].1);
      AgreeTransitive(ApplyKwargs(c1, kwargs[1..]), WithAttr(c1, kwargs[i].0, kwargs[i].1),
                      WithAttr(c, kwargs[i].0, kwargs[i].1), col);
    }
  }

  lemma SameExceptAgree(a: ConnectionRecord, b: ConnectionRecord, changed: Column, col: Column)
    requires SameExcept(a, b, changed) && changed != col
    ensures Agree(b, a, col)
  {
  }

  lemma AgreeTransitive(a: ConnectionRecord, b: ConnectionRecord, c: ConnectionRecord, col: Column)
    requires Agree(a, b, col) && Agree(b, c, col)
    ensures Agree(a, c, col)
  {
  }

  /** The initial snapshot before keyword arguments: name, type and target as
      given, column defaults elsewhere. */
  function Initial(name: string, connectionType: string, target: string, now: int): ConnectionRecord
  {
    ConnectionRecord(0, name, None, connectionType, target, None, IntValue(DefaultTimeout),
                     IntValue(DefaultCheckInterval), true, now, Some(now), None, None, None, None, None, None)
  }

  /** `get_status_color`. */
  function StatusColor(lastStatus: Option<string>): (r: string)
    ensures r in {"success", "danger", "warning", "secondary"}
    ensures r == "success" <==> lastStatus == Some(UP)
    ensures r == "danger" <==> lastStatus == Some(DOWN)
    ensures r == "warning" <==> lastStatus == Some(UNKNOWN)
  {
    match lastStatus
    case Some(s) =>
      if s == UP then "success"
      else if s == DOWN then "danger"
      else if s == UNKNOWN then "warning"
      else "secondary"
    case None => "secondary"
  }

  class Connection {
    var id: int
    var name: string
    var description: Option<string>
    var connectionType: string
    var target: string
    var port: Option<int>
    var timeout: IntColumn
    var checkInterval: IntColumn
    var isActive: bool
    var createdAt: int
    var updatedAt: Option<int>
    var logoFilename: Option<string>
    var lastCheck: Option<int>
    var lastStatus: Option<string>
    var lastResponseTime: Option<real>
    var lastError: Option<string>
    var configOptions: Option<Value>

    function Record(): ConnectionRecord
      reads this
    {
      ConnectionRecord(id, name, description, connectionType, target, port, timeout,
                       checkInterval, isActive, createdAt, updatedAt, logoFilename, lastCheck,
                       lastStatus, lastResponseTime, lastError, configOptions)
    }

    /** `setattr(self, key, value)`, as the column then reads back from the
        database: see `SetColumn`; a key that names no column changes
        nothing. */
    method SetAttr(key: string, v: Value)
      modifies this
      ensures Record() == WithAttr(old(Record()), key, v)
    {
      var col := ColumnOf(key);
      if col.Some? {
        var c := col.value;
        if c.IdCol? || c.NameCol? || c.DescriptionCol? {
          SetNamingColumn(c, v);
        } else if c.ConnectionTypeCol? || c.TargetCol? || c.PortCol? {
          SetEndpointColumn(c, v);
        } else if c.TimeoutCol? || c.CheckIntervalCol? || c.IsActiveCol? {
          SetScheduleColumn(c, v);
        } else if c.CreatedAtCol? || c.UpdatedAtCol? || c.LogoFilenameCol? {
          SetBookkeepingColumn(c, v);
        } else if c.LastCheckCol? || c.LastStatusCol? || c.LastResponseTimeCol? {
          SetLatestCheckColumn(c, v);
        } else {
          SetDetailColumn(c, v);
        }
      }
    }

    /** `setattr` on one of the columns naming the connection. */
    method SetNamingColumn(col: Column, v: Value)
      requires col.IdCol? || col.NameCol? || col.DescriptionCol?
      modifies this
      ensures Record() == SetColumn(old(Record()), col, v)
    {
      match col {
        case IdCol => if v.VInt? { id := v.i; }
        case NameCol => name := TextCell(v, name);
        case DescriptionCol => description := OptString(v, description);
      }
    }

    /** `setattr` on one of the columns locating the endpoint. */
    method SetEndpointColumn(col: Column, v: Value)
      requires col.ConnectionTypeCol? || col.TargetCol? || col.PortCol?
      modifies this
      ensures Record() == SetColumn(old(Record()), col, v)
    {
      match col {
        case ConnectionTypeCol => connectionType := TextCell(v, connectionType);
        case TargetCol => target := TextCell(v, target);
        case PortCol => port := PortCell(v, port);
      }
    }

    /** `setattr` on one of the scheduling columns. */
    method SetScheduleColumn(col: Column, v: Value)
      requires col.TimeoutCol? || col.CheckIntervalCol? || col.IsActiveCol?
      modifies this
      ensures Record() == SetColumn(old(Record()), col, v)
    {
      match col {
        case TimeoutCol => timeout := IntCell(v, timeout);
        case CheckIntervalCol => checkInterval := IntCell(v, checkInterval);
        case IsActiveCol => if v.VBool? { isActive := v.b; }
      }
    }

    /** `setattr` on one of the timestamp and logo columns. */
    method SetBookkeepingColumn(col: Column, v: Value)
      requires col.CreatedAtCol? || col.UpdatedAtCol? || col.LogoFilenameCol?
      modifies this
      ensures Record() == SetColumn(old(Record()), col, v)
    {
      match col {
        case CreatedAtCol => if v.VInt? { createdAt := v.i; }
        case UpdatedAtCol => updatedAt := OptInt(v, updatedAt);
        case LogoFilenameCol => logoFilename := OptString(v, logoFilename);
      }
    }

    /** `setattr` on one of the columns caching when and how the latest check ended. */
    method SetLatestCheckColumn(col: Column, v: Value)
      requires col.LastCheckCol? || col.LastStatusCol? || col.LastResponseTimeCol?
      modifies this
      ensures Record() == SetColumn(old(Record()), col, v)
    {
      match col {
        case LastCheckCol => lastCheck := OptInt(v, lastCheck);
        case LastStatusCol => lastStatus := OptString(v, lastStatus);
        case LastResponseTimeCol => 
            match v {
              case VNone => lastResponseTime := None;
              case VReal(x) => lastResponseTime := Some(x);
              case VInt(i) => lastResponseTime := Some(i as real);
              case _ =>
            }
      }
    }

    /** `setattr` on the error or options column. */
    method SetDetailColumn(col: Column, v: Value)
      requires col.LastErrorCol? || col.ConfigOptionsCol?
      modifies this
      ensures Record() == SetColumn(old(Record()), col, v)
    {
      match col {
        case LastErrorCol => lastError := OptString(v, lastError);
        case ConfigOptionsCol => configOptions := if v.VNone? then None else Some(v);
      }
    }

    /** `__init__`: name, type and target from the arguments, then each keyword
        argument that names a column, in order. */
    constructor (name: string, connectionType: string, target: string,
                 kwargs: seq<(string, Value)>, now: int)
      ensures Record() == ApplyKwargs(Initial(name, connectionType, target, now), kwargs)
    {
      this.id, this.name, this.description := 0, name, None;
      this.connectionType, this.target, this.port := connectionType, target, None;
      this.timeout, this.checkInterval, this.isActive := IntValue(DefaultTimeout), IntValue(DefaultCheckInterval), true;
      this.createdAt, this.updatedAt, this.logoFilename := now, Some(now), None;
      this.lastCheck, this.lastStatus, this.lastResponseTime := None, None, None;
      this.lastError, this.configOptions := None, None;
      new;
      ghost var start := Record();
      for i := 0 to |kwargs|
        invariant Record() == ApplyKwargs(start, kwargs[..i])
      {
        ApplyKwargsSnoc(start, kwargs[..i], kwargs[i]);
        assert kwargs[..i + 1] == kwargs[..i] + [kwargs[i]];
        SetAttr(kwargs[i].0, kwargs[i].1);
      }
      assert kwargs[..|kwargs|] == kwargs;
    }

    /** `update_status`: caches the result of a check, stamps it with `now`, and
        appends one history row (subject to the 50-row pruning). Nothing else in
        the connection changes. */
    method UpdateStatus(status: string, responseTime: Option<real>, error: Option<string>,
                        now: int, store: HistoryStore)
      returns (entry: HistoryEntry)
      requires store.Valid()
      modifies this, store
      ensures Record() == old(Record()).(lastCheck := Some(now), lastStatus := Some(status),
                                         lastResponseTime := responseTime, lastError := error,
                                         updatedAt := Some(now))
      ensures store.Valid() && store.nextId == old(store.nextId) + 1
      ensures entry == HistoryEntry(old(store.nextId), id, now, status, responseTime, error)
      ensures store.entries == Pruned(old(store.entries) + [entry], id)
    {
      CacheOutcome(status, responseTime, error);
      Stamp(now);
      entry := store.AddCheckResult(id, status, responseTime, error, now);
    }

    /** The three `last_*` columns describing how the latest check ended. */
    method CacheOutcome(status: string, responseTime: Option<real>, error: Option<string>)
      modifies this
      ensures Record() == old(Record()).(lastStatus := Some(status), lastResponseTime := responseTime,
                                         lastError := error)
    {
      lastStatus := Some(status);
      lastResponseTime := responseTime;
      lastError := error;
    }

    /** `last_check` and `updated_at` set to the current time. */
    method Stamp(now: int)
      modifies this
      ensures Record() == old(Record()).(lastCheck := Some(now), updatedAt := Some(now))
    {
      lastCheck := Some(now);
      updatedAt := Some(now);
    }

    /** `get_chart_history`: the `limit` newest rows of this connection, newest
        first from the query, then reversed in place into oldest-first order. */
    method ChartHistory(store: HistoryStore, limit: nat) returns (r: seq<HistoryEntry>)
      ensures r == ChartWindow(store.entries, id, limit)
    {
      var recent := Newest(ForConnection(store.entries, id), limit);
      var a := new HistoryEntry[|recent|](k requires 0 <= k < |recent| => recent[k]);
      assert a[..] == recent;
      ReverseInPlace(a);
      r := a[..];
    }

    /** `is_healthy`. */
    predicate IsHealthy()
      reads this
    {
      lastStatus == Some(UP)
    }

    /** `get_status_color`. */
    function GetStatusColor(): string
      reads this
    {
      StatusColor(lastStatus)
    }
  }

  /** `list.reverse()`. */
  method ReverseInPlace<T>(a: array<T>)
    modifies a
    ensures a[..] == Reversed(old(a[..]))
  {
    ghost var s := a[..];
    var n := a.Length;
    var i := 0;
    while i < n / 2
      invariant 0 <= i <= n / 2
      invariant forall k :: 0 <= k < i ==> a[k] == s[n - 1 - k] && a[n - 1 - k] == s[k]
      invariant forall k :: i <= k < n - i ==> a[k] == s[k]
    {
      a[i], a[n - 1 - i] := a[n - 1 - i], a[i];
      i := i + 1;
    }
    assert forall k :: 0 <= k < n ==> a[k] == Reversed(s)[k];
  }

  /** A connection is healthy exactly when its colour is "success". */
  lemma HealthyIffSuccess(c: Connection)
    ensures c.IsHealthy() <==> c.GetStatusColor() == "success"
  {
  }
}

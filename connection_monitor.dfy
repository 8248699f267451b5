/** The connection monitor widget: counts the active connections by their
    latest status, derives an overall health verdict, and lists every active
    connection with its median latency and its recent history for a chart.
    The connections table and the history table are inputs. */
module ConnectionMonitor {
  import opened Common
  import opened History
  import opened Connections

  const WidgetType: string := "connection_monitor"
  const DisplayName: string := "Connection Monitor"
  const Description: string := "Monitor the status of configured connections and services"

  /** The median covers the 10 latest qualifying checks, the chart the 20 latest rows. */
  const MedianPeriods: nat := 10
  const HistoryLimit: nat := 20

  /** `default_config`. */
  function DefaultConfig(): (d: Dict)
    ensures Keys(d) == ["refresh_interval", "show_response_times", "max_connections_display"]
  {
    [("refresh_interval", VInt(60)), ("show_response_times", VBool(true)),
     ("max_connections_display", VInt(10))]
  }

  // ----------------------------------------------------------- counting

  /** `Connection.query.filter_by(is_active=True).all()`, in table order. */
  function Active(rows: seq<ConnectionRecord>): (r: seq<ConnectionRecord>)
    ensures |r| <= |rows|
    ensures forall k :: 0 <= k < |r| ==> r[k].isActive
    decreases |rows|
  {
    if rows == [] then []
    else (if rows[0].isActive then [rows[0]] else []) + Active(rows[1..])
  }

  /** The query returns exactly the active connections. */
  lemma {:induction false} ActiveMembers(rows: seq<ConnectionRecord>)
    ensures forall c :: c in Active(rows) <==> c in rows && c.isActive
    decreases |rows|
  {
    if rows != [] {
      ActiveMembers(rows[1..]);
    }
  }

  /** `sum(1 for conn in connections if conn.last_status == status)`. */
  function CountWith(conns: seq<ConnectionRecord>, status: string): nat
    decreases |conns|
  {
    if conns == [] then 0
    else (if conns[0].lastStatus == Some(status) then 1 else 0) + CountWith(conns[1..], status)
  }

  /** Counting splits over a concatenation of connection lists. */
  lemma {:induction false} CountWithAppend(a: seq<ConnectionRecord>, b: seq<ConnectionRecord>, status: string)
    ensures CountWith(a + b, status) == CountWith(a, status) + CountWith(b, status)
    decreases |a|
  {
    if a == [] {
      assert a + b == b;
    } else {
      assert (a + b)[1..] == a[1..] + b;
      CountWithAppend(a[1..], b, status);
    }
  }

  /** The three counts never exceed the total (connections never checked, or
      with another status, are in none of them), and reach it exactly when
      every connection's status is one of the three. */
  lemma {:induction false} CountsWithinTotal(conns: seq<ConnectionRecord>)
    ensures CountWith(conns, UP) + CountWith(conns, DOWN) + CountWith(conns, UNKNOWN) <= |conns|
    ensures CountWith(conns, UP) + CountWith(conns, DOWN) + CountWith(conns, UNKNOWN) == |conns|
        <==> forall k :: 0 <= k < |conns| ==> conns[k].lastStatus in {Some(UP), Some(DOWN), Some(UNKNOWN)}
    decreases |conns|
  {
    if conns != [] {
      CountsWithinTotal(conns[1..]);
      assert forall k :: 1 <= k < |conns| ==> conns[k] == conns[1..][k - 1];
    }
  }

  datatype Health = Health(status: string, message: string)

  /** Lines 39-50: no connections is a warning; otherwise no connection down
      is a success (unknown ones do not count against it), every connection
      down is danger, and anything between is a warning naming how many are
      down. */
  function OverallHealth(total: nat, down: nat): (h: Health)
    ensures h.status == "success" <==> total > 0 && down == 0
    ensures h.status == "danger" <==> total > 0 && down == total
    ensures h.status == "warning" <==> total == 0 || (down != 0 && down != total)
    ensures total == 0 ==> h.message == "No connections configured"
    ensures total > 0 && down == 0 ==> h.message == "All services are up"
    ensures total > 0 && down == total ==> h.message == "All services are down"
    ensures total > 0 && down != 0 && down != total ==> h.message == IntToString(down) + " service(s) down"
  {
    if total == 0 then Health("warning", "No connections configured")
    else if down == 0 then Health("success", "All services are up")
    else if down == total then Health("danger", "All services are down")
    else Health("warning", IntToString(down) + " service(s) down")
  }

  datatype Summary = Summary(total: nat, up: nat, down: nat, unknown: nat, health: Health)

  function Summarize(conns: seq<ConnectionRecord>): (s: Summary)
    ensures s.total == |conns|
    ensures s.up == CountWith(conns, UP) && s.down == CountWith(conns, DOWN)
    ensures s.unknown == CountWith(conns, UNKNOWN)
    ensures s.up + s.down + s.unknown <= s.total
    ensures s.health == OverallHealth(s.total, s.down)
  {
    CountsWithinTotal(conns);
    var down := CountWith(conns, DOWN);
    Summary(|conns|, CountWith(conns, UP), down, CountWith(conns, UNKNOWN), OverallHealth(|conns|, down))
  }

  // ----------------------------------------------------------- the list

  /** One point of a connection's chart. */
  datatype ChartPoint = ChartPoint(timestamp: int, responseTime: Option<real>, status: string)

  function Point(e: HistoryEntry): ChartPoint
  {
    ChartPoint(e.timestamp, e.responseTime, e.status)
  }

  /** The chart points of the rows, in the same order. */
  function Points(rows: seq<HistoryEntry>): (r: seq<ChartPoint>)
    ensures |r| == |rows|
    ensures forall k :: 0 <= k < |rows| ==> r[k] == Point(rows[k])
  {
    seq(|rows|, k requires 0 <= k < |rows| => Point(rows[k]))
  }

  datatype Item = Item(
    id: int,
    name: string,
    description: Option<string>,
    connectionType: string,
    target: string,
    status: string,
    responseTime: Option<real>,
    medianResponseTime: Option<real>,
    lastCheck: Option<int>,
    error: Option<string>,
    statusColor: string,
    history: seq<ChartPoint>)

  /** `conn.last_status or 'unknown'`: an unset or empty status shows as unknown. */
  function ShownStatus(lastStatus: Option<string>): (s: string)
    ensures s != ""
    ensures lastStatus.Some? && lastStatus.value != "" ==> s == lastStatus.value
    ensures lastStatus.None? || lastStatus == Some("") ==> s == UNKNOWN
  {
    match lastStatus
    case Some(s) => if s != "" then s else UNKNOWN
    case None => UNKNOWN
  }

  /** The list entry of one active connection. */
  function ItemFor(c: ConnectionRecord, table: seq<HistoryEntry>): Item
  {
    Item(c.id, c.name, c.description, c.connectionType, c.target, ShownStatus(c.lastStatus),
         c.lastResponseTime, MedianResponseTime(table, c.id, MedianPeriods), c.lastCheck,
         c.lastError, StatusColor(c.lastStatus), Points(ChartWindow(table, c.id, HistoryLimit)))
  }

  /** Lines 55-69: an item's chart holds at most the 20 newest rows of its
      connection, oldest first, and its median is the history's median over
      the 10 latest qualifying rows. */
  lemma ItemHistory(c: ConnectionRecord, table: seq<HistoryEntry>)
    ensures |ItemFor(c, table).history| <= HistoryLimit
    ensures forall i, j :: 0 <= i < j < |ItemFor(c, table).history| ==>
              ItemFor(c, table).history[i].timestamp <= ItemFor(c, table).history[j].timestamp
    ensures ItemFor(c, table).medianResponseTime.None? <==> MedianSample(table, c.id, MedianPeriods) == []
  {
    var w := ChartWindow(table, c.id, HistoryLimit);
    var h := ItemFor(c, table).history;
    assert h == Points(w);
    ChartWindowContents(table, c.id, HistoryLimit);
    ChartWindowOrder(table, c.id, HistoryLimit);
    forall i, j | 0 <= i < j < |h|
      ensures h[i].timestamp <= h[j].timestamp
    {
      assert NewerOrSame(w[j], w[i]);
      assert h[i] == Point(w[i]) && h[j] == Point(w[j]);
    }
  }

  /** Lines 58-69: the 20 newest rows of the connection, newest first from the
      query, walked backwards into chart points. */
  method HistoryData(table: seq<HistoryEntry>, cid: int) returns (history: seq<ChartPoint>)
    ensures history == Points(ChartWindow(table, cid, HistoryLimit))
  {
    var recent := Newest(ForConnection(table, cid), HistoryLimit);
    history := ReversedPoints(recent);
  }

  /** The loop of `get_data` over `reversed(recent_history)`: walks `recent` from its last row to its first. */
  method ReversedPoints(recent: seq<HistoryEntry>) returns (history: seq<ChartPoint>)
    ensures history == Points(Reversed(recent))
  {
    history := [];
    for j := 0 to |recent|
      invariant |history| == j
      invariant forall k :: 0 <= k < j ==> history[k] == Point(recent[|recent| - 1 - k])
    {
      history := history + [Point(recent[|recent| - 1 - j])];
    }
    var p := Points(Reversed(recent));
    forall k | 0 <= k < |p|
      ensures p[k] == history[k]
    {
      assert Reversed(recent)[k] == recent[|recent| - 1 - k];
    }
  }

  datatype MonitorData =
    | MonitorData(summary: Summary, connections: seq<Item>, timestamp: int)
    | MonitorError(error: string, timestamp: int)

  /** `get_data`: the summary of the active connections and one item per
      active connection, in query order; a failing query gives the error
      payload. Both carry the time `now` of the call. Each chart is built by
      walking the newest-first rows backwards. */
  method GetData(rows: Result<seq<ConnectionRecord>>, table: seq<HistoryEntry>, now: int) returns (r: MonitorData)
    ensures rows.Err? ==> r == MonitorError("Failed to get connection data: " + rows.error, now)
    ensures r.timestamp == now
    ensures rows.Ok? ==>
      && r.MonitorData?
      && r.summary == Summarize(Active(rows.value))
      && |r.connections| == |Active(rows.value)|
      && forall k :: 0 <= k < |r.connections| ==> r.connections[k] == ItemFor(Active(rows.value)[k], table)
  {
    if rows.Err? {
      return MonitorError("Failed to get connection data: " + rows.error, now);
    }
    var conns := Active(rows.value);
    var items: seq<Item> := [];
    for i := 0 to |conns|
      invariant |items| == i
      invariant forall k :: 0 <= k < i ==> items[k] == ItemFor(conns[k], table)
    {
      var c := conns[i];
      var history := HistoryData(table, c.id);
      var item := Item(c.id, c.name, c.description, c.connectionType, c.target, ShownStatus(c.lastStatus),
                       c.lastResponseTime, MedianResponseTime(table, c.id, MedianPeriods), c.lastCheck,
                       c.lastError, StatusColor(c.lastStatus), history);
      items := items + [item];
    }
    return MonitorData(Summarize(conns), items, now);
  }
}

/** The background monitor: one cycle checks every active connection in
    query order and records each result with `update_status`, a failure on
    one connection being recorded in its place; the main loop repeats cycles
    with a pause after each until interrupted. The network each check meets,
    the clock and the exceptions raised are inputs. */
module MonitorService {
  import opened Common
  import opened History
  import opened Connections
  import opened Checker

  // ------------------------------------------------------------ one cycle

  /** What one connection's turn of a cycle meets: the environment its check
      sees, the message of an exception raised in the `try` body before the
      check (the logging call), if any, and the clock at `update_status`. */
  datatype Turn = Turn(env: Environment, fault: Option<string>, now: int)

  /** `Connection.query.filter_by(is_active=True).all()`: the positions of the
      active rows, in query order. */
  function ActivePositions(recs: seq<ConnectionRecord>): (ps: seq<nat>)
    ensures forall k :: 0 <= k < |ps| ==> ps[k] < |recs| && recs[ps[k]].isActive
    ensures forall i :: 0 <= i < |recs| && recs[i].isActive ==> i in ps
    ensures forall k, l :: 0 <= k < l < |ps| ==> ps[k] < ps[l]
    decreases |recs|
  {
    if recs == [] then []
    else
      var n := |recs| - 1;
      ActivePositions(recs[..n]) + (if recs[n].isActive then [n] else [])
  }

  /** The triple handed to `update_status`: the checker's, or on an
      exception `('unknown', None, str(e))`. */
  function TurnResult(r: ConnectionRecord, t: Turn): (res: CheckResult)
  {
    match t.fault
    case None => Check(r, t.env)
    case Some(m) => CheckResult(UNKNOWN, None, Some(m))
  }

  /** The connection after `update_status(res.status, res.responseTime,
      res.error)` at `now`, once `check_connection` has run on it (when
      `checked`): a database connection then carries its inferred port. */
  function Stored(r: ConnectionRecord, checked: bool, res: CheckResult, now: int): ConnectionRecord
  {
    var c := if checked && r.connectionType == "database"
             then r.(port := DatabasePort(r.target, r.port)) else r;
    c.(lastCheck := Some(now), lastStatus := Some(res.status),
       lastResponseTime := res.responseTime, lastError := res.error, updatedAt := Some(now))
  }

  /** The connection after its turn. */
  function AfterTurn(r: ConnectionRecord, t: Turn): ConnectionRecord
  {
    Stored(r, t.fault.None?, TurnResult(r, t), t.now)
  }

  /** A connection after the cycle: its turn's outcome when active, as it
      was otherwise. */
  function AfterCycle(r: ConnectionRecord, t: Turn): ConnectionRecord
  {
    if r.isActive then AfterTurn(r, t) else r
  }

  /** The history table with the id its next row gets. */
  datatype Log = Log(entries: seq<HistoryEntry>, nextId: nat)

  /** `add_check_result` for one result of connection `cid`: a fresh row
      with the next id, then that connection's pruning. */
  function LogRow(log: Log, cid: int, res: CheckResult, now: int): Log
  {
    var e := HistoryEntry(log.nextId, cid, now, res.status, res.responseTime, res.error);
    Log(Pruned(log.entries + [e], cid), log.nextId + 1)
  }

  /** The history after the turns of the first `n` rows of the table, from
      `start`: one `add_check_result` per active connection, in order. */
  function CycleLog(recs: seq<ConnectionRecord>, turns: seq<Turn>, start: Log, n: nat): Log
    requires n <= |recs| && |turns| == |recs|
  {
    if n == 0 then start
    else
      var before := CycleLog(recs, turns, start, n - 1);
      var r := recs[n - 1];
      if r.isActive then LogRow(before, r.id, TurnResult(r, turns[n - 1]), turns[n - 1].now) else before
  }

  /** One more row adds its own position when it is active. */
  lemma ActivePositionsStep(recs: seq<ConnectionRecord>, i: nat)
    requires i < |recs|
    ensures ActivePositions(recs[..i + 1]) == ActivePositions(recs[..i]) + (if recs[i].isActive then [i] else [])
  {
    assert recs[..i + 1][..i] == recs[..i];
  }

  /** The rows of the table's connections as they stand. */
  function Records(table: seq<Connection>): (rs: seq<ConnectionRecord>)
    reads table
    ensures |rs| == |table|
    ensures forall i :: 0 <= i < |table| ==> rs[i] == table[i].Record()
    decreases |table|
  {
    if table == [] then [] else [table[0].Record()] + Records(table[1..])
  }

  /** Lines 33-44 for one connection: the check's result, or the message of
      an exception the logging call before the check raised, stored with
      `update_status`. The check itself catches every exception. */
  method Visit(conn: Connection, store: HistoryStore, turn: Turn)
    requires store.Valid()
    modifies conn, store
    ensures conn.Record() == AfterTurn(old(conn.Record()), turn)
    ensures store.Valid()
    ensures Log(store.entries, store.nextId)
         == LogRow(old(Log(store.entries, store.nextId)), old(conn.id), TurnResult(old(conn.Record()), turn), turn.now)
  {
    var res: CheckResult;
    match turn.fault {
      case None =>
        res := CheckConnection(conn, turn.env);
      case Some(m) =>
        res := CheckResult(UNKNOWN, None, Some(m));
    }
    var entry := conn.UpdateStatus(res.status, res.responseTime, res.error, turn.now, store);
  }

  /** The turn of row `i` of the cycle: an active connection is visited, an
      inactive one skipped by the query. */
  method VisitRow(conn: Connection, store: HistoryStore, recs: seq<ConnectionRecord>, turns: seq<Turn>,
                  ghost start: Log, ghost logs: seq<Log>, ghost finals: seq<ConnectionRecord>, i: nat)
    requires i < |recs| && |turns| == |recs|
    requires |logs| == |recs| + 1
    requires forall k {:trigger CycleLog(recs, turns, start, k)} :: 0 <= k <= |recs| ==> logs[k] == CycleLog(recs, turns, start, k)
    requires |finals| == |recs|
    requires forall x {:trigger AfterCycle(recs[x], turns[x])} :: 0 <= x < |recs| ==> finals[x] == AfterCycle(recs[x], turns[x])
    requires store.Valid() && conn.Record() == recs[i]
    requires Log(store.entries, store.nextId) == logs[i]
    modifies conn, store
    ensures store.Valid() && conn.Record() == finals[i]
    ensures Log(store.entries, store.nextId) == logs[i + 1]
  {
    assert logs[i] == CycleLog(recs, turns, start, i);
    assert logs[i + 1] == CycleLog(recs, turns, start, i + 1);
    assert finals[i] == AfterCycle(recs[i], turns[i]);
    if conn.isActive {
      Visit(conn, store, turns[i]);
    }
  }

  /** `Connection.query.filter_by(is_active=True).all()`: the positions of
      the active rows, in table order. */
  method ActiveConnections(table: seq<Connection>) returns (ps: seq<nat>)
    ensures ps == ActivePositions(Records(table))
  {
    ghost var recs := Records(table);
    ps := [];
    for i := 0 to |table|
      invariant ps == ActivePositions(recs[..i])
    {
      ActivePositionsStep(recs, i);
      if table[i].isActive {
        ps := ps + [i];
      }
    }
    assert recs[..|table|] == recs;
  }

  /** `monitor_all_connections` over the connections table `table` (one
      object per row, in query order): the active connections are queried,
      then each is checked and its result stored with `update_status`; an
      exception in its turn is stored as `('unknown', None, str(e))` and the
      cycle goes on. The loop goes over every row and skips the inactive
      ones, which visits exactly the queried rows in their order, since
      nothing in a turn changes `is_active`. */
  method MonitorAllConnections(table: seq<Connection>, store: HistoryStore, turns: seq<Turn>)
    returns (visited: seq<nat>)
    requires |turns| == |table|
    requires forall i, j :: 0 <= i < j < |table| ==> table[i] != table[j]
    requires store.Valid()
    modifies table, store
    ensures visited == ActivePositions(old(Records(table)))
    ensures store.Valid()
    ensures forall i :: 0 <= i < |table| ==> table[i].Record() == AfterCycle(old(table[i].Record()), turns[i])
    ensures Log(store.entries, store.nextId)
         == CycleLog(old(Records(table)), turns, old(Log(store.entries, store.nextId)), |table|)
  {
    visited := ActiveConnections(table);
    CheckRows(table, store, turns);
  }

  /** The loop of `monitor_all_connections`, over every row of the table. */
  method CheckRows(table: seq<Connection>, store: HistoryStore, turns: seq<Turn>)
    requires |turns| == |table|
    requires forall i, j :: 0 <= i < j < |table| ==> table[i] != table[j]
    requires store.Valid()
    modifies table, store
    ensures store.Valid()
    ensures forall i :: 0 <= i < |table| ==> table[i].Record() == AfterCycle(old(table[i].Record()), turns[i])
    ensures Log(store.entries, store.nextId)
         == CycleLog(old(Records(table)), turns, old(Log(store.entries, store.nextId)), |table|)
  {
    var recs := Records(table);
    ghost var start := Log(store.entries, store.nextId);
    assert recs == old(Records(table)) && start == old(Log(store.entries, store.nextId));
    ghost var logs := CycleLogs(recs, turns, start);
    ghost var finals := CycleRecords(recs, turns);
    assert logs[0] == CycleLog(recs, turns, start, 0);
    for i := 0 to |table|
      invariant store.Valid()
      invariant Log(store.entries, store.nextId) == logs[i]
      invariant forall x :: 0 <= x < |table| ==> table[x].Record() == if x < i then finals[x] else recs[x]
    {
      VisitTableRow(table, store, recs, turns, start, logs, finals, i);
    }
    assert logs[|table|] == CycleLog(recs, turns, start, |table|);
    forall x | 0 <= x < |table|
      ensures table[x].Record() == AfterCycle(old(table[x].Record()), turns[x])
    {
      assert recs[x] == old(table[x].Record());
      assert finals[x] == AfterCycle(recs[x], turns[x]);
    }
  }

  /** Row `i`'s turn changes that row alone among the rows of the table. */
  method VisitTableRow(table: seq<Connection>, store: HistoryStore, recs: seq<ConnectionRecord>, turns: seq<Turn>,
                       ghost start: Log, ghost logs: seq<Log>, ghost finals: seq<ConnectionRecord>, i: nat)
    requires i < |table| && |recs| == |table| && |turns| == |table|
    requires forall x, y :: 0 <= x < y < |table| ==> table[x] != table[y]
    requires |logs| == |recs| + 1
    requires forall k {:trigger CycleLog(recs, turns, start, k)} :: 0 <= k <= |recs| ==> logs[k] == CycleLog(recs, turns, start, k)
    requires |finals| == |recs|
    requires forall x {:trigger AfterCycle(recs[x], turns[x])} :: 0 <= x < |recs| ==> finals[x] == AfterCycle(recs[x], turns[x])
    requires store.Valid()
    requires Log(store.entries, store.nextId) == logs[i]
    requires forall x :: 0 <= x < |table| ==> table[x].Record() == if x < i then finals[x] else recs[x]
    modifies table[i], store
    ensures store.Valid()
    ensures Log(store.entries, store.nextId) == logs[i + 1]
    ensures forall x :: 0 <= x < |table| ==> table[x].Record() == if x < i + 1 then finals[x] else recs[x]
  {
    label L:
    VisitRow(table[i], store, recs, turns, start, logs, finals, i);
    forall x | 0 <= x < |table| && x != i
      ensures table[x].Record() == old@L(table[x].Record())
    {
      assert table[x] != table[i];
    }
  }

  /** The history after each prefix of the table's turns, from `start`. */
  lemma CycleLogs(recs: seq<ConnectionRecord>, turns: seq<Turn>, start: Log) returns (logs: seq<Log>)
    requires |turns| == |recs|
    ensures |logs| == |recs| + 1
    ensures forall k {:trigger CycleLog(recs, turns, start, k)} :: 0 <= k <= |recs| ==> logs[k] == CycleLog(recs, turns, start, k)
  {
    logs := seq(|recs| + 1, k requires 0 <= k <= |recs| => CycleLog(recs, turns, start, k));
  }

  /** Each row's record after the cycle. */
  lemma CycleRecords(recs: seq<ConnectionRecord>, turns: seq<Turn>) returns (finals: seq<ConnectionRecord>)
    requires |turns| == |recs|
    ensures |finals| == |recs|
    ensures forall x {:trigger AfterCycle(recs[x], turns[x])} :: 0 <= x < |recs| ==> finals[x] == AfterCycle(recs[x], turns[x])
  {
    finals := seq(|recs|, x requires 0 <= x < |recs| => AfterCycle(recs[x], turns[x]));
  }


  /** An exception the logging call raises before a connection's check is
      stored in the check's place: status
      'unknown', no latency, the exception's message as the error, and the
      rest of the connection as it was apart from the check time. */
  lemma FaultRecorded(r: ConnectionRecord, t: Turn, m: string)
    requires t.fault == Some(m)
    ensures AfterTurn(r, t) == r.(lastCheck := Some(t.now), lastStatus := Some(UNKNOWN),
                                   lastResponseTime := None, lastError := Some(m), updatedAt := Some(t.now))
  {
  }

  /** Without an exception the stored status is the checker's, which is
      always one of up, down and unknown: the checker reports its own
      failures as a result rather than raising. */
  lemma CheckedTurn(r: ConnectionRecord, t: Turn)
    requires t.fault.None?
    ensures AfterTurn(r, t).lastStatus == Some(Check(r, t.env).status)
    ensures AfterTurn(r, t).lastStatus.value in {UP, DOWN, UNKNOWN}
    ensures AfterTurn(r, t).lastError == Check(r, t.env).error
  {
  }

  lemma {:induction false} ForConnectionSnoc(t: seq<HistoryEntry>, e: HistoryEntry, cid: int)
    requires e.connectionId != cid
    ensures ForConnection(t + [e], cid) == ForConnection(t, cid)
    decreases |t|
  {
    if t != [] {
      assert (t + [e])[1..] == t[1..] + [e];
      ForConnectionSnoc(t[1..], e, cid);
    } else {
      assert ForConnection([e], cid) == [] + ForConnection([], cid);
    }
  }

  /** Storing a result of one connection leaves another's history as it was. */
  lemma LogRowKeepsOthers(log: Log, cid: int, res: CheckResult, now: int, other: int)
    requires other != cid
    ensures ForConnection(LogRow(log, cid, res, now).entries, other) == ForConnection(log.entries, other)
  {
    var e := HistoryEntry(log.nextId, cid, now, res.status, res.responseTime, res.error);
    PruneKeepsOthers(log.entries + [e], cid, other);
    ForConnectionSnoc(log.entries, e, other);
  }

  /** A connection the cycle does not visit keeps its history exactly. */
  lemma {:induction false} CycleKeepsOthers(recs: seq<ConnectionRecord>, turns: seq<Turn>, start: Log, n: nat, cid: int)
    requires n <= |recs| && |turns| == |recs|
    requires forall x :: 0 <= x < n && recs[x].isActive ==> recs[x].id != cid
    ensures ForConnection(CycleLog(recs, turns, start, n).entries, cid) == ForConnection(start.entries, cid)
  {
    if n > 0 {
      CycleKeepsOthers(recs, turns, start, n - 1, cid);
      var r := recs[n - 1];
      StepKeepsOthers(CycleLog(recs, turns, start, n - 1), CycleLog(recs, turns, start, n),
                      r, TurnResult(r, turns[n - 1]), turns[n - 1].now, cid);
    }
  }

  /** One row's turn, for any result it stores, leaves another connection's
      history as it was. */
  lemma StepKeepsOthers(before: Log, after: Log, r: ConnectionRecord, res: CheckResult, now: int, cid: int)
    requires after == if r.isActive then LogRow(before, r.id, res, now) else before
    requires r.isActive ==> r.id != cid
    ensures ForConnection(after.entries, cid) == ForConnection(before.entries, cid)
  {
    if r.isActive {
      LogRowKeepsOthers(before, r.id, res, now, cid);
    }
  }

  /** A cycle numbers one history row per active connection. */
  lemma {:induction false} CycleCountsVisits(recs: seq<ConnectionRecord>, turns: seq<Turn>, start: Log, n: nat)
    requires n <= |recs| && |turns| == |recs|
    ensures CycleLog(recs, turns, start, n).nextId == start.nextId + |ActivePositions(recs[..n])|
  {
    if n > 0 {
      CycleCountsVisits(recs, turns, start, n - 1);
      assert recs[..n][..n - 1] == recs[..n - 1];
    }
  }

  // ------------------------------------------------------------ main loop

  /** How one pass of `main`'s loop ends: the cycle completed; it raised an
      exception; a keyboard interrupt arrived during the cycle or during the
      60-second pause, inside the `try`; or the cycle raised and the
      interrupt arrived during the 10-second pause of the handler, outside
      the `try`. */
  datatype CycleEnd = Completed | Failed(message: string) | Interrupted | FailedThenInterrupted(message: string)

  /** How `main` ends: it returns after logging that the user stopped it, the
      interrupt escapes it as an exception, or it is still looping when the
      passes run out. */
  datatype MainExit = StoppedByUser | InterruptEscaped | StillRunning

  predicate Stops(e: CycleEnd)
  {
    e.Interrupted? || e.FailedThenInterrupted?
  }

  /** The pause after a pass that does not stop the loop, in seconds. */
  function Pause(e: CycleEnd): nat
  {
    if e.Completed? then 60 else 10
  }

  /** The number of passes before the first interrupt (all of them when none
      comes). */
  function Passes(ends: seq<CycleEnd>): (n: nat)
    ensures n <= |ends|
    ensures forall k :: 0 <= k < n ==> !Stops(ends[k])
    ensures n < |ends| ==> Stops(ends[n])
    decreases |ends|
  {
    if ends == [] || Stops(ends[0]) then 0 else 1 + Passes(ends[1..])
  }

  /** `main` over the passes `ends`: the pauses it sleeps through, one per
      pass, until the first interrupt ends the loop, and how it ends. */
  method RunMonitor(ends: seq<CycleEnd>) returns (pauses: seq<nat>, exit: MainExit)
    ensures |pauses| == Passes(ends)
    ensures forall k :: 0 <= k < |pauses| ==> pauses[k] == Pause(ends[k])
    ensures exit.StillRunning? <==> forall k :: 0 <= k < |ends| ==> !Stops(ends[k])
    ensures exit.StoppedByUser? <==> Passes(ends) < |ends| && ends[Passes(ends)].Interrupted?
    ensures exit.InterruptEscaped? <==> Passes(ends) < |ends| && ends[Passes(ends)].FailedThenInterrupted?
  {
    pauses := [];
    var i := 0;
    while i < |ends|
      invariant i <= Passes(ends)
      invariant |pauses| == i
      invariant forall k :: 0 <= k < i ==> pauses[k] == Pause(ends[k])
    {
      match ends[i] {
        case Interrupted =>
          return pauses, StoppedByUser;
        case FailedThenInterrupted(_) =>
          return pauses, InterruptEscaped;
        case Completed =>
          pauses := pauses + [60];
        case Failed(_) =>
          pauses := pauses + [10];
      }
      i := i + 1;
    }
    return pauses, StillRunning;
  }

  /** A completed pass is followed by 60 seconds, a failed one by 10, and the
      loop stops at exactly the first interrupt. */
  lemma PausesFollowEnds(ends: seq<CycleEnd>, k: nat)
    requires k < |ends|
    ensures k < Passes(ends) <==> forall j :: 0 <= j <= k ==> !Stops(ends[j])
    ensures k < Passes(ends) ==> (Pause(ends[k]) == 60 <==> ends[k].Completed?)
  {
  }
}

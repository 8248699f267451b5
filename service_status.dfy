/** The service status widget: asks systemctl whether each configured service
    is active and enabled, and summarises how many are running. The command
    runner, the platform and the clock that stamps the payload are inputs. */
module ServiceStatus {
  import opened Common

  const WidgetType: string := "service_status"
  const DisplayName: string := "Service Status"
  const Description: string := "Monitor the status of system services"

  /** `_get_default_services`: six well-known daemons on Linux, none elsewhere. */
  function DefaultServices(linux: bool): (r: seq<string>)
    ensures linux ==> r == ["nginx", "apache2", "mysql", "postgresql", "redis", "docker"]
    ensures !linux ==> r == []
  {
    if linux then ["nginx", "apache2", "mysql", "postgresql", "redis", "docker"] else []
  }

  /** `default_config`: refresh every 60 seconds, the platform's default services. */
  function DefaultConfig(linux: bool): (d: Dict)
    ensures Keys(d) == ["refresh_interval", "services"]
    ensures d[1].1 == VList(StringValues(DefaultServices(linux)))
  {
    [("refresh_interval", VInt(60)), ("services", VList(StringValues(DefaultServices(linux))))]
  }

  // ------------------------------------------------------ one service

  datatype ServiceState = ServiceState(status: string, isRunning: bool, isEnabled: bool)

  const ErrorState: ServiceState := ServiceState("error", false, false)

  /** A finished systemctl query answered `expected`. */
  predicate Answered(c: Completed, expected: string)
  {
    c.returnCode == 0 && Strip(c.stdout) == expected
  }

  /** `_get_service_status`. Off Linux nothing is asked. On Linux a name that
      `subprocess.run` refuses (not a string, or holding a NUL character) or
      a query that raises gives the error state; otherwise the service runs
      iff `is-active` exits 0 printing `active`, and is enabled iff
      `is-enabled` exits 0 printing `enabled`. */
  function ServiceStatusOf(name: Value, linux: bool, run: Runner): (r: ServiceState)
    ensures !linux ==> r == ServiceState("unknown", false, false)
    ensures r.status == "running" <==> r.isRunning
    ensures r.status in {"running", "stopped", "unknown", "error"}
    ensures r.isRunning <==>
      && linux && name.VStr? && '\0' !in name.s
      && run(["systemctl", "is-active", name.s]).Some?
      && Answered(run(["systemctl", "is-active", name.s]).value, "active")
      && run(["systemctl", "is-enabled", name.s]).Some?
    ensures r.isEnabled <==>
      && linux && name.VStr? && '\0' !in name.s
      && run(["systemctl", "is-active", name.s]).Some?
      && run(["systemctl", "is-enabled", name.s]).Some?
      && Answered(run(["systemctl", "is-enabled", name.s]).value, "enabled")
  {
    if !linux then ServiceState("unknown", false, false)
    else if !name.VStr? || '\0' in name.s then ErrorState
    else match run(["systemctl", "is-active", name.s])
      case None => ErrorState
      case Some(active) =>
        match run(["systemctl", "is-enabled", name.s])
        case None => ErrorState
        case Some(enabled) =>
          var running := Answered(active, "active");
          ServiceState(if running then "running" else "stopped", running, Answered(enabled, "enabled"))
  }

  /** `_get_status_color`. */
  function StatusColor(isRunning: bool): (r: string)
    ensures r == "success" <==> isRunning
    ensures r == "danger" <==> !isRunning
  {
    if isRunning then "success" else "danger"
  }

  // ------------------------------------------------------ the widget data

  datatype ServiceEntry = ServiceEntry(
    name: Value, status: string, isRunning: bool, isEnabled: bool, statusColor: string)

  /** The entry `get_data` builds for one configured name. */
  function EntryFor(name: Value, linux: bool, run: Runner): (e: ServiceEntry)
    ensures e.name == name
    ensures e.statusColor == "success" <==> e.isRunning
    ensures e.isRunning == ServiceStatusOf(name, linux, run).isRunning
  {
    var st := ServiceStatusOf(name, linux, run);
    ServiceEntry(name, st.status, st.isRunning, st.isEnabled, StatusColor(st.isRunning))
  }

  datatype Summary = Summary(total: nat, running: nat, stopped: int, overallStatus: string)

  datatype ServiceData =
    | ServiceData(services: seq<ServiceEntry>, summary: Summary, timestamp: int)
    | ServiceError(error: string, timestamp: int)

  /** `sum(1 for s in entries if s['is_running'])`. */
  function CountRunning(entries: seq<ServiceEntry>): nat
    decreases |entries|
  {
    if entries == [] then 0
    else (if entries[0].isRunning then 1 else 0) + CountRunning(entries[1..])
  }

  /** At most every entry runs, and all of them do exactly when the count
      reaches the total. */
  lemma {:induction false} CountRunningBounds(entries: seq<ServiceEntry>)
    ensures CountRunning(entries) <= |entries|
    ensures CountRunning(entries) == |entries| <==> forall k :: 0 <= k < |entries| ==> entries[k].isRunning
    decreases |entries|
  {
    if entries != [] {
      CountRunningBounds(entries[1..]);
      assert forall k :: 1 <= k < |entries| ==> entries[k] == entries[1..][k - 1];
    }
  }

  /** The summary block of `get_data`. */
  function Summarize(entries: seq<ServiceEntry>): (s: Summary)
    ensures s.total == |entries| && s.running == CountRunning(entries)
    ensures s.running + s.stopped == s.total
    ensures s.overallStatus == "success" <==> s.running == s.total
    ensures s.overallStatus == "warning" <==> s.running != s.total
  {
    var total := |entries|;
    var running := CountRunning(entries);
    Summary(total, running, total - running, if running == total then "success" else "warning")
  }

  /** The counts are consistent, and the overall status is `success` iff every
      service runs, in particular for an empty list. */
  lemma SummaryMeaning(entries: seq<ServiceEntry>)
    ensures 0 <= Summarize(entries).stopped <= |entries|
    ensures Summarize(entries).overallStatus == "success" <==>
      forall k :: 0 <= k < |entries| ==> entries[k].isRunning
    ensures entries == [] ==> Summarize(entries).overallStatus == "success"
  {
    CountRunningBounds(entries);
  }

  /** `get_data`: one entry per configured service, in order, then the
      summary; a `services` value that cannot be iterated gives the error
      payload. */
  method GetData(config: Dict, linux: bool, run: Runner, now: int) returns (r: ServiceData)
    ensures r.timestamp == now
    ensures var v := GetOr(config, "services", VList(StringValues(DefaultServices(linux))));
      match Iterate(v)
      case None => r == ServiceError("Failed to get service status: '" + TypeName(v) + "' object is not iterable", now)
      case Some(names) =>
        && r.ServiceData?
        && |r.services| == |names|
        && (forall k :: 0 <= k < |names| ==> r.services[k] == EntryFor(names[k], linux, run))
        && r.summary == Summarize(r.services)
  {
    var v := GetOr(config, "services", VList(StringValues(DefaultServices(linux))));
    match Iterate(v) {
      case None =>
        return ServiceError("Failed to get service status: '" + TypeName(v) + "' object is not iterable", now);
      case Some(names) =>
        var entries: seq<ServiceEntry> := [];
        for i := 0 to |names|
          invariant |entries| == i
          invariant forall k :: 0 <= k < i ==> entries[k] == EntryFor(names[k], linux, run)
        {
          entries := entries + [EntryFor(names[i], linux, run)];
        }
        return ServiceData(entries, Summarize(entries), now);
    }
  }
}

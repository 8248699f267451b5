/** The system status widget: CPU, memory and disk usage classified into
    severity levels, and the machine's uptime broken into days, hours and
    minutes. The readings themselves (psutil, the clock) are inputs. */
module SystemStatus {
  import opened Common

  const WidgetType: string := "system_status"
  const DisplayName: string := "System Status"
  const Description: string := "Monitor CPU, memory, disk usage and system information"

  /** `default_config`: refresh every 30 seconds, details shown. */
  function DefaultConfig(): (d: Dict)
    ensures Keys(d) == ["refresh_interval", "show_details"]
  {
    [("refresh_interval", VInt(30)), ("show_details", VBool(true))]
  }

  // ------------------------------------------------------------ levels

  /** `_get_status_level`: below 70 percent is fine, below 90 a warning, the
      rest is danger. */
  function StatusLevel(percent: real): (r: string)
    ensures r == "success" <==> percent < 70.0
    ensures r == "warning" <==> 70.0 <= percent < 90.0
    ensures r == "danger" <==> 90.0 <= percent
  {
    if percent < 70.0 then "success"
    else if percent < 90.0 then "warning"
    else "danger"
  }

  /** How severe a level is: success < warning < danger. */
  function Severity(level: string): nat
  {
    if level == "success" then 0 else if level == "warning" then 1 else 2
  }

  /** A higher usage never yields a less severe level. */
  lemma LevelMonotone(p: real, q: real)
    requires p <= q
    ensures Severity(StatusLevel(p)) <= Severity(StatusLevel(q))
  {
  }

  // ------------------------------------------------------------ uptime

  /** `uptime.days`, `uptime.seconds // 3600` and `(uptime.seconds % 3600) // 60`. */
  datatype Uptime = Uptime(days: int, hours: int, minutes: int)

  /** The uptime split of a `timedelta` of `total` whole seconds (microseconds
      never change the three fields). The timedelta normalises to a day count
      and 0 <= seconds < 86400, also for a negative span. */
  function UptimeOf(total: int): (u: Uptime)
  {
    var seconds := total % 86400;
    Uptime(total / 86400, seconds / 3600, (seconds % 3600) / 60)
  }

  /** Hours and minutes are in range and, with the days, account for the
      span to the minute. */
  lemma UptimeBounds(total: int)
    ensures 0 <= UptimeOf(total).hours <= 23
    ensures 0 <= UptimeOf(total).minutes <= 59
    ensures var u := UptimeOf(total);
      var whole := u.days * 86400 + u.hours * 3600 + u.minutes * 60;
      whole <= total < whole + 60
  {
    var seconds := total % 86400;
    var h := seconds / 3600;
    var rest := seconds % 3600;
    assert seconds == h * 3600 + rest;
    assert rest == (rest / 60) * 60 + rest % 60;
    assert total == (total / 86400) * 86400 + seconds;
  }

  /** Within the first day the days field is 0 and the span is exactly the
      hours and minutes, up to the seconds. */
  lemma UptimeWithinDay(s: int)
    requires 0 <= s < 86400
    ensures UptimeOf(s).days == 0
    ensures UptimeOf(s).hours == s / 3600
    ensures UptimeOf(s).minutes == (s % 3600) / 60
  {
  }

  // ------------------------------------------------------------ get_data

  /** What psutil and the clock report. */
  datatype Sample = Sample(
    cpuPercent: real,
    cpuCount: int,
    memoryPercent: real,
    diskUsed: nat,
    diskTotal: nat,
    uptimeSeconds: int)

  datatype Report =
    | Report(cpuCount: int, cpuStatus: string, memoryStatus: string,
             diskPercent: real, diskStatus: string, uptime: Uptime, timestamp: int)
    | ReportError(error: string, timestamp: int)

  /** `get_data`: the same classifier on all three percentages; a failed
      reading, or a disk of total size 0 (division by zero), gives the error
      payload. */
  function GetData(sample: Result<Sample>, now: int): (r: Report)
    ensures r.timestamp == now
    ensures sample.Err? ==> r == ReportError("Failed to get system status: " + sample.error, now)
    ensures sample.Ok? && sample.value.diskTotal == 0 ==>
      r == ReportError("Failed to get system status: division by zero", now)
    ensures r.Report? ==>
      && sample.Ok? && sample.value.diskTotal > 0
      && r.cpuStatus == StatusLevel(sample.value.cpuPercent)
      && r.memoryStatus == StatusLevel(sample.value.memoryPercent)
      && r.diskStatus == StatusLevel(r.diskPercent)
      && r.diskPercent == (sample.value.diskUsed as real / sample.value.diskTotal as real) * 100.0
      && r.uptime == UptimeOf(sample.value.uptimeSeconds)
  {
    match sample
    case Err(e) => ReportError("Failed to get system status: " + e, now)
    case Ok(s) =>
      if s.diskTotal == 0 then ReportError("Failed to get system status: division by zero", now)
      else
        var disk := (s.diskUsed as real / s.diskTotal as real) * 100.0;
        Report(s.cpuCount, StatusLevel(s.cpuPercent), StatusLevel(s.memoryPercent),
               disk, StatusLevel(disk), UptimeOf(s.uptimeSeconds), now)
  }

  /** A fuller disk is never reported as less severe. */
  lemma DiskLevelMonotone(used1: nat, used2: nat, total: nat)
    requires total > 0 && used1 <= used2
    ensures Severity(StatusLevel((used1 as real / total as real) * 100.0))
         <= Severity(StatusLevel((used2 as real / total as real) * 100.0))
  {
    assert used1 as real / total as real <= used2 as real / total as real;
    LevelMonotone((used1 as real / total as real) * 100.0, (used2 as real / total as real) * 100.0);
  }
}

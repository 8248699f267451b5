/** The connection checker: dispatch on the connection type, the HTTP URL
    rebuild, and the tables that turn what the network, `ping` or a socket
    reported into a `(status, response time, error)` triple. The probes
    themselves are inputs: what `requests.get`, `subprocess.run` and
    `connect_ex` return (or raise) for the exact URL, command or address the
    checker computes. */
module Checker {
  import opened Common
  import opened Connections

  /** `(status, response_time_ms, error_message)`. */
  datatype CheckResult = CheckResult(status: string, responseTime: Option<real>, error: Option<string>)

  /** What `requests.get` did. `Unexpected` is an exception that is not a
      `RequestException` and so escapes to `check_connection`. */
  datatype HttpOutcome =
    | HttpResponse(code: int, reason: string)
    | HttpTimeout
    | HttpConnectionError
    | HttpOtherRequestError(message: string)
    | HttpUnexpected(message: string)

  /** What `subprocess.run` of the ping command did. */
  datatype PingOutcome =
    | PingExited(returnCode: int, stdout: string, stderr: string)
    | PingTimedOut
    | PingFailed(message: string)

  /** What `connect_ex` did. */
  datatype TcpOutcome =
    | TcpResult(code: int)
    | TcpTimeout
    | TcpDnsError(message: string)
    | TcpOtherError(message: string)

  /** The outside world as seen by one check: the probes, the elapsed wall-clock
      time in milliseconds, the platform, and Python's `float()`. `requests.get`
      and the socket are handed the timeout column as it is, so what they do
      with a NULL or blank one (no timeout, or an exception) is theirs. */
  datatype Environment = Environment(
    http: (string, IntColumn) -> HttpOutcome,
    ping: (seq<string>, int) -> PingOutcome,
    tcp: (string, int, IntColumn) -> TcpOutcome,
    elapsedMs: real,
    windows: bool,
    parseFloat: string -> Option<real>)

  const HttpScheme: string := "http://"
  const HttpsScheme: string := "https://"

  // ------------------------------------------------------------ URL rebuild

  predicate HasScheme(url: string)
  {
    StartsWith(url, HttpScheme) || StartsWith(url, HttpsScheme)
  }

  /** Python truthiness of the integer-or-None port column. */
  predicate PortSet(port: Option<int>)
  {
    port.Some? && port.value != 0
  }

  /** The pieces of a schemed URL, split the way `urlparse` splits
      `scheme://netloc<rest>`: the network location runs up to the first '/',
      '?' or '#'. */
  datatype UrlParts = UrlParts(scheme: string, netloc: string, rest: string)

  predicate NetlocEnd(c: char)
  {
    c == '/' || c == '?' || c == '#'
  }

  function NetlocLength(s: string): (n: nat)
    ensures n <= |s|
    ensures forall k :: 0 <= k < n ==> !NetlocEnd(s[k])
    ensures n < |s| ==> NetlocEnd(s[n])
  {
    if s == [] || NetlocEnd(s[0]) then 0 else 1 + NetlocLength(s[1..])
  }

  function SplitUrl(url: string): (p: UrlParts)
    requires HasScheme(url)
    ensures p.scheme == "http" || p.scheme == "https"
    ensures p.scheme + "://" + p.netloc + p.rest == url
    ensures forall k :: 0 <= k < |p.netloc| ==> !NetlocEnd(p.netloc[k])
    ensures p.rest == [] || NetlocEnd(p.rest[0])
  {
    var schemeLen := if StartsWith(url, HttpScheme) then 4 else 5;
    SchemeLength(url);
    var p := SplitAfterScheme(url[..schemeLen], url[schemeLen + 3..]);
    assert p.scheme + "://" + p.netloc + p.rest == p.scheme + "://" + (p.netloc + p.rest);
    p
  }

  /** The part after `scheme://` split at the end of the network location. */
  function SplitAfterScheme(scheme: string, after: string): (p: UrlParts)
    ensures p.scheme == scheme && p.netloc + p.rest == after
    ensures forall k :: 0 <= k < |p.netloc| ==> !NetlocEnd(p.netloc[k])
    ensures p.rest == [] || NetlocEnd(p.rest[0])
  {
    var n := NetlocLength(after);
    assert after == after[..n] + after[n..];
    UrlParts(scheme, after[..n], after[n..])
  }

  lemma SchemeLength(url: string)
    requires HasScheme(url)
    ensures var schemeLen := if StartsWith(url, HttpScheme) then 4 else 5;
      schemeLen + 3 <= |url| &&
      (url[..schemeLen] == "http" || url[..schemeLen] == "https") &&
      url == url[..schemeLen] + "://" + url[schemeLen + 3..]
  {
    if StartsWith(url, HttpScheme) {
      assert url[..7] == HttpScheme;
    } else {
      assert url[..8] == HttpsScheme;
    }
  }

  /** The network location split into user, password, host and port text, as
      `urlparse` does: user information before the last '@', the port after
      the first ':' of what follows. */
  datatype Netloc = Netloc(hasUserinfo: bool, username: string, password: Option<string>,
                           hostname: string, portText: Option<string>)

  function ParseNetloc(netloc: string): Netloc
  {
    var at := LastIndexOf(netloc, '@');
    var userinfo := if at.Some? then netloc[..at.value] else "";
    var hostinfo := if at.Some? then netloc[at.value + 1..] else netloc;
    var colon := IndexOf(userinfo, ':');
    var username := if colon.Some? then userinfo[..colon.value] else userinfo;
    var password := if colon.Some? then Some(userinfo[colon.value + 1..]) else None;
    var hcolon := IndexOf(hostinfo, ':');
    var hostname := if hcolon.Some? then hostinfo[..hcolon.value] else hostinfo;
    var portText := if hcolon.Some? && hcolon.value + 1 < |hostinfo| then Some(hostinfo[hcolon.value + 1..]) else None;
    Netloc(at.Some?, username, if at.Some? then password else None, hostname, portText)
  }

  predicate AllDigits(s: string)
  {
    forall k :: 0 <= k < |s| ==> IsDigit(s[k])
  }

  /** `parsed.port`: `None` without port text, a `ValueError` for text that is
      not ASCII digits or a number above 65535. */
  function ParsedPort(n: Netloc): (r: Result<Option<int>>)
    ensures r.Ok? && r.value.Some? ==> 0 <= r.value.value <= 65535
    ensures n.portText.None? ==> r == Ok(None)
  {
    match n.portText
    case None => Ok(None)
    case Some(p) =>
      if !AllDigits(p) then Err("Port could not be cast to integer value as '" + p + "'")
      else if DigitsValue(p) > 65535 then Err("Port out of range 0-65535")
      else Ok(Some(DigitsValue(p)))
  }

  /** `parsed.hostname` as formatted by an f-string: lowercased, or "None"
      when empty. */
  function HostnameText(n: Netloc): string
  {
    if n.hostname == "" then "None" else Lower(n.hostname)
  }

  /** The rebuilt network location `[user[:password]@]host:port`. */
  function RebuiltNetloc(n: Netloc, port: int): string
  {
    var hostPort := HostnameText(n) + ":" + IntToString(port);
    if n.hasUserinfo && n.username != "" then
      n.username + (if n.password.Some? && n.password.value != "" then ":" + n.password.value else "")
      + "@" + hostPort
    else hostPort
  }

  /** The URL with the configured port in it, before the scheme is added: a
      schemed URL whose `parsed.port` is unset gets a rebuilt network location,
      a bare target gets ":<port>" appended. */
  function WithPort(target: string, port: int): (r: Result<string>)
    ensures r.Ok? && !HasScheme(target) ==> r.value == target + ":" + IntToString(port) && !HasScheme(r.value)
    ensures r.Ok? && HasScheme(target) ==> HasScheme(r.value)
  {
    if HasScheme(target) then
      var parts := SplitUrl(target);
      var n := ParseNetloc(parts.netloc);
      match ParsedPort(n)
      case Err(e) => Err(e)
      case Ok(p) =>
        if p.Some? && p.value != 0 then Ok(target)
        else
          var u := parts.scheme + "://" + RebuiltNetloc(n, port) + parts.rest;
          SchemeKept(parts.scheme, RebuiltNetloc(n, port), parts.rest);
          Ok(u)
    else
      PortSuffixAddsNoScheme(target, port);
      Ok(target + ":" + IntToString(port))
  }

  lemma SchemeKept(scheme: string, netloc: string, rest: string)
    requires scheme == "http" || scheme == "https"
    ensures HasScheme(scheme + "://" + netloc + rest)
  {
    var u := scheme + "://" + netloc + rest;
    if scheme == "http" {
      assert u[..7] == HttpScheme;
    } else {
      assert u[..8] == HttpsScheme;
    }
  }

  /** The URL `_check_http` requests, or the `ValueError` `parsed.port` raises. */
  function RequestUrl(target: string, port: Option<int>): (r: Result<string>)
    ensures r.Ok? ==> HasScheme(r.value)
    ensures !PortSet(port) || Contains(target, ":" + IntToString(port.value)) ==>
              r == Ok(if HasScheme(target) then target else HttpScheme + target)
    ensures PortSet(port) && !Contains(target, ":" + IntToString(port.value)) && !HasScheme(target) ==>
              r == Ok(HttpScheme + target + ":" + IntToString(port.value))
    ensures PortSet(port) && !Contains(target, ":" + IntToString(port.value)) && HasScheme(target) ==>
              r == WithPort(target, port.value)
  {
    var withPort :=
      if PortSet(port) && !Contains(target, ":" + IntToString(port.value)) then WithPort(target, port.value)
      else Ok(target);
    match withPort
    case Err(e) => Err(e)
    case Ok(u) =>
      if HasScheme(u) then Ok(u)
      else
        assert StartsWith(HttpScheme + u, HttpScheme);
        assert port.Some? ==> HttpScheme + u == HttpScheme + target + ":" + IntToString(port.value) || u == target;
        Ok(HttpScheme + u)
  }

  /** Appending `:<port>` to a target without a scheme never creates one. */
  lemma PortSuffixAddsNoScheme(target: string, port: int)
    requires !HasScheme(target)
    ensures !HasScheme(target + ":" + IntToString(port))
  {
    var u := target + ":" + IntToString(port);
    var d := IntToString(port);
    assert d[0] == '-' || IsDigit(d[0]);
    assert u[|target| + 1] == d[0];
    assert u[|target|] == ':';
  }

  /** A schemed URL without a port of its own gets the configured port in its
      network location; scheme, user information and everything after the
      network location are kept. */
  lemma PortInjectedIntoSchemedUrl(target: string, port: int)
    requires port != 0 && HasScheme(target)
    requires !Contains(target, ":" + IntToString(port))
    requires ParsedPort(ParseNetloc(SplitUrl(target).netloc)) in {Ok(None), Ok(Some(0))}
    ensures WithPort(target, port)
         == Ok(SplitUrl(target).scheme + "://"
               + RebuiltNetloc(ParseNetloc(SplitUrl(target).netloc), port)
               + SplitUrl(target).rest)
  {
  }

  lemma IndexOfAt(s: string, c: char, i: nat)
    requires i < |s| && s[i] == c && c !in s[..i]
    ensures IndexOf(s, c) == Some(i)
  {
    assert s[i] in s;
  }

  lemma LastIndexOfAt(s: string, c: char, i: nat)
    requires i < |s| && s[i] == c && c !in s[i + 1..]
    ensures LastIndexOf(s, c) == Some(i)
  {
    assert s[i] in s;
  }

  /** `host:digits` splits back at its first ':' when the host has none. */
  lemma HostPortSplits(host: string, port: nat)
    requires ':' !in host
    ensures var hp := host + ":" + NatToString(port);
      IndexOf(hp, ':') == Some(|host|) && hp[..|host|] == host && hp[|host| + 1..] == NatToString(port)
  {
    var hp := host + ":" + NatToString(port);
    assert hp[..|host|] == host;
    IndexOfAt(hp, ':', |host|);
  }

  lemma HostnameTextPlain(n: Netloc)
    requires '@' !in n.hostname && ':' !in n.hostname
    ensures ':' !in HostnameText(n) && '@' !in HostnameText(n)
  {
    var host := HostnameText(n);
    if n.hostname != "" {
      forall k | 0 <= k < |host| ensures host[k] != ':' && host[k] != '@' {
        assert host[k] == LowerChar(n.hostname[k]);
        assert n.hostname[k] != ':' && n.hostname[k] != '@';
      }
    }
  }

  /** `user[:password]@rest` splits back at its last '@' and then at the first
      ':' when the rest has no '@' and the user has no ':'. */
  lemma UserinfoSplits(username: string, pw: string, rest: string)
    requires ':' !in username && '@' !in rest
    requires pw == [] || pw[0] == ':'
    ensures var s := username + pw + "@" + rest;
      LastIndexOf(s, '@') == Some(|username + pw|) && s[..|username + pw|] == username + pw
      && s[|username + pw| + 1..] == rest
      && (pw == [] ==> IndexOf(username + pw, ':').None?)
      && (pw != [] ==> IndexOf(username + pw, ':') == Some(|username|))
  {
    var u := username + pw;
    var s := u + "@" + rest;
    assert s[|u| + 1..] == rest;
    assert s[..|u|] == u;
    LastIndexOfAt(s, '@', |u|);
    if pw != [] {
      assert u[..|username|] == username;
      IndexOfAt(u, ':', |username|);
    } else {
      assert u == username;
    }
  }

  /** How `ParseNetloc` reads `hostinfo` after the last '@' (or the whole
      netloc): host before the first ':', port text after it. */
  lemma ParseHostinfo(netloc: string, at: Option<nat>, hostinfo: string, host: string, digits: string)
    requires LastIndexOf(netloc, '@') == at
    requires hostinfo == if at.Some? then netloc[at.value + 1..] else netloc
    requires IndexOf(hostinfo, ':') == Some(|host|) && hostinfo[..|host|] == host
    requires hostinfo[|host| + 1..] == digits && digits != []
    ensures ParseNetloc(netloc).hostname == host
    ensures ParseNetloc(netloc).portText == Some(digits)
  {
  }

  lemma PortTextParses(n: Netloc, port: nat)
    requires 0 < port <= 65535 && n.portText == Some(NatToString(port))
    ensures ParsedPort(n) == Ok(Some(port))
  {
    DigitsValueOfNat(port);
  }

  /** The netloc rebuilt for port `p` parses back with port `p`, the same user
      and the (lowercased) host. */
  lemma RebuiltNetlocParsesBack(n: Netloc, port: nat)
    requires 0 < port <= 65535
    requires ':' !in n.username && '@' !in n.hostname && ':' !in n.hostname
    ensures ParseNetloc(RebuiltNetloc(n, port)).hostname == HostnameText(n)
    ensures ParsedPort(ParseNetloc(RebuiltNetloc(n, port))) == Ok(Some(port))
    ensures n.hasUserinfo && n.username != "" ==> ParseNetloc(RebuiltNetloc(n, port)).username == n.username
  {
    var host := HostnameText(n);
    var digits := NatToString(port);
    NatToStringNoChar(port, '@');
    HostnameTextPlain(n);
    HostPortSplits(host, port);
    var hostPort := host + ":" + digits;
    assert '@' !in hostPort;
    var netloc := RebuiltNetloc(n, port);
    if n.hasUserinfo && n.username != "" {
      var pw := if n.password.Some? && n.password.value != "" then ":" + n.password.value else "";
      UserinfoSplits(n.username, pw, hostPort);
      assert netloc == n.username + pw + "@" + hostPort;
      ParseHostinfo(netloc, Some(|n.username + pw|), hostPort, host, digits);
    } else {
      assert netloc == hostPort;
      assert LastIndexOf(netloc, '@').None?;
      ParseHostinfo(netloc, None, hostPort, host, digits);
    }
    PortTextParses(ParseNetloc(netloc), port);
  }

  predicate NoNetlocEnd(s: string)
  {
    forall k :: 0 <= k < |s| ==> !NetlocEnd(s[k])
  }

  /** What `ParseNetloc` returns always meets the conditions of
      `RebuiltNetlocParsesBack`, and keeps the absence of '/', '?' and '#'. */
  lemma ParseNetlocShape(netloc: string)
    ensures ':' !in ParseNetloc(netloc).username
    ensures '@' !in ParseNetloc(netloc).hostname && ':' !in ParseNetloc(netloc).hostname
    ensures NoNetlocEnd(netloc) ==> NoNetlocEnd(ParseNetloc(netloc).username)
    ensures NoNetlocEnd(netloc) && ParseNetloc(netloc).password.Some? ==>
              NoNetlocEnd(ParseNetloc(netloc).password.value)
    ensures NoNetlocEnd(netloc) ==> NoNetlocEnd(ParseNetloc(netloc).hostname)
  {
    var at := LastIndexOf(netloc, '@');
    var userinfo := if at.Some? then netloc[..at.value] else "";
    var hostinfo := if at.Some? then netloc[at.value + 1..] else netloc;
    assert '@' !in hostinfo;
    var colon := IndexOf(userinfo, ':');
    var hcolon := IndexOf(hostinfo, ':');
    if NoNetlocEnd(netloc) {
      assert forall k :: 0 <= k < |userinfo| ==> userinfo[k] == netloc[k];
      assert NoNetlocEnd(hostinfo);
    }
  }

  lemma SplitUrlOf(url: string, schemeLen: nat, netloc: string, rest: string)
    requires schemeLen == 4 || schemeLen == 5
    requires url == (if schemeLen == 4 then "http" else "https") + "://" + netloc + rest
    requires NoNetlocEnd(netloc) && (rest == [] || NetlocEnd(rest[0]))
    ensures HasScheme(url)
    ensures SplitUrl(url) == UrlParts(url[..schemeLen], netloc, rest)
  {
    var after := url[schemeLen + 3..];
    assert after == netloc + rest;
    NetlocLengthOf(netloc, rest);
    assert url[..schemeLen] == (if schemeLen == 4 then "http" else "https");
    assert StartsWith(url, HttpScheme) <==> schemeLen == 4 by {
      if schemeLen == 5 {
        assert url[4] == 's';
      }
    }
  }

  lemma {:induction false} NetlocLengthOf(netloc: string, rest: string)
    requires NoNetlocEnd(netloc) && (rest == [] || NetlocEnd(rest[0]))
    ensures NetlocLength(netloc + rest) == |netloc|
  {
    if netloc != [] {
      assert (netloc + rest)[1..] == netloc[1..] + rest;
      NetlocLengthOf(netloc[1..], rest);
    }
  }

  /** After the rebuild, `urlparse` reads the configured port back from the
      URL that is requested, with scheme and the text after the network
      location unchanged. */
  lemma InjectedPortParsesBack(target: string, port: nat)
    requires 0 < port <= 65535 && HasScheme(target)
    requires !Contains(target, ":" + IntToString(port))
    requires ParsedPort(ParseNetloc(SplitUrl(target).netloc)) in {Ok(None), Ok(Some(0))}
    ensures RequestUrl(target, Some(port)).Ok?
    ensures SplitUrl(RequestUrl(target, Some(port)).value).scheme == SplitUrl(target).scheme
    ensures SplitUrl(RequestUrl(target, Some(port)).value).rest == SplitUrl(target).rest
    ensures ParsedPort(ParseNetloc(SplitUrl(RequestUrl(target, Some(port)).value).netloc)) == Ok(Some(port))
  {
    var parts := SplitUrl(target);
    var n := ParseNetloc(parts.netloc);
    ParseNetlocShape(parts.netloc);
    RebuiltNetlocParsesBack(n, port);
    var nl := RebuiltNetloc(n, port);
    var url := parts.scheme + "://" + nl + parts.rest;
    PortInjectedIntoSchemedUrl(target, port);
    assert RequestUrl(target, Some(port)) == Ok(url);
    assert NoNetlocEnd(nl) by {
      NoNetlocEndHostPort(n, port);
    }
    var schemeLen := if StartsWith(target, HttpScheme) then 4 else 5;
    assert parts.scheme == (if schemeLen == 4 then "http" else "https");
    SplitUrlOf(url, schemeLen, nl, parts.rest);
  }

  lemma NoNetlocEndHostPort(n: Netloc, port: nat)
    requires NoNetlocEnd(n.username) && NoNetlocEnd(n.hostname)
    requires n.password.Some? ==> NoNetlocEnd(n.password.value)
    ensures NoNetlocEnd(RebuiltNetloc(n, port))
  {
    NatToStringNoChar(port, '/');
    NatToStringNoChar(port, '?');
    NatToStringNoChar(port, '#');
    var host := HostnameText(n);
    assert NoNetlocEnd(host) by {
      if n.hostname != "" {
        forall k | 0 <= k < |host| ensures !NetlocEnd(host[k]) {
          assert host[k] == LowerChar(n.hostname[k]);
        }
      }
    }
  }

  // ------------------------------------------------------------- HTTP table

  /** The result of an HTTP check from what `requests.get` did. */
  function HttpResult(o: HttpOutcome, elapsedMs: real): (r: CheckResult)
    ensures r.status == UP || r.status == DOWN
    ensures o.HttpResponse? ==> r.responseTime == Some(elapsedMs)
    ensures o.HttpResponse? ==> (r.status == UP <==> o.code < 400 || o.code == 401 || o.code == 403)
    ensures o.HttpResponse? ==> (r.error.None? <==> o.code < 400)
    ensures !o.HttpResponse? ==> r.status == DOWN && r.responseTime.None?
    ensures o.HttpResponse? && o.code == 401 ==> r.error == Some("Service up (authentication required)")
    ensures o.HttpResponse? && o.code == 403 ==> r.error == Some("Service up (access forbidden but responsive)")
    ensures o.HttpResponse? && o.code >= 400 && o.code != 401 && o.code != 403 ==>
              r.error == Some("HTTP " + IntToString(o.code) + ": " + o.reason)
    ensures o.HttpTimeout? ==> r.error == Some("Connection timeout")
    ensures o.HttpConnectionError? ==> r.error == Some("Connection refused")
    ensures o.HttpOtherRequestError? || o.HttpUnexpected? ==> r.error == Some(o.message)
  {
    match o
    case HttpResponse(code, reason) =>
      if code < 400 || code == 401 || code == 403 then
        if code == 401 then CheckResult(UP, Some(elapsedMs), Some("Service up (authentication required)"))
        else if code == 403 then CheckResult(UP, Some(elapsedMs), Some("Service up (access forbidden but responsive)"))
        else CheckResult(UP, Some(elapsedMs), None)
      else CheckResult(DOWN, Some(elapsedMs), Some("HTTP " + IntToString(code) + ": " + reason))
    case HttpTimeout => CheckResult(DOWN, None, Some("Connection timeout"))
    case HttpConnectionError => CheckResult(DOWN, None, Some("Connection refused"))
    case HttpOtherRequestError(m) => CheckResult(DOWN, None, Some(m))
    case HttpUnexpected(m) => CheckResult(DOWN, None, Some(m))
  }

  function CheckHttp(target: string, port: Option<int>, timeout: IntColumn, env: Environment): CheckResult
  {
    match RequestUrl(target, port)
    case Err(e) => CheckResult(DOWN, None, Some(e))
    case Ok(url) => HttpResult(env.http(url, timeout), env.elapsedMs)
  }

  // ------------------------------------------------------------- ping

  /** The ping command line for the platform. */
  function PingCommand(windows: bool, timeout: int, target: string): (cmd: seq<string>)
    ensures |cmd| == 6 && cmd[0] == "ping" && cmd[3] == (if windows then "-w" else "-W") && cmd[5] == target
    ensures cmd[4] == IntToString(if windows then timeout * 1000 else timeout)
  {
    if windows then ["ping", "-n", "1", "-w", IntToString(timeout * 1000), target]
    else ["ping", "-c", "1", "-W", IntToString(timeout), target]
  }

  /** `s.split()[0]`: the first run of non-whitespace characters, or `None`
      (an IndexError) when `s` is blank. */
  function FirstWord(s: string): (r: Option<string>)
    ensures r.Some? ==> r.value != [] && forall k :: 0 <= k < |r.value| ==> !IsSpace(r.value[k])
    ensures r.Some? ==> exists i :: OccursAt(s, r.value, i)
    ensures r.None? <==> forall k :: 0 <= k < |s| ==> IsSpace(s[k])
  {
    var t := LStrip(s);
    if t == [] then None
    else
      var n := WordLength(t);
      assert t[..n] == s[|s| - |t|..][..n];
      assert OccursAt(s, t[..n], |s| - |t|);
      Some(t[..n])
  }

  function WordLength(t: string): (n: nat)
    ensures n <= |t|
    ensures forall k :: 0 <= k < n ==> !IsSpace(t[k])
    ensures t != [] && !IsSpace(t[0]) ==> n >= 1
  {
    if t == [] || IsSpace(t[0]) then 0 else 1 + WordLength(t[1..])
  }

  const TimeMarker: string := "time="

  /** `output.split('time=')[1].split()[0].replace('ms', '')`, or `None` when
      that raises: the first word after the first "time=" (and before any
      second one), with "ms" removed. */
  function PingTimeText(output: string): (r: Option<string>)
    requires Contains(output, TimeMarker)
  {
    var i := Find(output, TimeMarker).value;
    var after := output[i + |TimeMarker|..];
    var segment := match Find(after, TimeMarker) case Some(j) => after[..j] case None => after;
    match FirstWord(segment)
    case None => None
    case Some(w) => Some(RemoveAll(w, "ms"))
  }

  /** The latency reported for a successful ping: the parsed "time=" value
      when there is one, the wall-clock time otherwise. */
  function PingLatency(stdout: string, elapsedMs: real, parseFloat: string -> Option<real>): real
  {
    var output := Lower(stdout);
    if Contains(output, TimeMarker) then
      match PingTimeText(output)
      case None => elapsedMs
      case Some(text) => (match parseFloat(text) case Some(v) => v case None => elapsedMs)
    else elapsedMs
  }

  function PingResult(o: PingOutcome, elapsedMs: real, parseFloat: string -> Option<real>): (r: CheckResult)
    ensures r.status == UP <==> o.PingExited? && o.returnCode == 0
    ensures r.status == UP ==> r.error.None? && r.responseTime.Some?
    ensures r.status != UP ==> r.status == DOWN && r.responseTime.None? && r.error.Some?
    ensures o.PingExited? && o.returnCode != 0 ==>
              r.error == Some(if Strip(o.stderr) != "" then Strip(o.stderr) else "Ping failed")
    ensures o.PingTimedOut? ==> r.error == Some("Ping timeout")
  {
    match o
    case PingExited(rc, out, err) =>
      if rc == 0 then CheckResult(UP, Some(PingLatency(out, elapsedMs, parseFloat)), None)
      else
        var e := Strip(err);
        CheckResult(DOWN, None, Some(if e != "" then e else "Ping failed"))
    case PingTimedOut => CheckResult(DOWN, None, Some("Ping timeout"))
    case PingFailed(m) => CheckResult(DOWN, None, Some(m))
  }

  /** A reported time is used when it parses; otherwise the wall clock is. */
  lemma PingLatencySource(stdout: string, elapsedMs: real, parseFloat: string -> Option<real>)
    ensures !Contains(Lower(stdout), TimeMarker) ==> PingLatency(stdout, elapsedMs, parseFloat) == elapsedMs
    ensures Contains(Lower(stdout), TimeMarker) && PingTimeText(Lower(stdout)).Some?
            && parseFloat(PingTimeText(Lower(stdout)).value).Some? ==>
              PingLatency(stdout, elapsedMs, parseFloat) == parseFloat(PingTimeText(Lower(stdout)).value).value
  {
  }

  /** The `TypeError` texts `_check_ping` reports for a timeout that is no
      integer: NULL fails at `timeout * 1000` on Windows and at `timeout + 5`
      elsewhere; a blank string repeats to '' and then fails at `+ 5`. */
  const NullTimesInt: string := "unsupported operand type(s) for *: 'NoneType' and 'int'"
  const NullPlusInt: string := "unsupported operand type(s) for +: 'NoneType' and 'int'"
  const StrPlusInt: string := "can only concatenate str (not \"int\") to str"

  function CheckPing(target: string, timeout: IntColumn, env: Environment): (r: CheckResult)
    ensures timeout.NullValue? ==> r == CheckResult(DOWN, None, Some(if env.windows then NullTimesInt else NullPlusInt))
    ensures timeout.BlankValue? ==> r == CheckResult(DOWN, None, Some(StrPlusInt))
  {
    match timeout
    case IntValue(n) =>
      PingResult(env.ping(PingCommand(env.windows, n, target), n + 5), env.elapsedMs, env.parseFloat)
    case NullValue => CheckResult(DOWN, None, Some(if env.windows then NullTimesInt else NullPlusInt))
    case BlankValue => CheckResult(DOWN, None, Some(StrPlusInt))
  }

  // -------------------------------------------------------------- TCP

  /** `connection.port or 80`. */
  function TcpPort(port: Option<int>): (p: int)
    ensures PortSet(port) ==> p == port.value
    ensures !PortSet(port) ==> p == 80
  {
    if PortSet(port) then port.value else 80
  }

  function TcpResultOf(o: TcpOutcome, elapsedMs: real): (r: CheckResult)
    ensures r.status == UP <==> o == TcpResult(0)
    ensures r.responseTime.Some? <==> o.TcpResult?
    ensures r.status != UP ==> r.status == DOWN && r.error.Some?
    ensures o.TcpResult? && o.code != 0 ==>
              r.error == Some("Connection failed (error code: " + IntToString(o.code) + ")")
    ensures o.TcpTimeout? ==> r.error == Some("Connection timeout")
    ensures o.TcpDnsError? ==> r.error == Some("DNS resolution failed: " + o.message)
    ensures o.TcpOtherError? ==> r.error == Some(o.message)
  {
    match o
    case TcpResult(code) =>
      if code == 0 then CheckResult(UP, Some(elapsedMs), None)
      else CheckResult(DOWN, Some(elapsedMs), Some("Connection failed (error code: " + IntToString(code) + ")"))
    case TcpTimeout => CheckResult(DOWN, None, Some("Connection timeout"))
    case TcpDnsError(m) => CheckResult(DOWN, None, Some("DNS resolution failed: " + m))
    case TcpOtherError(m) => CheckResult(DOWN, None, Some(m))
  }

  function CheckTcp(target: string, port: Option<int>, timeout: IntColumn, env: Environment): CheckResult
  {
    TcpResultOf(env.tcp(target, TcpPort(port), timeout), env.elapsedMs)
  }

  // ---------------------------------------------------------- database

  /** The default port for a database target without one, by the first of
      mysql, postgres, redis, mongodb found in the lowercased target. */
  function InferPort(target: string): (p: int)
    ensures p in {3306, 5432, 6379, 27017}
    ensures Contains(Lower(target), "mysql") ==> p == 3306
    ensures p == 5432 <==> !Contains(Lower(target), "mysql") && Contains(Lower(target), "postgres")
    ensures p == 6379 <==> !Contains(Lower(target), "mysql") && !Contains(Lower(target), "postgres")
                           && Contains(Lower(target), "redis")
    ensures p == 27017 <==> !Contains(Lower(target), "mysql") && !Contains(Lower(target), "postgres")
                            && !Contains(Lower(target), "redis") && Contains(Lower(target), "mongodb")
  {
    var t := Lower(target);
    if Contains(t, "mysql") then 3306
    else if Contains(t, "postgres") then 5432
    else if Contains(t, "redis") then 6379
    else if Contains(t, "mongodb") then 27017
    else 3306
  }

  /** The port a database check leaves in the connection. */
  function DatabasePort(target: string, port: Option<int>): (p: Option<int>)
    ensures PortSet(port) ==> p == port
    ensures !PortSet(port) ==> p == Some(InferPort(target))
  {
    if PortSet(port) then port else Some(InferPort(target))
  }

  // ---------------------------------------------------------- dispatch

  const CheckedTypes: seq<string> := ["http", "ping", "tcp", "database"]

  /** `check_connection` on a snapshot of the connection. */
  function Check(c: ConnectionRecord, env: Environment): (r: CheckResult)
    ensures r.status in {UP, DOWN, UNKNOWN}
    ensures r.status == UNKNOWN <==> c.connectionType !in CheckedTypes
    ensures c.connectionType !in CheckedTypes ==>
              r == CheckResult(UNKNOWN, None, Some("Unknown connection type: " + c.connectionType))
    ensures r.status == UP ==> r.responseTime.Some?
  {
    match c.connectionType
    case "http" => CheckHttp(c.target, c.port, c.timeout, env)
    case "ping" => CheckPing(c.target, c.timeout, env)
    case "tcp" => CheckTcp(c.target, c.port, c.timeout, env)
    case "database" => CheckTcp(c.target, DatabasePort(c.target, c.port), c.timeout, env)
    case _ => CheckResult(UNKNOWN, None, Some("Unknown connection type: " + c.connectionType))
  }

  /** A database check is the TCP check against the port it leaves behind. */
  lemma DatabaseIsTcp(c: ConnectionRecord, env: Environment)
    requires c.connectionType == "database"
    ensures Check(c, env) == CheckTcp(c.target, DatabasePort(c.target, c.port), c.timeout, env)
    ensures PortSet(c.port) ==> Check(c, env) == CheckTcp(c.target, c.port, c.timeout, env)
  {
  }

  /** `ConnectionChecker.check_connection`: for a database connection without
      a port, writes the inferred port into the connection first. */
  method CheckConnection(conn: Connection, env: Environment) returns (r: CheckResult)
    modifies conn
    ensures r == Check(old(conn.Record()), env)
    ensures conn.Record() == if old(conn.connectionType) == "database"
                             then old(conn.Record()).(port := DatabasePort(old(conn.target), old(conn.port)))
                             else old(conn.Record())
  {
    if conn.connectionType == "database" {
      if !PortSet(conn.port) {
        conn.port := Some(InferPort(conn.target));
      }
      r := CheckTcp(conn.target, conn.port, conn.timeout, env);
    } else {
      r := Check(conn.Record(), env);
    }
  }
}

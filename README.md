# uplite, modelled in Dafny

uplite is a small self-hosted monitoring dashboard. It keeps a table of
connections (HTTP endpoints, hosts to ping, TCP services and databases). A
background service checks each active connection once a minute and stores
the result on the connection and in a history table capped at 50 rows per
connection. A JSON API adds and edits connections and attaches a logo, either
uploaded or copied from a bundled icon set chosen by a keyword ranker. A
dashboard shows four widgets: system status, connection monitor, service
status and a logs viewer.

This project models the decision logic of that core and proves what it
promises. It has one module per source file:

- `Checker` (`checker.dfy`): the probes of `connection_checker.py`.
  - Dispatch on the connection type.
  - The HTTP URL rebuild: port injection and the default scheme.
  - The HTTP, ping and TCP outcome tables.
  - Database port inference.
  - The network outcome of each probe is an input.
- `History` (`history.dfy`): `connection_history.py`.
  - The history table is a `seq` held by the class `HistoryStore`.
  - `AddCheckResult` appends a row and prunes the connection to its 50 newest rows.
  - Also the median of recent latencies, the status counts in a time window and the chart window.
- `Connections` (`connection.dfy`): the `Connection` class of `connection.py`.
  - Its columns, and the constructor's keyword filter.
  - `update_status`, `get_chart_history` and the status colour.
  - How SQLite stores a value assigned to a column.
- `Api` and `ApiUpdate` (`api.dfy`, `api_update.dfy`): from `views/api.py`.
  - The upload whitelist and size limit, and the logo selection.
  - `add_connection` validation and argument conversion.
  - The whitelist-driven field coercion and commit of `update_connection`.
- `ConnectionMonitor`, `ServiceStatus`, `SystemStatus` and `LogsViewer`: the `get_data` of the four built-in widgets.
- `ImageSuggester` (`image_suggester.dfy`): from `image_suggester.py`.
  - Keyword extraction, icon loading, the match score and the service-pattern score.
  - The thresholded best match, the stable top-k search and the copy name.
- `Widgets`, `WidgetRegistry` and `Dashboard`: from `base_widget.py`, `widget_manager.py` and `views/dashboard.py`.
  - The widget defaults.
  - The lazily initialised registry, a class with a `map` and an order.
  - The creation of the default widget rows.
- `MonitorService` (`monitor_service.py`): one monitoring cycle over a sequence of `Connection` objects and the `HistoryStore`, and the main loop's pauses.
- `Common`: the Python values and built-ins the rest relies on.
  - `Value` models a JSON or form value, with truthiness.
  - Dictionaries are in insertion order.
  - Also `str.strip`, `str.lower`, `split`, `int()` of a string and decimal formatting.

The outside world is passed in as plain values:
- requests, sockets, subprocesses, psutil and the filesystem;
- the clock, in whole seconds;
- the `difflib` similarity;
- `secure_filename`;
- the database's refusal text.

Python `float` is modelled as Dafny `real`.

## Model

| member | source | states |
|---|---|---|
| Common.StringValues | src/uplite/widgets/builtin/service_status.py:119 | a list of names becomes the list of the same strings, position by position |
| Common.Get | src/uplite/views/api.py:229 | `d.get(key)` finds a value exactly when the key is present, and the value found is the one stored under the key |
| Common.GetOr | src/uplite/views/api.py:229 | `d.get(key, default)` (no contract of its own; see Common.Get) |
| Common.Truthy | src/uplite/views/api.py:224 | Python truthiness (no contract of its own; every `if x` of the model uses it) |
| Common.Keys | src/uplite/widgets/base_widget.py:63-70 | a dictionary's keys in insertion order, one per entry |
| Common.LowerChar | src/uplite/utils/connection_checker.py:185 | an upper-case ASCII letter becomes its lower-case letter and every other character is kept |
| Common.Lower | src/uplite/views/api.py:23 | `str.lower()` keeps the length and lowers each character in place |
| Common.ContainsAt | src/uplite/utils/connection_checker.py:132 | `sub in s` holds exactly when `sub` occurs at some index of `s` |
| Common.ContainsSelf | src/uplite/utils/image_suggester.py:168 | a string contains itself |
| Common.ContainsTransitive | src/uplite/utils/image_suggester.py:172 | containment of strings is transitive |
| Common.Find | src/uplite/utils/connection_checker.py:132-134 | the first occurrence of `sub`: it occurs there and at no earlier index; there is none exactly when `sub in s` is false |
| Common.IndexOf | src/uplite/utils/connection_checker.py:61 | the first index of a character, or none when the character does not occur |
| Common.LastIndexOf | src/uplite/views/api.py:23 | the last index of a character, as `rsplit(c, 1)` splits at, or none when the character does not occur |
| Common.LStrip | src/uplite/views/api.py:316 | the result is a suffix of the input; everything removed is white space and the result does not start with white space |
| Common.RStrip | src/uplite/views/api.py:316 | the result is a prefix of the input; everything removed is white space and the result does not end with white space |
| Common.Strip | src/uplite/views/api.py:316 | the input is the result padded on both sides with white space, and the result neither starts nor ends with white space |
| Common.StripNoop | src/uplite/views/api.py:262 | stripping a string without white space at either end gives it back |
| Common.Split | src/uplite/widgets/builtin/logs_viewer.py:77 | `s.split(c)` gives at least one piece and no piece holds `c` |
| Common.JoinSplit | src/uplite/widgets/builtin/logs_viewer.py:77 | round trip: joining the pieces of `s.split(c)` with `c` gives `s` back |
| Common.Join | src/uplite/widgets/builtin/logs_viewer.py:77 | `c.join(pieces)` (no contract of its own); Common.JoinSplit is its inverse |
| Common.JoinWithContainsPart | src/uplite/utils/image_suggester.py:188 | every part is found in `sep.join(parts)` |
| Common.JoinWith | src/uplite/utils/image_suggester.py:188 | `sep.join(parts)` (no contract of its own); Common.JoinWithContainsPart states it |
| Common.DigitChar | src/uplite/views/api.py:59 | the decimal digit character of a number below 10 |
| Common.NatToString | src/uplite/views/api.py:59 | the decimal text of a natural number is non-empty and all digits |
| Common.DigitsValueOfNat | src/uplite/views/api.py:59 | round trip: the decimal text of `n` reads back as `n` |
| Common.IntStringRoundTrip | src/uplite/views/api.py:322 | round trip: `int(str(n)) == n` for every integer, negative ones included |
| Common.ParseInt | src/uplite/views/api.py:322 | `int(s)` of a string (no contract of its own); Common.IntStringRoundTrip is the round trip with `str` |
| Common.IntToString | src/uplite/views/api.py:59 | `str(n)` (no contract of its own); Common.IntStringRoundTrip is its inverse |
| Common.Stamped | src/uplite/views/api.py:59 | `f"{now}_{name}"` is longer than `name` |
| Common.StampedRoundTrip | src/uplite/views/api.py:59 | the stamped name splits at its first '_' into the decimal text of the clock, which reads back as the clock, and the original name |
| Common.NatToStringNoChar | src/uplite/views/api.py:59 | the decimal text of a number holds no character other than digits, so no '_' |
| Checker.NetlocLength | src/uplite/utils/connection_checker.py:59 | the network location runs up to, and not including, the first '/', '?' or '#' |
| Checker.SplitUrl | src/uplite/utils/connection_checker.py:59 | a URL with an http or https scheme splits into scheme, network location and the rest, which concatenate back to the URL; the network location holds no '/', '?' or '#' and the rest starts with one |
| Checker.SplitAfterScheme | src/uplite/utils/connection_checker.py:59 | the text after `scheme://` splits into a network location free of '/', '?' and '#' and a rest starting with one of them |
| Checker.SchemeLength | src/uplite/utils/connection_checker.py:56 | a target passing the `startswith(("http://", "https://"))` test is "http" or "https" followed by "://" |
| Checker.ParsedPort | src/uplite/utils/connection_checker.py:60 | `parsed.port` is absent without port text and lies in 0..65535 whenever it is a number |
| Checker.WithPort | src/uplite/utils/connection_checker.py:54-67 | a target without scheme gets `:port` appended and still has no scheme; a schemed target keeps its scheme |
| Checker.HasScheme | src/uplite/utils/connection_checker.py:56 | the URL starts with `http://` or `https://` (no contract of its own; see Checker.WithPort and Checker.RequestUrl) |
| Checker.SchemeKept | src/uplite/utils/connection_checker.py:64 | `urlunparse` of an http or https scheme with any network location and rest passes the scheme test again |
| Checker.RequestUrl | src/uplite/utils/connection_checker.py:50-71 | the requested URL always has a scheme; no port or one already written as `:port` only adds `http://` when missing; a bare target gets `http://` and `:port`; a schemed target gets the port through the rebuild |
| Checker.PortSet | src/uplite/utils/connection_checker.py:54 | `if connection.port` (no contract of its own; see Checker.RequestUrl, Checker.TcpPort and Checker.DatabasePort) |
| Checker.PortSuffixAddsNoScheme | src/uplite/utils/connection_checker.py:65-67 | appending `:port` to a target without scheme never makes one, so line 70 always prefixes `http://` |
| Checker.PortInjectedIntoSchemedUrl | src/uplite/utils/connection_checker.py:56-64 | a schemed URL with no port of its own becomes `scheme://[user[:pw]@]host:port` followed by the unchanged path, query and fragment |
| Checker.HostPortSplits | src/uplite/utils/connection_checker.py:61 | `host:digits` splits back at its first ':' into the host and the digits, for a host without ':' |
| Checker.HostnameTextPlain | src/uplite/utils/connection_checker.py:61 | the formatted hostname holds neither ':' nor '@' when the parsed hostname holds neither |
| Checker.HostnameText | src/uplite/utils/connection_checker.py:61 | `parsed.hostname` in an f-string (no contract of its own); Checker.HostnameTextPlain states its meaning |
| Checker.UserinfoSplits | src/uplite/utils/connection_checker.py:62-63 | `user[:password]@rest` splits back at its last '@' and then at its first ':' into user and password |
| Checker.ParseHostinfo | src/uplite/utils/connection_checker.py:59-61 | after the last '@', a `host:digits` part parses to that hostname and that port text |
| Checker.PortTextParses | src/uplite/utils/connection_checker.py:60 | the decimal text of a port in 1..65535 parses back to that port |
| Checker.RebuiltNetlocParsesBack | src/uplite/utils/connection_checker.py:61-63 | the rebuilt network location parses back with the formatted hostname, the configured port and the same user name |
| Checker.RebuiltNetloc | src/uplite/utils/connection_checker.py:61-63 | the rebuilt network location (no contract of its own); Checker.RebuiltNetlocParsesBack proves it parses back to its parts |
| Checker.ParseNetlocShape | src/uplite/utils/connection_checker.py:59 | a parsed user name has no ':', a parsed hostname no '@' or ':', and none of the parts holds a '/', '?' or '#' the network location did not |
| Checker.ParseNetloc | src/uplite/utils/connection_checker.py:59-63 | `urlparse`'s split of a network location (no contract of its own); Checker.ParseNetlocShape and Checker.RebuiltNetlocParsesBack state it |
| Checker.SplitUrlOf | src/uplite/utils/connection_checker.py:59 | `scheme://netloc rest`, with the netloc free of '/', '?', '#', splits exactly into those three parts |
| Checker.NetlocLengthOf | src/uplite/utils/connection_checker.py:59 | the network location of `netloc + rest` is exactly `netloc` when `rest` starts at a '/', '?' or '#' |
| Checker.InjectedPortParsesBack | src/uplite/utils/connection_checker.py:56-64 | round trip: after the port is injected into a schemed URL, `urlparse` reads back the same scheme, the same path-query-fragment and exactly the configured port |
| Checker.NoNetlocEndHostPort | src/uplite/utils/connection_checker.py:61-63 | the rebuilt network location holds no '/', '?' or '#' when its parts hold none |
| Checker.HttpResult | src/uplite/utils/connection_checker.py:92-112 | a response under 400, or a 401 or 403, is up with the measured latency; 401 and 403 carry their two messages and other codes from 400 on are down with `HTTP <code>: <reason>`; a timeout gives 'Connection timeout', a connection error 'Connection refused' and any other request error its own text, all down without latency |
| Checker.PingCommand | src/uplite/utils/connection_checker.py:117-121 | the command is `ping -n 1 -w <timeout*1000> target` on Windows and `ping -c 1 -W <timeout> target` elsewhere |
| Checker.FirstWord | src/uplite/utils/connection_checker.py:134 | `split()[0]` is a non-empty run of non-space characters occurring in the text, and is missing exactly when the text is all white space |
| Checker.WordLength | src/uplite/utils/connection_checker.py:134 | the first word extends up to the first white space |
| Checker.PingResult | src/uplite/utils/connection_checker.py:123-147 | up exactly when ping exits with 0, with a latency and no error; otherwise down with no latency and the stripped stderr or 'Ping failed', 'Ping timeout' when the run times out |
| Checker.PingLatencySource | src/uplite/utils/connection_checker.py:127-138 | the latency is the parsed `time=` value when one is present and parses, and the wall-clock time when the output has no `time=` |
| Checker.PingLatency | src/uplite/utils/connection_checker.py:127-138 | the latency of a successful ping (no contract of its own); Checker.PingLatencySource states its two sources |
| Checker.PingTimeText | src/uplite/utils/connection_checker.py:127-138 | the "time=" text of ping's output (no contract of its own; see Checker.PingLatencySource) |
| Checker.CheckPing | src/uplite/utils/connection_checker.py:114-147 | a NULL timeout fails with the `TypeError` text of `None * 1000` on Windows and of `None + 5` elsewhere; a blank timeout fails with the text of `'' + 5` |
| Checker.TcpPort | src/uplite/utils/connection_checker.py:157 | `connection.port or 80` |
| Checker.TcpResultOf | src/uplite/utils/connection_checker.py:157-174 | up exactly on a `connect_ex` result of 0; the latency is there exactly when `connect_ex` returned; a non-zero code gives 'Connection failed (error code: N)', a timeout 'Connection timeout', a resolver error 'DNS resolution failed: <e>' and any other error its own text |
| Checker.InferPort | src/uplite/utils/connection_checker.py:183-194 | the default port follows the first of mysql, postgres, redis and mongodb found in the lowercased target, 3306 when none is |
| Checker.DatabasePort | src/uplite/utils/connection_checker.py:183-194 | a set port is kept and an unset one is replaced by the inferred default |
| Checker.Check | src/uplite/utils/connection_checker.py:20-43 | the status is up, down or unknown; unknown exactly for a type other than http, ping, tcp and database, with 'Unknown connection type: <t>'; an up result always has a latency |
| Checker.CheckTcp | src/uplite/utils/connection_checker.py:149-174 | `_check_tcp` (no contract of its own); Checker.Check, Checker.TcpPort and Checker.DatabaseIsTcp state its outcomes |
| Checker.CheckHttp | src/uplite/utils/connection_checker.py:45-112 | `_check_http` (no contract of its own); Checker.Check and Checker.HttpResult state its outcomes |
| Checker.DatabaseIsTcp | src/uplite/utils/connection_checker.py:176-196 | a database check is the TCP check against the port it leaves in the connection, and the plain TCP check when a port is set |
| Checker.CheckConnection | src/uplite/utils/connection_checker.py:20-43 | returns the check of the connection as it was and changes only the port, and only for a database connection without one |
| Connections.ColumnOf | src/uplite/models/connection.py:45 | `hasattr` accepts exactly the column names, and the column found carries the name asked for |
| Connections.ColumnOfName | src/uplite/models/connection.py:13-35 | every column is found again by its own name |
| Connections.ColumnName | src/uplite/models/connection.py:13-35 | the attribute name of each column (no contract of its own); Connections.ColumnOfName proves it the inverse of Connections.ColumnOf |
| Connections.IntegerOf | src/uplite/models/connection.py:18-20 | an integer column stores an int as itself and a bool as 0 or 1; only ints, bools and integral floats are stored as integers |
| Connections.TextOf | src/uplite/models/connection.py:14-17 | a text column stores a string as itself and an int as its decimal text; only strings, ints and bools are stored as text |
| Connections.WithAttr | src/uplite/models/connection.py:44-46 | `setattr` of a non-column key changes nothing; a string name, an int name as its decimal text, an int port or timeout, a string description and a bool is_active are stored as given; None or '' clears the port; None stores NULL and '' stores the blank text in timeout and check_interval |
| Connections.SetColumnOnlyThatColumn | src/uplite/models/connection.py:44-46 | storing into one column leaves every other column as it was |
| Connections.SetColumn | src/uplite/models/connection.py:46 | `setattr` on one column (no contract of its own); Connections.SetColumnOnlyThatColumn and Connections.SetColumnAgree state it |
| Connections.WithAttrOnlyThatColumn | src/uplite/models/connection.py:44-46 | `setattr` changes at most the column its key names |
| Connections.ApplyKwargsSnoc | src/uplite/models/connection.py:44-46 | the keyword loop applies the keywords one after another, in order |
| Connections.ApplyKwargs | src/uplite/models/connection.py:44-46 | the constructor's keyword loop (no contract of its own); Connections.ApplyKwargsSnoc, Connections.UnknownKwargsIgnored, Connections.KwargsKeepUnnamed and Connections.KwargsSingleWrite state it |
| Connections.UnknownKwargsIgnored | src/uplite/models/connection.py:44-46 | keywords that name no column leave the connection as it was |
| Connections.KwargsKeepUnnamed | src/uplite/models/connection.py:44-46 | a column no keyword names keeps its value |
| Connections.SetColumnAgree | src/uplite/models/connection.py:44-46 | storing the same value into two connections that agree on a column keeps them agreeing there |
| Connections.KwargsSingleWrite | src/uplite/models/connection.py:44-46 | a column named by exactly one keyword ends holding what that keyword alone stores |
| Connections.SameExceptAgree | src/uplite/models/connection.py:13-35 | connections equal except on one column agree on every other column |
| Connections.AgreeTransitive | src/uplite/models/connection.py:13-35 | agreement on a column is transitive |
| Connections.StatusColor | src/uplite/models/connection.py:89-96 | up gives success, down danger and unknown warning, each exactly for that status; anything else, None included, gives secondary |
| Connections.Connection.SetAttr | src/uplite/models/connection.py:46 | the object's columns become those of `setattr` on its snapshot |
| Connections.Connection.Record | src/uplite/models/connection.py:13-35 | the row a `Connection` object holds (no contract of its own; every method of the class states its new state through it) |
| Connections.Connection.SetNamingColumn | src/uplite/models/connection.py:46 | storing into id, name or description changes the object as `SetColumn` does |
| Connections.TextCell | src/uplite/models/connection.py:14-17 | a NOT NULL text column after a write (no contract of its own; see Connections.Connection.SetNamingColumn) |
| Connections.Connection.SetEndpointColumn | src/uplite/models/connection.py:46 | storing into connection_type, target or port changes the object as `SetColumn` does |
| Connections.PortCell | src/uplite/models/connection.py:18 | the port column after a write; a blank string reads as no port (no contract of its own; see Connections.Connection.SetEndpointColumn and Left out) |
| Connections.Connection.SetScheduleColumn | src/uplite/models/connection.py:46 | storing into timeout, check_interval or is_active changes the object as `SetColumn` does |
| Connections.IntCell | src/uplite/models/connection.py:19-20 | the `timeout` or `check_interval` column after a write (no contract of its own; see Connections.Connection.SetScheduleColumn) |
| Connections.Connection.SetBookkeepingColumn | src/uplite/models/connection.py:46 | storing into created_at, updated_at or logo_filename changes the object as `SetColumn` does |
| Connections.OptInt | src/uplite/models/connection.py:22-23 | a nullable timestamp column after a write (no contract of its own; see Connections.Connection.SetBookkeepingColumn) |
| Connections.Connection.SetLatestCheckColumn | src/uplite/models/connection.py:46 | storing into last_check, last_status or last_response_time changes the object as `SetColumn` does |
| Connections.Connection.SetDetailColumn | src/uplite/models/connection.py:46 | storing into last_error or config_options changes the object as `SetColumn` does |
| Connections.OptString | src/uplite/models/connection.py:15 | a nullable text column after a write (no contract of its own; see Connections.Connection.SetDetailColumn) |
| Connections.Connection.constructor | src/uplite/models/connection.py:37-46 | the new object is the initial record with name, type and target, with the keywords applied in order |
| Connections.Connection.UpdateStatus | src/uplite/models/connection.py:48-66 | sets last_check and updated_at to the clock and last_status, last_response_time and last_error to the arguments, changing no other column; appends exactly one history row with the next id, this connection's id and the same values, then prunes this connection to its 50 newest rows |
| Connections.Connection.CacheOutcome | src/uplite/models/connection.py:53-55 | sets the three cached result columns to the arguments and nothing else |
| Connections.Connection.Stamp | src/uplite/models/connection.py:52-56 | sets last_check and updated_at to the clock and nothing else |
| Connections.Connection.ChartHistory | src/uplite/models/connection.py:72-83 | returns the chart window of its own history: at most `limit` of its newest rows, oldest first |
| Connections.ReverseInPlace | src/uplite/models/connection.py:81 | `list.reverse()` leaves the array holding the reverse of its old contents |
| Connections.HealthyIffSuccess | src/uplite/models/connection.py:85-96 | a connection is healthy exactly when its colour is success |
| Connections.Connection.GetStatusColor | src/uplite/models/connection.py:89-96 | `get_status_color` (no contract of its own); Connections.HealthyIffSuccess ties it to `is_healthy` |
| Connections.Connection.IsHealthy | src/uplite/models/connection.py:85-87 | `is_healthy` (no contract of its own); Connections.HealthyIffSuccess ties it to the status colour |
| History.InsertNewest | src/uplite/models/connection_history.py:45 | inserting a row into the descending order keeps every row and adds the new one |
| History.InsertNewestSorted | src/uplite/models/connection_history.py:45 | inserting into a newest-first list keeps it newest-first |
| History.NewestFirst | src/uplite/models/connection_history.py:44-45 | `order_by(timestamp.desc())` is a permutation of the rows, sorted newest first |
| History.NewestSplit | src/uplite/models/connection_history.py:45-46 | the k newest rows (all when fewer) and the rows past offset k make up all the rows; every kept row is newer than or as new as every row past the offset |
| History.BeyondNewest | src/uplite/models/connection_history.py:45-46 | `order_by(timestamp.desc()).offset(k)` (no contract of its own); History.NewestSplit states it |
| History.Newest | src/uplite/models/connection_history.py:45 | `order_by(timestamp.desc()).limit(k)` (no contract of its own); History.NewestSplit and History.PruneKeepsNewest state it |
| History.ForConnection | src/uplite/models/connection_history.py:44 | `filter_by(connection_id=cid)` keeps exactly that connection's rows |
| History.Without | src/uplite/models/connection_history.py:48-49 | deleting rows leaves exactly the rows not deleted |
| History.WithoutMore | src/uplite/models/connection_history.py:48-49 | deleting one more row in the loop is deleting the longer list |
| History.ForConnectionWithout | src/uplite/models/connection_history.py:44-49 | filtering by connection and deleting rows commute |
| History.UniqueIdsWithout | src/uplite/models/connection_history.py:14 | deleting rows keeps the primary keys distinct |
| History.UniqueIdsForConnection | src/uplite/models/connection_history.py:14 | filtering keeps the primary keys distinct |
| History.WithoutSplit | src/uplite/models/connection_history.py:44-49 | with distinct keys, deleting the surplus of a split leaves exactly the other part |
| History.PruneKeepsOthers | src/uplite/models/connection_history.py:44-49 | pruning one connection leaves every other connection's rows exactly as they were |
| History.Pruned | src/uplite/models/connection_history.py:44-49 | the table after pruning one connection (no contract of its own); History.PruneKeepsOthers, History.PruneKeepsNewest and History.PruneDropsOldest state it |
| History.PruneKeepsNewest | src/uplite/models/connection_history.py:42-49 | after pruning, the connection keeps exactly its 50 newest rows, so it has min(n, 50) rows |
| History.PruneDropsOldest | src/uplite/models/connection_history.py:44-49 | every row pruned is deleted, and no kept row is older than a pruned one |
| History.Surplus | src/uplite/models/connection_history.py:44-47 | the rows pruning deletes (no contract of its own); History.PruneDropsOldest states it |
| History.FreshEntrySurvives | src/uplite/models/connection_history.py:34-49 | the row just added, with the largest id and the latest timestamp of its connection, survives the pruning |
| History.FilterQualifying | src/uplite/models/connection_history.py:57-60 | the median filter keeps exactly the up rows with a response time |
| History.QualifiesForMedian | src/uplite/models/connection_history.py:57-60 | rows counted in the median: UP with a latency (no contract of its own; see History.FilterQualifying) |
| History.Latencies | src/uplite/models/connection_history.py:66 | the response times of the sample, position by position |
| History.MedianSample | src/uplite/models/connection_history.py:57-61 | the sample is the connection's qualifying rows, newest first, as many as `periods` allows, and no qualifying row left out is newer than one taken |
| History.MedianSampleSize | src/uplite/models/connection_history.py:61-64 | the sample has at most `periods` rows, and is empty exactly when `periods` is 0 or no row qualifies |
| History.MedianResponseTime | src/uplite/models/connection_history.py:54-67 | None exactly when the sample is empty, and otherwise the median of the sample's response times |
| History.InsertReal | src/uplite/models/connection_history.py:67 | inserting a value keeps every value and adds the new one |
| History.InsertRealSorted | src/uplite/models/connection_history.py:67 | inserting into a sorted list keeps it sorted |
| History.SortReals | src/uplite/models/connection_history.py:67 | `median` sorts: the result is sorted and a permutation of its input |
| History.CountPermutation | src/uplite/models/connection_history.py:67 | how many values lie at most or at least `m` does not depend on their order |
| History.MiddleOfSorted | src/uplite/models/connection_history.py:67 | the middle of a sorted list (the mean of the two middle values for an even count) has at least half the values at or below it and at least half at or above it, and lies between the first and last |
| History.MedianIsMiddle | src/uplite/models/connection_history.py:67 | the median has at least half the values at or below it and at least half at or above it, and some value lies at or below it and some at or above it |
| History.Median | src/uplite/models/connection_history.py:67 | `statistics.median` (no contract of its own); History.MedianIsMiddle and History.MedianOfOne state it |
| History.MedianOfOne | src/uplite/models/connection_history.py:67 | the median of one value is that value |
| History.InWindow | src/uplite/models/connection_history.py:72-76 | the window holds exactly the connection's rows at or after the cutoff |
| History.CountStatusAbsent | src/uplite/models/connection_history.py:78-80 | a status no row has counts 0 |
| History.SumValuesRemove | src/uplite/models/connection_history.py:78-80 | the total of the counts is one count plus the total of the rest |
| History.SumValuesIncrement | src/uplite/models/connection_history.py:80 | one increment raises the total of the counts by one |
| History.Bump | src/uplite/models/connection_history.py:80 | `counts.get(status, 0) + 1` adds the key when missing, raises its count by one and leaves every other key's count alone |
| History.SumValuesZero | src/uplite/models/connection_history.py:78 | counts that are all 0 total 0 |
| History.CountStep | src/uplite/models/connection_history.py:79-80 | one more row of the loop keeps the counts equal to the per-status counts of the rows seen |
| History.CountsStart | src/uplite/models/connection_history.py:78 | the initial counts up, down and unknown at 0 are the counts of no rows |
| History.Reversed | src/uplite/models/connection.py:81 | the reversal keeps the length and puts position k at position n-1-k |
| History.ReversedMembers | src/uplite/models/connection.py:81 | reversing keeps the same rows |
| History.ChartWindowContents | src/uplite/models/connection.py:76-78 | the chart window holds min(limit, n) of the connection's own rows |
| History.ChartWindow | src/uplite/models/connection.py:76-81 | the chart window (no contract of its own); History.ChartWindowContents, History.ChartWindowOrder and History.ChartWindowNewest state it |
| History.ChartWindowOrder | src/uplite/models/connection.py:76-81 | the chart window runs oldest first |
| History.ChartWindowNewest | src/uplite/models/connection.py:76-78 | no row left out of the chart window is newer than one in it |
| History.ReversedOldestFirst | src/uplite/models/connection.py:81 | reversing a newest-first list gives an oldest-first one |
| History.AppendValid | src/uplite/models/connection_history.py:14-40 | adding a row with the next id keeps the keys distinct and below the next id |
| History.WithoutValid | src/uplite/models/connection_history.py:48-49 | deleting rows keeps the table valid |
| History.HistoryStore.constructor | src/uplite/models/connection_history.py:9-19 | the table starts empty with next id 0 |
| History.HistoryStore.AddCheckResult | src/uplite/models/connection_history.py:32-52 | the new row carries the next id, the clock and exactly the given connection, status, response time and error; the table becomes the old one plus that row, with the connection's rows past its 50 newest deleted (`History.PruneKeepsNewest`, `History.PruneKeepsOthers`); the table stays valid |
| History.HistoryStore.RecentStatusCounts | src/uplite/models/connection_history.py:70-82 | the keys are up, down and unknown plus every status in the window of rows at or after now − 3600·hours; each count is that status's number of rows there, and the counts sum to the window's size |
| History.CountStatus | src/uplite/models/connection_history.py:78-80 | the rows with a status (no contract of its own; see History.HistoryStore.RecentStatusCounts) |
| Api.Truncate | src/uplite/views/api.py:264-266 | `int()` of a float truncates toward zero: the result is within one below a non-negative float and one above a negative one |
| Api.PyInt | src/uplite/views/api.py:264-266 | `int(v)`: an int as it is; a string converts exactly when it is a decimal literal, to that literal's value, and raises ValueError otherwise; None, lists and dicts raise TypeError |
| Common.TypeName | src/uplite/views/api.py:264-266 | `type(v).__name__` as Python's TypeError messages quote it (no contract of its own; see Api.PyInt) |
| Api.Repr | src/uplite/views/api.py:264-266 | `repr` of a plain string inside the `int()` ValueError message (no contract of its own; its use is stated by Api.PyInt) |
| Api.PyIntOfDecimal | src/uplite/views/api.py:264 | `int()` of the decimal text of any integer gives that integer |
| Api.Stripped | src/uplite/views/api.py:260-263 | `.strip()` strips a string and raises AttributeError "'<type>' object has no attribute 'strip'" on any other value |
| Api.NoAttribute | src/uplite/views/api.py:260-263 | the AttributeError text for calling `.strip()`/`.lower()`/`.get()` on a value without it (no contract of its own; used by Api.Stripped and ApiUpdate.UpdateResponses) |
| Api.AllowedFileMeaning | src/uplite/views/api.py:21-23 | a file name is allowed exactly when it has a '.' and the text after its last '.', lowercased, is png, jpg, jpeg or gif |
| Api.AllowedFile | src/uplite/views/api.py:21-23 | `allowed_file` (no contract of its own); its meaning is proved in Api.AllowedFileMeaning and Api.AllowedFileOfExtension |
| Api.AllowedFileOfExtension | src/uplite/views/api.py:18-23 | `base.ext` is allowed exactly when `ext` lowercased is one of the four extensions, whatever `base` is |
| Api.HandleLogoUpload | src/uplite/views/api.py:40-68 | the only exception the upload helper raises is a ValueError |
| Api.UploadAccepted | src/uplite/views/api.py:40-68 | a named file is accepted exactly when its extension is allowed and it is at most 2 MiB; a bad extension raises 'Invalid file type…'; an allowed but larger file raises 'File too large…'; an accepted one is stored as `<clock>_<secure name>` |
| Api.UploadSizeBoundary | src/uplite/views/api.py:19-52 | a file of exactly 2·1024·1024 bytes is accepted and one byte more raises 'File too large' |
| Api.LogoSources | src/uplite/views/api.py:25-38 | only a named upload can raise, with a ValueError; a logo obtained is the stamped upload when a named file came, and otherwise the stamped copy of a loaded icon that the choice names |
| Api.HandleLogoSelection | src/uplite/views/api.py:25-38 | `handle_logo_selection` (no contract of its own); its meaning is proved in Api.LogoSources and Api.UploadWins |
| Api.CopyIcon | src/uplite/views/api.py:34-36 | `copy_icon_to_connections` on the choice; a non-string choice gives no logo (no contract of its own; see Api.LogoSources) |
| Api.UploadWins | src/uplite/views/api.py:29-31 | with a named upload the icon choice makes no difference |
| Api.LogoChoice | src/uplite/views/api.py:239 | the `logo_choice` lookup; only the truthiness of the body entry matters (no contract of its own; used by Api.AddConnection and ApiUpdate.UpdateConnection) |
| Api.FirstMissing | src/uplite/views/api.py:227-230 | none is missing exactly when every required field has a truthy value; otherwise it is the first required field without one |
| Api.Provided | src/uplite/views/api.py:229 | `data.get(field)` is truthy (no contract of its own; Api.FirstMissing and Api.ValidateMeaning state its use) |
| Api.CheckRequired | src/uplite/views/api.py:228-230 | the loop with its early return finds the first missing required field |
| Api.ValidTypeStripped | src/uplite/views/api.py:233-262 | an accepted connection type is unchanged by the `.strip()` at line 262 |
| Api.ValidateMeaning | src/uplite/views/api.py:224-235 | a body is accepted exactly when it is a non-empty object with truthy name, connection_type and target and an unstripped type among the four; a falsy body gives 400 'No data provided'; a truthy non-object gives the 500 handler's response; every other rejection is a 400 |
| Api.Validate | src/uplite/views/api.py:224-235 | the checks before the `try` (no contract of its own); its meaning in both directions is proved in Api.ValidateMeaning |
| Api.ValidType | src/uplite/views/api.py:233-234 | the connection type is one of the four (no contract of its own; Api.ValidateMeaning states its use) |
| Api.PortArgumentMeaning | src/uplite/views/api.py:264 | the port is None exactly when the value is falsy or blank; a non-blank decimal string gives its integer; other non-blank strings raise ValueError; a non-zero int is kept |
| Api.PortArgument | src/uplite/views/api.py:264 | the port argument (no contract of its own); its meaning is proved in Api.PortArgumentMeaning |
| Api.DescriptionArgument | src/uplite/views/api.py:261 | the description is never stored as an empty string, and an empty one becomes None |
| Api.CreateKwargsRecord | src/uplite/views/api.py:259-268 | the constructor with the five keyword arguments of lines 261-267 builds the record that holds exactly those values |
| Connections.Initial | src/uplite/models/connection.py:37-41 | the connection before keyword arguments: the three given columns over the defaults (no contract of its own; see Api.CreateKwargsRecord) |
| Api.CreateKwargs | src/uplite/views/api.py:259-268 | the keyword arguments of the constructor call (no contract of its own; see Api.CreateKwargsRecord) |
| Api.NewRecord | src/uplite/views/api.py:259-268 | the constructed connection over the constructor defaults (no contract of its own); Api.CreateKwargsRecord proves it is what the constructor call builds |
| Api.FieldsOfAbsent | src/uplite/views/api.py:261-266 | an absent description reads as '', an absent port as None, an absent timeout as 10 and an absent check_interval as 60 |
| Api.FieldsOf | src/uplite/views/api.py:260-266 | the entries read with the defaults of `data.get` (no contract of its own); Api.FieldsOfAbsent states the defaults |
| Api.ArgumentsMeaning | src/uplite/views/api.py:259-268 | converted arguments have stripped name, target and type (each a string), a description that is never '' and None for an empty one, no port when none was given, and the defaults 10 and 60 |
| Api.Arguments | src/uplite/views/api.py:260-266 | the argument conversions in order (no contract of its own); its meaning is proved in Api.ArgumentsMeaning |
| Api.Create | src/uplite/views/api.py:246-273 | a 201 carries the new connection with the converted arguments, active, never checked and created at the clock, holding the logo obtained when there is one and otherwise the outcome of the suggestion step (Api.SuggestedLogo, whose meaning Api.SuggestedLogoMeaning proves) |
| Api.SuggesterFailure | src/uplite/views/api.py:246-257 | the AttributeError the suggester raises for a non-string name or target (no contract of its own; Api.Create states when no failure allows a 201) |
| Api.SuggestedLogo | src/uplite/views/api.py:247-257 | the suggestion step for string arguments (no contract of its own); its meaning is proved in Api.SuggestedLogoMeaning |
| Api.SuggestedLogoMeaning | src/uplite/views/api.py:247-257 | the logo is kept when no icon scores 5; otherwise the suggestion is a loaded icon scoring at least 5 and no lower than any other, and the step stores its stamped copy exactly when its file exists and the copy succeeds, and no logo otherwise |
| Api.CreateSuggestsLogo | src/uplite/views/api.py:246-268 | without an obtained logo a created connection holds the stamped copy of the suggested icon when its file exists and the copy succeeds, no logo when the copy fails, and the logo as it was when nothing is suggested |
| Api.HasLogo | src/uplite/views/api.py:247 | `if logo_filename:` (no contract of its own; Api.Create, Api.CreatedKeepsLogo and Api.CreateSuggestsLogo state both branches) |
| Api.CreateMeaning | src/uplite/views/api.py:259-273 | a 201 holds a connection built from the request's own fields at the clock |
| Api.CreatedFrom | src/uplite/views/api.py:259-268 | what a connection built from a body holds (no contract of its own; Api.CreateMeaning and Api.CreatedRecord prove it of every 201) |
| Api.CreatedRecord | src/uplite/views/api.py:224-273 | a 201 from the corrected endpoint implies the body passed validation, and the stored type is the one sent, one of the four |
| Api.AcceptedCreate | src/uplite/views/api.py:224-273 | a 201 comes only from an accepted body whose logo selection succeeded, followed by the creation step with that logo |
| Api.AddConnection | src/uplite/views/api.py:210-279 | implements the CORRECTED add_connection, in which the logo reaches the connection only through the constructor, because lines 243-244 are removed; the code as written is `Api.AddConnectionResponseAsWritten` (see Findings) |
| Api.AddConnectionResponse | src/uplite/views/api.py:210-279 | the corrected `add_connection` (no contract of its own); its meaning is proved in Api.AddConnection, Api.AcceptedCreate, Api.CreatedRecord and Api.CreatedKeepsLogo |
| Api.InvalidTypeMessage | src/uplite/views/api.py:235 | the invalid-type message listing the four types (no contract of its own; Api.AddConnection states when it is sent) |
| Api.Raised | src/uplite/views/api.py:275-279 | the two handlers: ValueError answers 400 with its text, any other exception 500 (no contract of its own; Api.AddConnection and ApiUpdate.UpdateResponses state the codes) |
| Api.CreateConnection | src/uplite/views/api.py:246-279 | the creation step after the logo is known, as the `Create` response |
| Api.AsWrittenRejectsEveryLogo | src/uplite/views/api.py:243-244 | as written, every accepted body that obtains a logo ends in 500 with the UnboundLocalError text 'cannot access local variable 'connection' where it is not associated with a value' |
| Api.AddConnectionResponseAsWritten | src/uplite/views/api.py:237-279 | `add_connection` as written (no contract of its own); Api.AsWrittenRejectsEveryLogo, Api.AsWrittenUploadFails and Api.AsWrittenAgreesWithoutLogo state what it does |
| Api.SampleBodyAccepted | src/uplite/views/api.py:224-235 | a concrete JSON body with name, type http and target passes validation |
| Api.SampleUploadSelected | src/uplite/views/api.py:29-31 | a concrete upload `logo.png` of 100 bytes is selected and stamped |
| Api.AsWrittenUploadFails | src/uplite/views/api.py:240-244 | the as-written endpoint answers that concrete body and upload with the 500 UnboundLocalError response |
| Api.AsWrittenAgreesWithoutLogo | src/uplite/views/api.py:243-257 | without a logo, or when the selection raises, the as-written and corrected endpoints answer alike |
| Api.CreatedKeepsLogo | src/uplite/views/api.py:239-267 | in the corrected endpoint, a connection created after a logo was obtained stores that logo |
| ApiUpdate.KindOfField | src/uplite/views/api.py:318-328 | port, timeout and check_interval take the integer branch, is_active the boolean branch and description the empty-to-None branch |
| ApiUpdate.ActiveCoercion | src/uplite/views/api.py:318-319 | is_active never raises and becomes true exactly for the stripped strings 'true', 'True' and '1' and for the values equal to 1 (True, 1, 1.0) |
| Api.PyIn | src/uplite/views/api.py:318-319 | `v in [...]` with Python equality, under which True == 1 (no contract of its own; its meaning for `is_active` is in ApiUpdate.ActiveCoercion) |
| ApiUpdate.IntCoercion | src/uplite/views/api.py:321-325 | a falsy port, timeout or interval is written as it is (after stripping); a non-blank decimal string becomes its integer; any other non-blank string raises the ValueError "invalid literal for int() with base 10: '<s>'"; an int is kept |
| ApiUpdate.TextCoercion | src/uplite/views/api.py:315-316 | name, connection_type and target are written stripped when strings and unchanged otherwise |
| ApiUpdate.Coerce | src/uplite/views/api.py:314-328 | the per-field conversion (no contract of its own); its meaning per branch is proved in ApiUpdate.ActiveCoercion, ApiUpdate.IntCoercion, ApiUpdate.TextCoercion, ApiUpdate.DescriptionCoercion and ApiUpdate.OnlyIntFieldsRaise |
| ApiUpdate.StripIfString | src/uplite/views/api.py:315-316 | a string value is stripped first (no contract of its own; see ApiUpdate.TextCoercion) |
| ApiUpdate.DescriptionCoercion | src/uplite/views/api.py:327-328 | a blank description is written as None and any other string stripped; a non-string is kept when truthy and becomes None when falsy |
| ApiUpdate.OnlyIntFieldsRaise | src/uplite/views/api.py:320-325 | only a truthy port, timeout or interval can raise, and its exception is the one `int()` raises on it |
| ApiUpdate.Entries | src/uplite/views/api.py:311-313 | one entry per whitelisted field, in whitelist order |
| ApiUpdate.EntryOf | src/uplite/views/api.py:311-313 | what the body gives for one field, converted (no contract of its own; see ApiUpdate.Entries) |
| ApiUpdate.EntriesAt | src/uplite/views/api.py:311-313 | the k-th entry is the k-th field's |
| ApiUpdate.EntriesNames | src/uplite/views/api.py:311 | each entry carries its field's name |
| ApiUpdate.EntryAbsent | src/uplite/views/api.py:312 | a field absent from the body gives no conversion |
| ApiUpdate.EntryGiven | src/uplite/views/api.py:312-328 | a field present in the body gives the conversion of its value |
| ApiUpdate.FoldSnoc | src/uplite/views/api.py:311-329 | one more field: nothing changes after a raise; an absent field changes nothing; a raising conversion records its exception; otherwise one more assignment |
| ApiUpdate.Fold | src/uplite/views/api.py:311-329 | the loop's assignments up to the first conversion that raises (no contract of its own); ApiUpdate.FoldSnoc, ApiUpdate.FoldAssignments and ApiUpdate.FoldFailure state it |
| ApiUpdate.FoldFailureSticks | src/uplite/views/api.py:334-338 | once a conversion has raised, the later fields are never reached |
| ApiUpdate.FoldAssignments | src/uplite/views/api.py:329 | every assignment made is a field's own converted value |
| ApiUpdate.PlanAvoids | src/uplite/views/api.py:310 | a field outside the whitelist is never assigned |
| ApiUpdate.FoldNamesDistinct | src/uplite/views/api.py:310-329 | each field is assigned at most once |
| ApiUpdate.FoldFailure | src/uplite/views/api.py:311-338 | a failure is the exception of some field's conversion, every earlier given field converting; without a failure every given field converts |
| ApiUpdate.FoldFirstRaise | src/uplite/views/api.py:311-325 | when the first given field raises, nothing is assigned and that exception is the failure |
| ApiUpdate.FoldComplete | src/uplite/views/api.py:329 | without a failure, every converted value is assigned to its field |
| ApiUpdate.WithLogo | src/uplite/views/api.py:305-306 | an obtained logo replaces the logo column and nothing else changes; without a logo the connection is unchanged |
| ApiUpdate.Committed | src/uplite/models/connection.py:23 | the commit stamps `updated_at` with the clock exactly when the stored row differs from the loaded one, and touches no other column; SQLAlchemy compares each assigned value with the loaded one instead (see Left out) |
| ApiUpdate.UpdateConnection | src/uplite/views/api.py:282-338 | the method's response, commit flag and the connection it leaves are the outcome of lines 296-338 on the connection as loaded; what that outcome stores, logo included, is proved in ApiUpdate.UpdateStoresField and ApiUpdate.UpdateStoresLogo |
| ApiUpdate.UpdateOutcome | src/uplite/views/api.py:296-338 | `update_connection` on the loaded connection (no contract of its own); its meaning is proved in ApiUpdate.UpdateResponses, ApiUpdate.UpdateStoresField, ApiUpdate.UpdateStoresLogo and ApiUpdate.UpdateKeepsOtherColumns |
| ApiUpdate.WriteFields | src/uplite/views/api.py:310-329 | the loop writes the converted values of the given whitelisted fields in order, stopping at the first failing conversion, and reports that failure |
| ApiUpdate.Coerced | src/uplite/views/api.py:310-329 | the loop's plan for a body (no contract of its own); ApiUpdate.WriteFields and ApiUpdate.PlanAvoids state its content |
| ApiUpdate.UpdatableDistinct | src/uplite/views/api.py:310 | the whitelist names each field once |
| ApiUpdate.UpdateResponses | src/uplite/views/api.py:296-338 | the update is committed exactly when the answer is 200, which then carries the stored connection; a falsy body gives 400 'No data provided' and changes nothing; every answer is 200, 400 or 500 |
| ApiUpdate.ProceedResponses | src/uplite/views/api.py:305-338 | once the body is read, the update is committed exactly when the answer is 200, which then carries the stored connection; every answer is 200, 400 or 500 |
| ApiUpdate.Proceed | src/uplite/views/api.py:300-338 | the update once the logo is obtained (no contract of its own); its meaning is proved in ApiUpdate.ProceedResponses and ApiUpdate.ProceedStoresLogo |
| ApiUpdate.UpdatableColumn | src/uplite/views/api.py:310 | every whitelisted field is a column other than logo_filename and updated_at |
| ApiUpdate.WrittenKeepsOtherColumns | src/uplite/views/api.py:305-329 | a column neither whitelisted nor the logo keeps its value through the writes |
| ApiUpdate.UpdateKeepsOtherColumns | src/uplite/views/api.py:296-338 | the update changes no column outside the whitelist, the logo and updated_at |
| ApiUpdate.WrittenStoresField | src/uplite/views/api.py:311-329 | without a failure, a given whitelisted field's column holds what `setattr` of its converted value stores |
| ApiUpdate.UpdateStoresField | src/uplite/views/api.py:311-332 | after a commit, each given whitelisted field's column holds what `setattr` of its converted value stores |
| ApiUpdate.UpdateStoresLogo | src/uplite/views/api.py:300-332 | after a committed update the logo column holds the obtained logo when it is truthy, and the logo as it was otherwise; the body's own `logo_filename` entry never reaches it |
| ApiUpdate.ProceedStoresLogo | src/uplite/views/api.py:305-332 | once the logo is obtained, a committed update stores it when it is truthy and keeps the old one otherwise |
| ApiUpdate.UpdateFailure | src/uplite/views/api.py:320-338 | a raising conversion is answered by its handler (400 for ValueError, 500 otherwise) and commits nothing, and the raising field is a given port, timeout or interval |
| ApiUpdate.FailureField | src/uplite/views/api.py:320-325 | a failure names a given integer field whose conversion raised it |
| ApiUpdate.UpdateRefused | src/uplite/views/api.py:329-338 | a given field whose converted value its column refuses (a list or dict outside config_options, None in a NOT NULL column) is never committed; when every conversion succeeded the answer is the commit's 500 with the database's message |
| Connections.Storable | src/uplite/models/connection.py:13-35 | what the database accepts in a column at the commit (no contract of its own; see ApiUpdate.UpdateRefused) |
| ApiUpdate.UpdateFalsyIntegerFields | src/uplite/views/api.py:321-329 | after a commit, a blank or null port leaves the connection without a port, and a blank timeout or interval is stored as the blank text and a null one as NULL |
| ApiUpdate.FalsyPortStored | src/uplite/views/api.py:321-329 | after a commit, a blank or null port leaves the connection without a port |
| ApiUpdate.FalsyTimeoutStored | src/uplite/views/api.py:321-329 | after a commit, a blank timeout is stored as the blank text and a null one as NULL |
| ApiUpdate.FalsyIntervalStored | src/uplite/views/api.py:321-329 | after a commit, a blank check_interval is stored as the blank text and a null one as NULL |
| ApiUpdate.FalsyCoerced | src/uplite/views/api.py:321-325 | a blank port, timeout or interval is written as '' and a null one as None, without `int()` |
| ApiUpdate.Blank | src/uplite/views/api.py:321-325 | a string that strips to nothing, which line 321's truthiness test lets through to `setattr` unconverted (no contract of its own; see ApiUpdate.FalsyCoerced) |
| ApiUpdate.NoLogoSelected | src/uplite/views/api.py:301-302 | a JSON body without logo_choice and without an upload selects no logo |
| ApiUpdate.PortFirstFailure | src/uplite/views/api.py:311-322 | when the port is the first given field and raises, nothing is assigned |
| ApiUpdate.BadPortPlan | src/uplite/views/api.py:321-322 | a non-numeric port as the first given field fails with its ValueError text |
| ApiUpdate.UpdateBadPort | src/uplite/views/api.py:321-335 | a body whose first given field is a non-numeric port is answered 400 with the ValueError text and leaves the connection unchanged and uncommitted |
| ApiUpdate.LetterIsNoInteger | src/uplite/views/api.py:322 | 'x' is no decimal literal, so it serves as a concrete non-numeric port |
| ConnectionMonitor.DefaultConfig | src/uplite/widgets/builtin/connection_monitor.py:105-111 | the default configuration has exactly the keys refresh_interval, show_response_times and max_connections_display, in that order |
| ConnectionMonitor.Active | src/uplite/widgets/builtin/connection_monitor.py:30 | `filter_by(is_active=True)` keeps only active connections and never more rows than the table has |
| ConnectionMonitor.ActiveMembers | src/uplite/widgets/builtin/connection_monitor.py:30 | a connection is kept exactly when it is in the table and active |
| ConnectionMonitor.CountWithAppend | src/uplite/widgets/builtin/connection_monitor.py:34-36 | counting a status over two lists of connections adds the two counts |
| ConnectionMonitor.CountsWithinTotal | src/uplite/widgets/builtin/connection_monitor.py:33-36 | up, down and unknown together never exceed the total, and equal it exactly when every connection's last status is one of the three |
| ConnectionMonitor.CountWith | src/uplite/widgets/builtin/connection_monitor.py:34-36 | the status counts (no contract of its own); ConnectionMonitor.CountsWithinTotal and ConnectionMonitor.CountWithAppend state them |
| ConnectionMonitor.OverallHealth | src/uplite/widgets/builtin/connection_monitor.py:39-50 | success exactly when there are connections and none is down, danger exactly when there are connections and all are down, warning otherwise; the message is the one each branch gives, "<down> service(s) down" for a partial outage |
| ConnectionMonitor.Summarize | src/uplite/widgets/builtin/connection_monitor.py:33-50 | total is the number of connections, up, down and unknown are the counts of those last statuses, they never exceed the total, and the health is the overall health for the total and the down count |
| ConnectionMonitor.Points | src/uplite/widgets/builtin/connection_monitor.py:63-69 | one chart point per history row, in the same order, each carrying that row's timestamp, response time and status |
| ConnectionMonitor.Point | src/uplite/widgets/builtin/connection_monitor.py:63-69 | one chart point (no contract of its own; see ConnectionMonitor.Points) |
| ConnectionMonitor.ShownStatus | src/uplite/widgets/builtin/connection_monitor.py:77 | `last_status or 'unknown'`: the stored status when it is a non-empty string, unknown when it is None or empty |
| ConnectionMonitor.ItemHistory | src/uplite/widgets/builtin/connection_monitor.py:55-84 | each item's chart history has at most 20 points, oldest first, and its median is None exactly when the 10-row median sample is empty |
| ConnectionMonitor.ItemFor | src/uplite/widgets/builtin/connection_monitor.py:55-84 | the list entry of an active connection (no contract of its own); ConnectionMonitor.ItemHistory states its history |
| ConnectionMonitor.HistoryData | src/uplite/widgets/builtin/connection_monitor.py:58-69 | the loop builds the chart points of the connection's 20 newest rows, oldest first |
| ConnectionMonitor.ReversedPoints | src/uplite/widgets/builtin/connection_monitor.py:63-69 | the loop over the reversed rows gives their chart points, oldest first |
| ConnectionMonitor.GetData | src/uplite/widgets/builtin/connection_monitor.py:26-103 | a failed query gives the error payload "Failed to get connection data: " plus the error; otherwise the summary of the active connections and one item per active connection, in order; every payload carries the clock's timestamp |
| ServiceStatus.DefaultServices | src/uplite/widgets/builtin/service_status.py:105-109 | nginx, apache2, mysql, postgresql, redis and docker on Linux, none elsewhere |
| ServiceStatus.DefaultConfig | src/uplite/widgets/builtin/service_status.py:115-120 | the keys refresh_interval and services, with the platform's default services |
| ServiceStatus.ServiceStatusOf | src/uplite/widgets/builtin/service_status.py:63-103 | unknown and not running elsewhere than Linux; the status is one of running, stopped, unknown, error, and is running exactly when the service runs; it runs exactly when both systemctl calls complete and is-active answers active, and it is enabled exactly when both complete and is-enabled answers enabled |
| ServiceStatus.Answered | src/uplite/widgets/builtin/service_status.py:74 | a query that exits 0 printing the expected word (no contract of its own; ServiceStatus.ServiceStatusOf states both queries through it) |
| ServiceStatus.StatusColor | src/uplite/widgets/builtin/service_status.py:111-113 | success exactly for a running service, danger exactly for one that is not |
| ServiceStatus.EntryFor | src/uplite/widgets/builtin/service_status.py:33-40 | the entry keeps the service's name, its running flag is the probe's, and its colour is success exactly when it runs |
| ServiceStatus.CountRunningBounds | src/uplite/widgets/builtin/service_status.py:42-44 | the running count never exceeds the number of entries, and equals it exactly when all run |
| ServiceStatus.CountRunning | src/uplite/widgets/builtin/service_status.py:42-44 | the running count (no contract of its own); ServiceStatus.CountRunningBounds states it |
| ServiceStatus.Summarize | src/uplite/widgets/builtin/service_status.py:42-52 | total is the number of entries, running the running count, running plus stopped the total; success exactly when all run, warning otherwise |
| ServiceStatus.SummaryMeaning | src/uplite/widgets/builtin/service_status.py:42-52 | stopped lies between 0 and the total; the status is success exactly when every service runs, so an empty list is success |
| ServiceStatus.GetData | src/uplite/widgets/builtin/service_status.py:26-61 | with the configured services (the defaults when the key is missing): a value that cannot be iterated gives the error payload "Failed to get service status: '<type>' object is not iterable"; otherwise one entry per service, in order, and their summary; every payload carries the clock's timestamp |
| SystemStatus.DefaultConfig | src/uplite/widgets/builtin/system_status.py:101-106 | the keys refresh_interval and show_details |
| SystemStatus.StatusLevel | src/uplite/widgets/builtin/system_status.py:92-99 | success exactly below 70, warning exactly from 70 to below 90, danger exactly from 90 |
| SystemStatus.LevelMonotone | src/uplite/widgets/builtin/system_status.py:92-99 | a higher percentage never gives a milder level |
| SystemStatus.UptimeBounds | src/uplite/widgets/builtin/system_status.py:75-77 | hours lie in 0..23 and minutes in 0..59, and days, hours and minutes add up to the uptime rounded down to the minute |
| SystemStatus.UptimeOf | src/uplite/widgets/builtin/system_status.py:75-77 | the uptime split (no contract of its own); SystemStatus.UptimeBounds and SystemStatus.UptimeWithinDay state it |
| SystemStatus.UptimeWithinDay | src/uplite/widgets/builtin/system_status.py:75-77 | below one day the days are 0, the hours are the whole hours and the minutes the whole minutes of the remainder |
| SystemStatus.GetData | src/uplite/widgets/builtin/system_status.py:26-86 | a failed probe gives "Failed to get system status: " plus the error; a disk of size 0 gives the division-by-zero error; a report takes cpu, memory and disk levels from the percentages, the disk percentage as used over total times 100, and the uptime split; every payload carries the clock's timestamp |
| SystemStatus.DiskLevelMonotone | src/uplite/widgets/builtin/system_status.py:42-69 | more disk used on the same disk never gives a milder disk level |
| LogsViewer.DefaultLogFiles | src/uplite/widgets/builtin/logs_viewer.py:102-110 | five default log sources |
| LogsViewer.DefaultConfig | src/uplite/widgets/builtin/logs_viewer.py:112-118 | the keys refresh_interval, max_lines and log_files |
| LogsViewer.Basename | src/uplite/widgets/builtin/logs_viewer.py:37 | `os.path.basename`: a tail of the path holding no slash |
| LogsViewer.Normalize | src/uplite/widgets/builtin/logs_viewer.py:34-41 | a string becomes a file source named by its basename; a dict with a string path keeps that path, its name (or the basename) and its type (or file); accepted exactly when a path is there, and otherwise fails with the error for the missing path |
| LogsViewer.HasPath | src/uplite/widgets/builtin/logs_viewer.py:34-41 | a source that normalises (no contract of its own; see LogsViewer.Normalize) |
| LogsViewer.NotAPath | src/uplite/widgets/builtin/logs_viewer.py:36 | the TypeError `os.path.basename` raises for a non-path (no contract of its own; see LogsViewer.Normalize) |
| LogsViewer.SliceFrom | src/uplite/widgets/builtin/logs_viewer.py:95 | Python's `lines[-n:]`: a tail of the list, of the length Python gives for a non-negative or a negative start |
| LogsViewer.UniversalNewlines | src/uplite/widgets/builtin/logs_viewer.py:93-94 | reading in text mode leaves no carriage return |
| LogsViewer.KeepNonBlank | src/uplite/widgets/builtin/logs_viewer.py:95 | keeps at most the lines given, each one stripped and non-empty |
| LogsViewer.FileEntriesMeaning | src/uplite/widgets/builtin/logs_viewer.py:90-95 | the file's entries are stripped and non-empty, at most max_lines of them when it is positive, and all the non-blank lines when it is 0 |
| LogsViewer.FileEntries | src/uplite/widgets/builtin/logs_viewer.py:90-95 | a file source's entries (no contract of its own); LogsViewer.FileEntriesMeaning states them |
| LogsViewer.ReadLines | src/uplite/widgets/builtin/logs_viewer.py:94-95 | `f.readlines()` (no contract of its own; see LogsViewer.FileEntriesMeaning) |
| LogsViewer.JournalLines | src/uplite/widgets/builtin/logs_viewer.py:77 | `stdout.strip().split('\n')` has at least one line |
| LogsViewer.EmptyJournalOneEntry | src/uplite/widgets/builtin/logs_viewer.py:77 | empty output gives the single entry '' |
| LogsViewer.JournalLinesRejoin | src/uplite/widgets/builtin/logs_viewer.py:77 | joining the journal lines with newlines gives back the stripped output |
| LogsViewer.ReadLogFile | src/uplite/widgets/builtin/logs_viewer.py:65-100 | a journalctl source runs `journalctl -n <max_lines> --no-pager`, a service source adds `-u <path>`, any other reads the file: its entries when readable, nothing otherwise |
| LogsViewer.Journal | src/uplite/widgets/builtin/logs_viewer.py:68-77 | a `journalctl` query's lines (no contract of its own; see LogsViewer.ReadLogFile) |
| LogsViewer.PyStr | src/uplite/widgets/builtin/logs_viewer.py:71 | `str(v)` of the line count (no contract of its own; see LogsViewer.ReadLogFile) |
| LogsViewer.ReportFor | src/uplite/widgets/builtin/logs_viewer.py:43-51 | a source is reported exactly when it yields entries, with those entries and their count |
| LogsViewer.ReportsSnoc | src/uplite/widgets/builtin/logs_viewer.py:34-51 | the loop handles the sources one after another |
| LogsViewer.ReportsWellCounted | src/uplite/widgets/builtin/logs_viewer.py:44-51 | every report's count is the number of its entries, and at least 1 |
| LogsViewer.TotalAtLeastReports | src/uplite/widgets/builtin/logs_viewer.py:55 | the total entries are at least the number of reports |
| LogsViewer.TotalEntries | src/uplite/widgets/builtin/logs_viewer.py:55 | the total entry count (no contract of its own); LogsViewer.TotalAtLeastReports and LogsViewer.TotalSnoc state it |
| LogsViewer.GetData | src/uplite/widgets/builtin/logs_viewer.py:26-63 | with the configured sources and max_lines (defaults when missing): one that cannot be iterated, or a source without a path, gives the error payload "Failed to read logs: " plus the error; otherwise the reports and their total entries; every payload carries the clock's timestamp |
| LogsViewer.Failure | src/uplite/widgets/builtin/logs_viewer.py:59-63 | the error payload's message (no contract of its own; see LogsViewer.GetData) |
| Common.Iterate | src/uplite/widgets/builtin/logs_viewer.py:33 | what `for x in v` walks, or a TypeError (no contract of its own; see LogsViewer.GetData) |
| LogsViewer.TotalSnoc | src/uplite/widgets/builtin/logs_viewer.py:55 | adding a report adds its count to the total |
| LogsViewer.ReportsFailFrom | src/uplite/widgets/builtin/logs_viewer.py:34-41 | once a source fails, the rest of the loop does not run and the error stands |
| LogsViewer.ReportsOkIffAllNormalize | src/uplite/widgets/builtin/logs_viewer.py:34-51 | the sources are reported without error exactly when every one of them has a path |
| LogsViewer.Reports | src/uplite/widgets/builtin/logs_viewer.py:33-51 | the loop's reports (no contract of its own); LogsViewer.ReportsOkIffAllNormalize, LogsViewer.ReportsFailFrom and LogsViewer.ReportsWellCounted state them |
| LogsViewer.AllHavePathsLast | src/uplite/widgets/builtin/logs_viewer.py:34-41 | every source has a path exactly when all but the last do and the last does |
| LogsViewer.StepOk | src/uplite/widgets/builtin/logs_viewer.py:34-51 | one step succeeds exactly when the loop had not failed and the source has a path |
| LogsViewer.Step | src/uplite/widgets/builtin/logs_viewer.py:34-51 | one pass of the loop (no contract of its own); LogsViewer.StepOk and LogsViewer.ReportsSnoc state it |
| LogsViewer.DefaultsReported | src/uplite/widgets/builtin/logs_viewer.py:102-110 | the default sources with the default max_lines never fail, and their reports are well counted |
| ImageSuggester.EndingWord | src/uplite/utils/image_suggester.py:104 | the suffix found is one of logo, icon, app, service that the name ends with; none is found exactly when the name ends with none of them |
| ImageSuggester.RemoveSuffix | src/uplite/utils/image_suggester.py:104 | removing the suffix never lengthens the name |
| ImageSuggester.EndingWordAppended | src/uplite/utils/image_suggester.py:104 | a name ending in one of the four words has that word found |
| ImageSuggester.RemoveSuffixAppended | src/uplite/utils/image_suggester.py:104 | `re.sub(..., '', x + word)` gives back x |
| ImageSuggester.EndingWordNewline | src/uplite/utils/image_suggester.py:104 | no suffix word is found in front of a final newline here |
| ImageSuggester.RemoveSuffixBeforeNewline | src/uplite/utils/image_suggester.py:104 | `$` also matches before a final newline, so the word in front of it is removed and the newline kept |
| ImageSuggester.SplitSep | src/uplite/utils/image_suggester.py:105 | splitting at separators gives at least one piece |
| ImageSuggester.SplitSepPieces | src/uplite/utils/image_suggester.py:105 | no piece holds an underscore, hyphen, dot or white space |
| ImageSuggester.LongPieces | src/uplite/utils/image_suggester.py:106 | keeps pieces of length above 1 only, each one of the pieces |
| ImageSuggester.LongPiecesAppend | src/uplite/utils/image_suggester.py:106 | the length filter distributes over concatenation |
| ImageSuggester.Tokens | src/uplite/utils/image_suggester.py:105-106 | every token is longer than 1 and holds no separator |
| ImageSuggester.SplitSepAt | src/uplite/utils/image_suggester.py:105 | splitting around a separator splits the two sides apart |
| ImageSuggester.SplitSepCons | src/uplite/utils/image_suggester.py:105 | a leading separator starts a new empty piece; another character joins the first piece |
| ImageSuggester.SplitSepWord | src/uplite/utils/image_suggester.py:105 | a text without separators is one piece |
| ImageSuggester.TokensJoin | src/uplite/utils/image_suggester.py:105-106 | the tokens of two texts joined by a separator are the tokens of each, in order |
| ImageSuggester.TokensWord | src/uplite/utils/image_suggester.py:105-106 | a word of two or more characters without separators is its own single token |
| ImageSuggester.SplitSepNoUpper | src/uplite/utils/image_suggester.py:104-105 | splitting a lowered text gives lowered pieces |
| ImageSuggester.ExtractKeywords | src/uplite/utils/image_suggester.py:101-106 | every keyword is longer than 1 and holds no separator |
| ImageSuggester.KeywordsLower | src/uplite/utils/image_suggester.py:104 | every keyword is in lower case |
| ImageSuggester.SplitExt | src/uplite/utils/image_suggester.py:88 | `os.path.splitext`: root and extension give back the name; an extension starts with its only dot and holds no slash |
| ImageSuggester.HiddenFileHasNoExtension | src/uplite/utils/image_suggester.py:88 | a name whose only dot is the leading one has no extension |
| ImageSuggester.IconOf | src/uplite/utils/image_suggester.py:88-95 | a file is an icon exactly when its lowered extension is .png, .jpg, .jpeg, .gif or .svg; the icon keeps the filename and has the lowered root as name |
| ImageSuggester.IconsFrom | src/uplite/utils/image_suggester.py:87-95 | never more icons than files |
| ImageSuggester.IconsFromMembers | src/uplite/utils/image_suggester.py:87-95 | every icon comes from a listed file it describes, and every listed file with a supported extension gives an icon |
| ImageSuggester.LoadAvailableIcons | src/uplite/utils/image_suggester.py:78-99 | a missing directory gives no icons; otherwise the loop yields the icons of the listing |
| ImageSuggester.AvailableIcons | src/uplite/utils/image_suggester.py:232-238 | one dict per icon, in order, with keys filename, name, keywords holding the icon's values |
| ImageSuggester.ServiceScoreFrom | src/uplite/utils/image_suggester.py:190-197 | 0 or 25, and 25 exactly when some service from that one on is revealed by the text and named by the icon |
| ImageSuggester.ServiceScore | src/uplite/utils/image_suggester.py:184-197 | the service score is 0 or 25 |
| ImageSuggester.ServiceScoreMeaning | src/uplite/utils/image_suggester.py:184-197 | 25 exactly when some service pattern occurs in the search terms and URL joined by spaces, and the icon name holds the service or one of its patterns |
| ImageSuggester.ServiceApplies | src/uplite/utils/image_suggester.py:190-197 | a service revealed by the text and named by the icon (no contract of its own; see ImageSuggester.ServiceScoreMeaning) |
| ImageSuggester.UrlRevealsService | src/uplite/utils/image_suggester.py:187-195 | a pattern in the lowered URL together with the service in the icon name scores 25 |
| ImageSuggester.PartialCount | src/uplite/utils/image_suggester.py:171-173 | at most one half-point per icon keyword |
| ImageSuggester.KeywordMatches | src/uplite/utils/image_suggester.py:166-173 | the keyword matches are never negative |
| ImageSuggester.KeywordHit | src/uplite/utils/image_suggester.py:166-173 | a keyword found in the icon (no contract of its own; see ImageSuggester.KeywordMatches) |
| ImageSuggester.LongBonus | src/uplite/utils/image_suggester.py:178-180 | at most 3 per search keyword |
| ImageSuggester.Cap | src/uplite/utils/image_suggester.py:175 | `min(x, 15)`: the value itself or 15, never above 15 |
| ImageSuggester.ScoreBounds | src/uplite/utils/image_suggester.py:145-182 | with a ratio in [0, 1] the score lies in [0, 110 + 3 per keyword]; an exact name match scores at least 50, and without one the score stays at most 60 + 3 per keyword |
| ImageSuggester.Score | src/uplite/utils/image_suggester.py:145-182 | `_calculate_match_score` (no contract of its own); ImageSuggester.ScoreBounds and ImageSuggester.MatchScore state it |
| ImageSuggester.MatchScore | src/uplite/utils/image_suggester.py:145-182 | the method computes the specified score |
| ImageSuggester.CountKeywordMatches | src/uplite/utils/image_suggester.py:166-173 | the loop counts the specified keyword matches |
| ImageSuggester.CountPartial | src/uplite/utils/image_suggester.py:171-173 | the inner loop adds one half per partial match |
| ImageSuggester.CountLongBonus | src/uplite/utils/image_suggester.py:178-180 | the loop adds 3 per keyword longer than 3 found in the icon name |
| ImageSuggester.Scores | src/uplite/utils/image_suggester.py:133-136 | one score per icon, in order |
| ImageSuggester.BestMeaning | src/uplite/utils/image_suggester.py:130-140 | the running best is never negative and at least every score; when an index is kept it holds the first strictly highest score, which is positive; otherwise the best stays 0 |
| ImageSuggester.Best | src/uplite/utils/image_suggester.py:129-140 | the loop's running best (no contract of its own); ImageSuggester.BestMeaning states it |
| ImageSuggester.SuggestionMeaning | src/uplite/utils/image_suggester.py:108-143 | no suggestion means every icon scores below 5; a suggestion is the first icon with the highest score, and that score is at least 5 |
| ImageSuggester.Suggestion | src/uplite/utils/image_suggester.py:108-143 | `suggest_image` (no contract of its own); ImageSuggester.SuggestionMeaning and ImageSuggester.SuggestImage state it |
| ImageSuggester.SearchKeywords | src/uplite/utils/image_suggester.py:126-127 | the keywords `suggest_image` searches (no contract of its own; see ImageSuggester.SuggestionMeaning) |
| ImageSuggester.ExactNameSuggested | src/uplite/utils/image_suggester.py:153-154 | an icon whose name is the lowered connection name guarantees a suggestion |
| ImageSuggester.SuggestImage | src/uplite/utils/image_suggester.py:108-143 | the loop returns the specified suggestion |
| ImageSuggester.HitCount | src/uplite/utils/image_suggester.py:265-267 | at most one hit per query keyword |
| ImageSuggester.SearchScore | src/uplite/utils/image_suggester.py:258-267 | never negative, and positive exactly when the lowered query is in the icon name or some query keyword hits |
| ImageSuggester.Matches | src/uplite/utils/image_suggester.py:256-270 | at most one match per icon, each with a positive score |
| ImageSuggester.MatchesMembers | src/uplite/utils/image_suggester.py:256-270 | every match is an icon's filename with its score, and every icon with a positive score is matched |
| ImageSuggester.IconScore | src/uplite/utils/image_suggester.py:256-270 | an icon's search score for a query (no contract of its own; see ImageSuggester.MatchesMembers) |
| ImageSuggester.MatchSource | src/uplite/utils/image_suggester.py:256-270 | every match comes from some icon, with that icon's score |
| ImageSuggester.MatchFound | src/uplite/utils/image_suggester.py:269-270 | an icon with a positive score is among the matches |
| ImageSuggester.InsertDesc | src/uplite/utils/image_suggester.py:273 | inserting keeps every match and adds the new one |
| ImageSuggester.SortDesc | src/uplite/utils/image_suggester.py:273 | the sort is a permutation of its input |
| ImageSuggester.InsertDescSorted | src/uplite/utils/image_suggester.py:273 | inserting into a list sorted by descending score keeps it sorted |
| ImageSuggester.InsertDescWithScore | src/uplite/utils/image_suggester.py:273 | inserting keeps the order among equal scores, the new one first among them |
| ImageSuggester.AboveHasNone | src/uplite/utils/image_suggester.py:273 | a higher-scoring head holds no match of a lower score |
| ImageSuggester.SortDescMeaning | src/uplite/utils/image_suggester.py:273 | the sort orders by descending score and is stable: the matches of each score keep their order |
| ImageSuggester.WithScore | src/uplite/utils/image_suggester.py:273 | the matches of one score, in order (no contract of its own; see ImageSuggester.SortDescMeaning) |
| ImageSuggester.Head | src/uplite/utils/image_suggester.py:274 | Python's `matches[:limit]`: a prefix, of the length Python gives for a non-negative or a negative limit |
| ImageSuggester.Filenames | src/uplite/utils/image_suggester.py:274 | the filenames of the matches, in order |
| ImageSuggester.SearchResultMeaning | src/uplite/utils/image_suggester.py:240-274 | the result is the filenames of the first `limit` matches after a sort by descending score that permutes them; never more than a non-negative limit, and all matches when the limit reaches the number of icons |
| ImageSuggester.SearchResult | src/uplite/utils/image_suggester.py:240-274 | `search_icons` (no contract of its own); ImageSuggester.SearchResultMeaning and ImageSuggester.SearchIcons state it |
| ImageSuggester.SearchIcons | src/uplite/utils/image_suggester.py:240-274 | the loop returns the specified search result, with none for an empty query or no icons |
| ImageSuggester.QueryScore | src/uplite/utils/image_suggester.py:258-267 | the loop computes the specified search score |
| ImageSuggester.CopyName | src/uplite/utils/image_suggester.py:199-230 | a name is given exactly when the filename is non-empty and one of the icons', its source exists and the copy succeeds |
| ImageSuggester.IconFilenames | src/uplite/utils/image_suggester.py:208 | the icons' filenames, in order |
| ImageSuggester.CopyNameRoundTrip | src/uplite/utils/image_suggester.py:219-221 | the copy's name splits at its first underscore into the clock's seconds and the original filename |
| WidgetRegistry.Add | src/uplite/widgets/widget_manager.py:50-51 | the registry maps the widget's type to its class, replacing what was there under that type |
| WidgetRegistry.AddWellFormed | src/uplite/widgets/widget_manager.py:51 | registering keeps the listing order and the mapping in step |
| WidgetRegistry.Register | src/uplite/widgets/widget_manager.py:43-51 | a class that does not inherit from BaseWidget is refused with "<class> must inherit from BaseWidget"; a widget class is added under its type |
| WidgetRegistry.AddOverwritesOnly | src/uplite/widgets/widget_manager.py:51 | registering leaves every other type as it was, maps its own type to the new class, and keeps the earlier listing order as a prefix |
| WidgetRegistry.InitializeFromEmpty | src/uplite/widgets/widget_manager.py:25-41 | from an empty registry the built-ins are system_status, connection_monitor, service_status and logs_viewer, listed in that order |
| WidgetRegistry.Initialized | src/uplite/widgets/widget_manager.py:16-23 | `initialize` (no contract of its own); WidgetRegistry.InitializeFromEmpty and WidgetRegistry.InitializeIdempotent state it |
| WidgetRegistry.AddAllSnoc | src/uplite/widgets/widget_manager.py:40-41 | the loading loop registers the classes one after another |
| WidgetRegistry.AddAll | src/uplite/widgets/widget_manager.py:40-41 | the loading loop (no contract of its own); WidgetRegistry.AddAllSnoc and WidgetRegistry.AddAllContains state it |
| WidgetRegistry.AddAllContains | src/uplite/widgets/widget_manager.py:40-41 | every class loaded is registered under its type |
| WidgetRegistry.Describe | src/uplite/widgets/widget_manager.py:70-72 | a registered type's entry is the six-key dict of a fresh instance: its type and an empty configuration |
| WidgetRegistry.WidgetManager.constructor | src/uplite/widgets/widget_manager.py:13-14 | the manager starts with no widgets and not initialized |
| WidgetRegistry.WidgetManager.RegisterWidget | src/uplite/widgets/widget_manager.py:43-51 | a refused class gives its error and leaves the registry alone; an accepted one is registered; the initialized flag is not touched |
| WidgetRegistry.WidgetManager.Initialize | src/uplite/widgets/widget_manager.py:16-23 | loads the built-ins only on the first call, and leaves the manager initialized |
| WidgetRegistry.WidgetManager.GetWidget | src/uplite/widgets/widget_manager.py:53-62 | initializes, then fails with "Unknown widget type: <type>" for an unregistered type, and otherwise gives a new widget of the registered class with the configuration |
| WidgetRegistry.WidgetManager.GetAvailableWidgets | src/uplite/widgets/widget_manager.py:64-74 | initializes, then lists one entry per registered type, in registration order |
| WidgetRegistry.DescribeAll | src/uplite/widgets/widget_manager.py:69-74 | the loop lists one entry per registered type, each its description, in registration order |
| WidgetRegistry.WidgetManager.ValidateWidgetConfig | src/uplite/widgets/widget_manager.py:82-92 | initializes, then answers true exactly for a registered type |
| WidgetRegistry.InitializeIdempotent | src/uplite/widgets/widget_manager.py:16-23 | initializing a second time changes nothing |
| Widgets.KindOf | src/uplite/widgets/base_widget.py:14-18 | the kind found has the widget type asked for, and none is found exactly when no kind has it |
| Widgets.WidgetType | src/uplite/widgets/base_widget.py:14-18 | each built-in's `widget_type` (no contract of its own); Widgets.KindOf and Widgets.WidgetTypeInjective state that a type names one widget |
| Widgets.WidgetTypeInjective | src/uplite/widgets/base_widget.py:14-18 | two kinds with the same widget type are the same kind |
| Widgets.KindOfType | src/uplite/widgets/base_widget.py:14-18 | every kind is found again by its widget type |
| Widgets.DefaultConfigRefreshFirst | src/uplite/widgets/base_widget.py:37-40 | every built-in default configuration starts with refresh_interval |
| Widgets.DefaultConfig | src/uplite/widgets/base_widget.py:37-40 | each built-in's `default_config` (no contract of its own); Widgets.DefaultConfigRefreshFirst states its shape |
| Widgets.ConfigSchema | src/uplite/widgets/base_widget.py:42-45 | the configuration schema is empty |
| Widgets.NewWidget | src/uplite/widgets/base_widget.py:10-12 | `config or {}`: the widget keeps its kind and the configuration given, or an empty one when none is |
| Widgets.ValidateConfig | src/uplite/widgets/base_widget.py:47-51 | every configuration is accepted |
| Widgets.TemplateName | src/uplite/widgets/base_widget.py:53-55 | the template name starts with widgets/ and ends with .html |
| Widgets.TemplateNameRoundTrip | src/uplite/widgets/base_widget.py:53-55 | the widget type is read back from the template name |
| Widgets.TypeOfTemplate | src/uplite/widgets/base_widget.py:53-55 | reads the widget type back from a template name (no contract of its own); Widgets.TemplateNameRoundTrip is the round trip |
| Widgets.CssClassesAreTwo | src/uplite/widgets/base_widget.py:57-59 | the CSS classes are exactly widget and widget-<type> |
| Widgets.CssClasses | src/uplite/widgets/base_widget.py:57-59 | `get_css_classes` (no contract of its own); Widgets.CssClassesAreTwo states its shape |
| Widgets.NoSeparatorSplit | src/uplite/widgets/base_widget.py:57-59 | a text without the separator splits into itself alone |
| Widgets.SplitAtSeparator | src/uplite/widgets/base_widget.py:57-59 | a text split at its first separator gives the part before it, then the split of the rest |
| Widgets.ToDict | src/uplite/widgets/base_widget.py:61-70 | six keys, type, display_name, description, config, default_config, config_schema, in that order, holding the widget's type and configuration |
| Widgets.Description | src/uplite/widgets/base_widget.py:20-30 | each built-in's `description` (no contract of its own; used by Widgets.ToDict) |
| Widgets.DisplayName | src/uplite/widgets/base_widget.py:20-30 | each built-in's `display_name` (no contract of its own; used by Widgets.ToDict) |
| Dashboard.NewConfig | src/uplite/models/widget_config.py:17-35 | the row has the given user, type, position and title, the default size medium and is enabled |
| Dashboard.ReplaceChar | src/uplite/views/dashboard.py:94 | `str.replace` with one character: same length, each occurrence replaced and every other character kept |
| Dashboard.Title | src/uplite/views/dashboard.py:94 | `str.title()`: same length, non-letters kept |
| Dashboard.TitleMeaning | src/uplite/views/dashboard.py:94 | title case changes only the case of letters; a letter becomes upper case exactly when it starts a word |
| Dashboard.WordStart | src/uplite/views/dashboard.py:94 | where `str.title()` capitalises (no contract of its own; see Dashboard.TitleMeaning) |
| Dashboard.TitleIdempotent | src/uplite/views/dashboard.py:94 | title-casing twice is title-casing once |
| Dashboard.DefaultTitle | src/uplite/views/dashboard.py:86-94 | the four known types have their fixed titles; any other type is its title-cased name with underscores as spaces |
| Dashboard.FallbackTitle | src/uplite/views/dashboard.py:94 | a fallback title holds no underscore, is as long as the type and differs from it only in case and in spaces for underscores |
| Dashboard.DefaultConfigAt | src/uplite/views/dashboard.py:72-78 | the i-th default row has the user, the i-th default type, position i, its default title, and is enabled with size medium |
| Dashboard.DefaultConfigs | src/uplite/views/dashboard.py:71-80 | one default row per default widget type, in order |
| Dashboard.DefaultConfigsShape | src/uplite/config/settings.py:34-39 | four default rows, one per type, at positions 0 to 3, enabled, from System Status to Logs Viewer |
| Dashboard.EnabledFor | src/uplite/views/dashboard.py:19-21 | `filter_by(user_id, is_enabled=True)` keeps only the user's enabled rows, never more than the table |
| Dashboard.EnabledForMembers | src/uplite/views/dashboard.py:19-21 | a row is kept exactly when it is in the table, the user's and enabled |
| Dashboard.EnabledForAppend | src/uplite/views/dashboard.py:19-21 | the filter distributes over appended rows |
| Dashboard.InsertByPosition | src/uplite/views/dashboard.py:22 | inserting keeps every row and adds the new one |
| Dashboard.InsertByPositionSorted | src/uplite/views/dashboard.py:22 | inserting into a list ordered by position keeps it ordered |
| Dashboard.ByPosition | src/uplite/views/dashboard.py:22 | `order_by(position)` is a permutation of the rows |
| Dashboard.ByPositionSorted | src/uplite/views/dashboard.py:22 | the result is ordered by position and a permutation of the rows |
| Dashboard.ByPositionOfSorted | src/uplite/views/dashboard.py:22 | rows already in position order stay as they are |
| Dashboard.WidgetConfigTable.constructor | src/uplite/models/widget_config.py:11 | the table holds the rows given |
| Dashboard.WidgetConfigTable.CreateDefaultWidgets | src/uplite/views/dashboard.py:67-83 | returns the default rows and appends them, in order, to the table |
| Dashboard.WidgetConfigTable.Index | src/uplite/views/dashboard.py:14-35 | with enabled rows for the user, shows them by position and leaves the table alone; with none, creates, appends and shows the defaults |
| Dashboard.DefaultsCreatedOnce | src/uplite/views/dashboard.py:25-26 | after the defaults are created the user has enabled rows, so a later visit creates nothing and shows the defaults in their order |
| Dashboard.DefaultsQueried | src/uplite/views/dashboard.py:19-22 | the defaults are all the user's and enabled, and already in position order |
| Dashboard.AllEnabledKept | src/uplite/views/dashboard.py:19-21 | rows that are all the user's and enabled pass the filter unchanged |
| MonitorService.ActivePositions | monitor_service.py:27 | the positions of exactly the active rows, in increasing order |
| MonitorService.ActivePositionsStep | monitor_service.py:27 | one more row adds its position exactly when it is active |
| MonitorService.Records | monitor_service.py:27 | the snapshot of every connection object, in order |
| MonitorService.Visit | monitor_service.py:33-44 | one connection's turn: the check's result, or unknown with the error text when the logging call before the check raises (the check itself catches every exception), is written to the connection (a checked database connection also keeps its inferred port) and logged as one history row |
| MonitorService.TurnResult | monitor_service.py:35-44 | the result a connection's turn records, or the fault's (no contract of its own; see MonitorService.Visit) |
| MonitorService.VisitRow | monitor_service.py:32-44 | visiting row i leaves that connection as the cycle prescribes and extends the log by its turn |
| MonitorService.ActiveConnections | monitor_service.py:27 | the query's loop gives the positions of the active rows |
| MonitorService.MonitorAllConnections | monitor_service.py:21-44 | visits exactly the active connections in table order; every connection ends as its turn prescribes, inactive ones untouched, and the history is the log of the cycle |
| MonitorService.CheckRows | monitor_service.py:32-44 | the loop over the rows leaves every connection as its turn prescribes and the history as the cycle's log |
| MonitorService.AfterCycle | monitor_service.py:32-44 | a connection after the cycle (no contract of its own; MonitorService.CheckRows states the table through it) |
| MonitorService.VisitTableRow | monitor_service.py:32-44 | the turn of row i changes that row alone among the rows and extends the log by its turn |
| MonitorService.FaultRecorded | monitor_service.py:42-44 | an exception raised in the `try` before the check (the logging call of line 34) records status unknown, no response time, the error text, and the clock |
| MonitorService.CheckedTurn | monitor_service.py:35-38 | a check that returns records its status, which is up, down or unknown, and its error |
| MonitorService.Stored | monitor_service.py:35-38 | `update_status` on the checked connection, which carries a database's inferred port (no contract of its own; MonitorService.CheckedTurn states it) |
| MonitorService.AfterTurn | monitor_service.py:35-44 | a connection after its turn (no contract of its own); MonitorService.CheckedTurn and MonitorService.FaultRecorded state it |
| MonitorService.ForConnectionSnoc | monitor_service.py:38 | a row for another connection leaves a connection's history as it was |
| MonitorService.LogRowKeepsOthers | monitor_service.py:38 | logging one connection's result leaves every other connection's history alone |
| MonitorService.LogRow | monitor_service.py:38 | one `add_check_result` (no contract of its own); MonitorService.LogRowKeepsOthers states it |
| MonitorService.CycleKeepsOthers | monitor_service.py:32-44 | a cycle's first n visits leave alone the history of a connection none of them is |
| MonitorService.CycleLog | monitor_service.py:32-44 | the history after a cycle (no contract of its own); MonitorService.CycleKeepsOthers and MonitorService.CycleCountsVisits state it |
| MonitorService.StepKeepsOthers | monitor_service.py:32-44 | one step of the cycle leaves alone the history of a connection it does not visit |
| MonitorService.CycleCountsVisits | monitor_service.py:32-44 | a cycle adds exactly one history id per active connection visited |
| MonitorService.Passes | monitor_service.py:50-61 | the number of passes before the first one that stops the loop |
| MonitorService.Stops | monitor_service.py:56-58 | a pass that ends the loop: an interrupt, also one during the retry pause (no contract of its own; MonitorService.Passes states it) |
| MonitorService.RunMonitor | monitor_service.py:46-61 | one pause per pass that does not stop the loop, 60 seconds after a completed cycle and 10 after a failed one; the loop stops only by an interrupt, in the cycle or escaping from the retry's sleep |
| MonitorService.PausesFollowEnds | monitor_service.py:50-61 | a pass is paused after exactly when no pass up to it stopped the loop, and the pause is 60 exactly when the cycle completed |
| MonitorService.Pause | monitor_service.py:50-61 | the pause after a pass (no contract of its own); MonitorService.PausesFollowEnds states it |

## Left out

- Real I/O is not modelled; each result is an input. This covers `requests.get`, sockets, `subprocess` (ping, systemctl, journalctl), psutil, `os.listdir`, `os.path.exists`, `shutil.copy2`, `file.save` and the logging calls.
- Wall-clock time and latency measurement are inputs (`now`, `elapsedMs`). The payload timestamps are the clock's whole seconds rather than ISO text.
- Python `float` is modelled as `real`. `round(...)`, `_bytes_to_gb` and the platform, release and boot_time fields of the system status payload are not modelled. The float parse of the ping time is an input (`parseFloat`).
- `difflib.SequenceMatcher(...).ratio()` and `secure_filename` are inputs, because they are foreign library code.
- Flask routing, `jsonify`, `login_required`, `get_or_404` and `create_app` are not modelled. SQLAlchemy sessions are not modelled either: a table is a sequence of rows, and a commit refused by the database is an input text (`Env.dbError`).
- These API endpoints are not modelled, because they only call the modelled operations or the database: get_connections, status, check, widgets, refresh, delete (api.py:341-355), get, suggest, search, available and cleanup (api.py:73-190, 357-444).
- ImageSuggester: `cleanup_unused_connection_images` (image_suggester.py:276-299) is not modelled, because it only lists and deletes files.
- WidgetRegistry: `get_widget_data` (widget_manager.py:76-80) is not modelled as its own member. It is `GetWidget` followed by the widget's `get_data`, and those are modelled per widget.
- Connections: `to_dict` (connection.py:98-120) and `ConnectionHistory.to_dict`/`__repr__` are not modelled, because they only format a row.
- The authentication code (`user.py`, `auth/forms.py`, `views/auth.py`) is not modelled. Nor are `widget_config.py`'s setters, `settings.py`'s environment parsing, `manage.py`, `add_logo_field.py`, `start_app.py` and `views/api_updates.py`, an unimported duplicate of the logo helpers.
- The monitor loop runs forever. It is modelled over a finite sequence of pass ends (`MonitorService.RunMonitor`); `time.sleep` becomes the list of pauses.
- Common.LowerChar, Common.IsLetter and Common.IsSpace are ASCII only. IsSpace means the ten ASCII characters ' ', tab, newline, carriage return, vertical tab, form feed and U+001C..U+001F; the Unicode white space beyond ASCII (U+0085, U+00A0, U+2000..U+200A and others) is not included. Python's Unicode case mapping and white space are therefore not modelled in `str.lower`, `str.strip`, `str.title`, the keyword split, `allowed_file` and database port inference.
- Common.ParseInt accepts an optional sign and ASCII digits, with surrounding white space. It does not model underscores (`1_000`) or non-ASCII digits, which Python's `int()` also accepts.
- Api.Repr quotes exactly as Python's `repr` only for strings without quotes, backslashes or control characters. It is used in the text of an `int()` ValueError.
- Connections.ColumnOf treats `hasattr` as "is a column". Methods, the `history` relationship, `query` and `metadata` are attributes in Python too, and a keyword naming one of them is not modelled.
- Connections.SetColumn leaves a column unchanged when Python would store a value of a type the column does not take. This covers a float in a text column (a JSON number given as name, target, connection_type or description), a non-integral float or a non-blank, non-numeric string in an integer column (reachable only through the constructor's keywords), and a non-bool in is_active. SQLite's type affinity would store such a value as given. Connections.PortCell stores a blank port as None, where SQLite would keep ''. Every reader that tests the port's truthiness sees the same, but `to_dict` would answer "" rather than null.
- ApiUpdate.Committed stamps `updated_at` when the stored row differs from the loaded one. SQLAlchemy's flush stamps it when some assigned value is not `==` to the loaded value, before any conversion. So the model leaves `updated_at` unchanged where the source would stamp it: a blank port over a NULL port (stored as None here, as '' by SQLite), or `{"name": 5}` over the stored name "5".
- History.NewerOrSame breaks timestamp ties by id. In SQL the order of rows with equal timestamps is unspecified (connection_history.py:45, 59).
- Dashboard.ByPosition takes rows of equal position in table order. SQL's `ORDER BY position` leaves their order unspecified (src/uplite/views/dashboard.py:22).
- Common.Get returns the first entry with the key. A decoded JSON object with a repeated key keeps the last value in Python; the model does not assume distinct keys.
- Api.HandleLogoUpload does not model an `OSError` from `os.makedirs` or `file.save` (api.py:62-66), which the route would answer with 500.
- ImageSuggester.CopyName does not model an `OSError` from `os.makedirs(self.connections_dir, exist_ok=True)` (image_suggester.py:216). That call sits outside the `try`, so its error would reach the route's 500 handler rather than give None.
- MonitorService.Visit does not model a failure of `update_status` itself (monitor_service.py:38), such as a database error at its commit. After one, the except branch's second `update_status` runs on a session that needs a rollback and may raise out of the cycle, which `main` would see as a failed pass. Nor does it model a failure of the logging call at line 40, which comes after the result is stored and would make the except branch overwrite it with status unknown.
- Checker.RequestUrl follows `urlparse`/`urlunparse` for scheme, user information, host, port and the rest, and lowercases the hostname as `parsed.hostname` does. It does not model IPv6 brackets, or an empty `?` or `#` that `urlunparse` would drop. Python lowercases only the part of the hostname before a '%' zone id; the model lowercases all of it. Non-ASCII case is the Common.LowerChar line's.
- The error texts of Python exceptions (`int()`, iteration of a non-iterable, `os.path.basename(None)`) follow Python 3.12's wording.

## Findings

| source | as written | input that shows it | evidently intended | confidence | as-written member | corrected member |
|---|---|---|---|---|---|---|
| src/uplite/views/api.py:243-244 | when a logo is obtained, line 244 assigns `connection.logo_filename` before line 259 binds the local `connection`; the UnboundLocalError reaches the `except Exception` at 277-279, which answers 500 and rolls back | a valid body (name, connection_type http, target) with an uploaded logo.png of 100 bytes, or a logo_choice naming a loaded icon | the obtained logo is stored through the constructor's `logo_filename` argument (line 267) and the connection is created with 201 | not executed | Api.AddConnectionResponseAsWritten, Api.AsWrittenRejectsEveryLogo, Api.AsWrittenUploadFails | Api.AddConnectionResponse, Api.CreatedKeepsLogo, Api.AddConnection |

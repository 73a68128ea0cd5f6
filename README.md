# Supervisord agent check, modelled in Dafny

This project models `SupervisordCheck`, the monitoring-agent check that asks a
supervisord daemon over XML-RPC for the state of its processes and turns the
answers into service checks and gauges. One call of `check(instance)` is one
cycle:

1. It validates the instance's `name`.
2. It chooses an endpoint (`_connect`): a unix socket when `socket` is set,
   else `http://[user:pass@]host:port/RPC2`.
3. It retrieves the process records, either name by name for `proc_names` or
   all at once. An unknown name (fault code 10) becomes a warning. Any other
   fault code raises an error that no `except` clause catches, and so does a
   fault from `getAllProcessInfo`. A transport error goes to the
   `socket.error` clause: it first reports the server down, when
   `server_check` is on, then raises an error naming the endpoint. A protocol
   error goes to the `ProtocolError` clause. There, 401 raises a credentials
   error, and any other code raises the `NameError` described under
   "## Findings".
4. For each record it reports a `supervisord.process.check` service check at
   the level `DD_STATUS` gives the state, and a `supervisord.process.uptime`
   gauge. An unknown state ends the cycle (a `KeyError`).
5. It reports one `supervisord.process.count` gauge per level, tagged
   `status:up`, `status:down` or `status:unknown`.

Files:

- `wrappers.dfy`: `Option`.
- `supervisord.dfy` (module `Supervisord`): the constants and tables, the
  configuration and reply types, the emissions, `_extract_uptime`,
  `_build_message`, `_connect`, and the errors of the `except` clauses.
- `cycle.dfy` (module `CheckCycle`): the reference definition of one cycle.
  It is a pure function of the instance, the daemon's replies, the time
  formatter and the iteration order of `PROCESS_STATUS`. Each loop is
  specified by a function over a prefix of its input. Lemmas state what
  each phase computes.
- `agent.dfy` (module `Agent`): class `SupervisordCheck`. Its `log` field
  holds everything handed to `service_check`, `gauge` and `warning`. Its
  methods run the cycle with the source's loops. `Check` is proved to
  append exactly the log of `CheckCycle.Cycle` and to end as it does.
- `properties.dfy` (module `CycleProperties`): classifies emissions,
  counts them by kind, and proves end-to-end properties of a cycle's log.

The daemon is a value: `getProcessInfo` is a function from names to replies,
and `getAllProcessInfo` is one reply. `network` maps the endpoint `_connect`
builds to the daemon behind it.

## Model

| member | source | states |
|---|---|---|
| Supervisord.StateTable | checks.d/supervisord.py:13-22 | The table knows exactly the eight supervisord states. STARTING and RUNNING are OK. BACKOFF and UNKNOWN are UNKNOWN. STOPPED, STOPPING, EXITED and FATAL are CRITICAL. |
| Supervisord.StatusTagInjective | checks.d/supervisord.py:24-28 | Different levels get different `status:` tags (labels up, down, unknown), so a count gauge names its level. |
| Supervisord.UptimeRule | checks.d/supervisord.py:137-142 | Uptime is `now - start` in BACKOFF, RUNNING and STOPPING, and 0 in every other state. A non-zero uptime implies a known state and `now != start`. A negative uptime implies `now < start`. |
| Supervisord.ActiveStatesSpanLevels | checks.d/supervisord.py:141 | The three active states are known to the table and fall at UNKNOWN, OK and CRITICAL. Every other known state is inactive. |
| Supervisord.StopTimeEmptyIff | checks.d/supervisord.py:144-149 | With a formatter that never yields "", the stop time is empty if and only if `stop == 0`, and the current and start times are never empty. |
| Supervisord.StoppedAtZeroIgnoresFormatter | checks.d/supervisord.py:146-161 | When `stop == 0`, the message depends on the formatter only through the current time and the start time. |
| Supervisord.ExtractUptime | checks.d/supervisord.py:137-142 | The uptime is either 0 or `now - start`, and it is non-zero only in one of the active states BACKOFF, RUNNING and STOPPING. |
| Supervisord.BuildMessage | checks.d/supervisord.py:144-161 | The message carries the record's name, group, description, state, log files and exit status unchanged. It has the formatted current and start times, and a stop time that is either "" or the formatted stop time. |
| Supervisord.Connect | checks.d/supervisord.py:121-135 | The endpoint is a unix socket exactly when `socket` is set: that path, proxied at `host` with the default `http://127.0.0.1`. Otherwise it is an HTTP URL: `HttpUrlShape`, `CredentialsInUrlIff`, `HttpUrlCarriesHostAndPort` and `UnreachableNamesEndpoint` give its parts. |
| Supervisord.UnreachableAbort | checks.d/supervisord.py:82-89 | The transport-failure error names the configured socket path exactly when `socket` is set. Otherwise it names the configured host and port, with the defaults `localhost` and `9001`. |
| Supervisord.ConnectPrefersSocket | checks.d/supervisord.py:122-127 | A configured socket is always used: the endpoint is that socket path, whatever port, user and password say. |
| Supervisord.HttpUrlShape | checks.d/supervisord.py:128-134 | Without a socket the endpoint is an HTTP URL that starts with `http://` and ends with `/RPC2`. With no host, no port and no credentials it is `http://localhost:9001/RPC2`. |
| Supervisord.CredentialsInUrlIff | checks.d/supervisord.py:131-134 | When host and port contain no `@`, the URL carries credentials if and only if user and password are both truthy. |
| Supervisord.HttpUrlCarriesHostAndPort | checks.d/supervisord.py:128-134 | Without a socket, a configured host and port are the ones in the URL: `http://<host>:<port>/RPC2`, or `http://<user>:<pass>@<host>:<port>/RPC2` when both credentials are truthy. |
| Supervisord.UnreachableNamesEndpoint | checks.d/supervisord.py:72-89 | The transport-failure error names a socket exactly when `_connect` chose one, and then the same path. Otherwise it names the host and port in the URL `_connect` built. |
| Supervisord.ProtocolAbortAsWrittenLosesCode | checks.d/supervisord.py:90-96 | As written, every non-401 protocol error aborts with the same error: server and code are lost, and the result differs from the intended error. |
| Supervisord.ProtocolAbortKeepsCode | checks.d/supervisord.py:90-96 | The corrected branch, which the cycle does not use since the cycle follows the code as written, gives the credentials error exactly for code 401. Equal errors imply the same server and the same code, or 401 on both sides. For 401 it agrees with the code as written. |
| CheckCycle.FetchNamed | checks.d/supervisord.py:59-69 | The name-by-name loop, stopping at the first thing raised. Each name asked yields at most one record or one warning, and exactly one when nothing is raised. The only error it raises itself is the read-fault error. |
| CheckCycle.FetchAll | checks.d/supervisord.py:71 | `getAllProcessInfo` logs nothing and succeeds exactly when the daemon returns records, and `processes` is then that list. A fault raises the unhandled-fault error with its code. A call failure is raised unchanged. A failure leaves no records. |
| CheckCycle.TryFetch | checks.d/supervisord.py:55-71 | The `try` block raises "invalid proc_names" exactly when `proc_names` is truthy and not a list. It logs warnings only on the name-by-name path. |
| CheckCycle.Retrieve | checks.d/supervisord.py:53-96 | After the `except` clauses, retrieval aborts exactly when the `try` block raised, and never with the missing-name error. Without an abort its log and records are those of the `try` block. A transport failure with `server_check` on appends exactly the server-down check to the warnings. In every other case the log is exactly the `try` block's warnings. An error the `try` block raised itself is the abort unchanged. |
| CheckCycle.ReportStep | checks.d/supervisord.py:100-113 | One record continues exactly when its state is in the table, and then appends two emissions after the log so far. An unknown state leaves the log and the counts as they were. |
| CheckCycle.ReportAll | checks.d/supervisord.py:99-113 | The per-process loop keeps a count for every level. A completed loop logs two emissions per record. An abort is always an unknown-state error, and comes with fewer. |
| CheckCycle.CountGauges | checks.d/supervisord.py:115-119 | One `supervisord.process.count` gauge per level of the iteration order, and nothing else. |
| CheckCycle.ReportPhase | checks.d/supervisord.py:98-119 | Reporting completes exactly when the per-process loop does. |
| CheckCycle.CycleFor | checks.d/supervisord.py:45-119 | A cycle for a named server completes exactly when retrieval does not abort and then every record's state is known. |
| CheckCycle.Cycle | checks.d/supervisord.py:39-119 | One call of `check`. It aborts with the missing-name error exactly when the name is missing or empty, and then emits nothing. |
| CheckCycle.FetchNamedSticky | checks.d/supervisord.py:60-69 | Once a name's reply raises, no later name changes the outcome of the name-by-name loop. |
| CheckCycle.FetchNamedAllAcceptable | checks.d/supervisord.py:60-69 | When every name gets a record or fault 10, nothing is raised. `processes` holds the records in list order, and there is one warning per unknown name, in order. |
| CheckCycle.FetchNamedSucceedsIff | checks.d/supervisord.py:60-69 | The name-by-name loop raises nothing if and only if every name gets a record or fault 10. |
| CheckCycle.FetchNamedFirstFailure | checks.d/supervisord.py:60-69 | At the first name with another reply, the earlier warnings stand. Another fault code raises the read-fault error for that name and code. A call failure is re-raised. |
| CheckCycle.FetchNamedOnlyWarns | checks.d/supervisord.py:60-69 | The name-by-name loop logs nothing but warnings. |
| CheckCycle.TryFetchChoosesCall | checks.d/supervisord.py:55-71 | A truthy list is fetched name by name and never touches `getAllProcessInfo`. A missing or falsy value uses only `getAllProcessInfo`. A truthy non-list raises "invalid proc_names" before any call. |
| CheckCycle.ReportAllSticky | checks.d/supervisord.py:99-113 | Once a record's state is unknown, later records are never reported. |
| CheckCycle.ReportAllKnown | checks.d/supervisord.py:99-113 | With every state known, the loop completes. Its log is a service check at the mapped level and an uptime gauge per record, in order. Each level's count is the number of records at that level. |
| CheckCycle.ReportAllSucceedsIff | checks.d/supervisord.py:99-113 | The per-process loop completes if and only if every state is in the table. |
| CheckCycle.FirstUnknownStateAborts | checks.d/supervisord.py:99-113 | At the first unknown state the loop aborts with that state, after exactly the emissions and counts of the records before it. |
| CheckCycle.LevelCountsSum | checks.d/supervisord.py:106-108 | The three counts sum to the number of records. |
| CheckCycle.ProcessEmissionsAt | checks.d/supervisord.py:99-113 | There are 2n emissions for n records. Emission 2k is record k's service check and emission 2k+1 is its uptime gauge. |
| CheckCycle.CountGaugesAt | checks.d/supervisord.py:115-119 | There is one count gauge per level of the iteration order. Gauge k carries the count of the k-th level, tagged with the server and that level's status tag. |
| Agent.SupervisordCheck.EmitServiceCheck | checks.d/supervisord.py:78-81 | A service check is appended to the log, and nothing else changes. |
| Agent.SupervisordCheck.EmitGauge | checks.d/supervisord.py:113 | A gauge is appended to the log, and nothing else changes. |
| Agent.SupervisordCheck.EmitWarning | checks.d/supervisord.py:65 | A warning is appended to the log, and nothing else changes. |
| Agent.SupervisordCheck.GrabProcesses | checks.d/supervisord.py:54-71 | The `try` block appends exactly the warnings of the reference retrieval and raises what it raises. When nothing is raised, `processes` is its record list. |
| Agent.SupervisordCheck.FetchProcesses | checks.d/supervisord.py:53-96 | The `try` block with its `except` clauses: the log, the abort and the records are those of the reference retrieval. |
| Agent.SupervisordCheck.ReportProcess | checks.d/supervisord.py:100-113 | One record. An unknown state aborts with no emission and no count. Otherwise the level's count goes up by one, and the service check and uptime gauge are appended. |
| Agent.SupervisordCheck.ReportProcesses | checks.d/supervisord.py:99-113 | The per-process loop from a fresh `count_by_status` appends the log of the reference loop and ends with its counts and abort. |
| Agent.SupervisordCheck.ReportCounts | checks.d/supervisord.py:115-119 | The count gauges appended are those of the reference, in the given order. |
| Agent.SupervisordCheck.ReportEverything | checks.d/supervisord.py:98-119 | The per-process loop, then the count gauges unless it aborted, match the reference report phase. |
| Agent.SupervisordCheck.CheckServer | checks.d/supervisord.py:45-119 | After the name check, the cycle appends the log and gives the outcome of the reference cycle for that server. |
| Agent.SupervisordCheck.Check | checks.d/supervisord.py:39-119 | `check` appends exactly the reference cycle's log to the check's log and ends as the reference does. |
| CycleProperties.MissingNameEmitsNothing | checks.d/supervisord.py:40-43 | A missing or empty name aborts with no emission, whatever the daemon would answer. |
| CycleProperties.InvalidProcNamesEmitsNothing | checks.d/supervisord.py:55-58 | A truthy `proc_names` that is not a list aborts with no emission, whatever the daemon would answer. |
| CycleProperties.CompletedCycleParts | checks.d/supervisord.py:53-119 | A completed cycle's log is some warnings, then the emissions of known records, then count gauges whose counts are the number of records at each level. |
| CycleProperties.CountGaugesOfCompletedLog | checks.d/supervisord.py:108-119 | In such a log there is exactly one count gauge per level, and every count gauge carries the number of process checks at its level. |
| CycleProperties.ProcessChecksOfCompletedLog | checks.d/supervisord.py:99-113 | In such a log the process checks and the uptime gauges both number one per record, the level counts match, and there is no server check. |
| CycleProperties.CompletedCycleCounts | checks.d/supervisord.py:39-119 | A completed cycle emits one count gauge per level, a zero count included. Each count equals the process checks emitted at its level. There is one check and one uptime gauge per record, and no server check. |
| CycleProperties.UnknownStateStopsCycle | checks.d/supervisord.py:106 | At the first unknown state the cycle aborts with it. The k earlier records' uptime gauges stand, and no count gauge or server check is emitted. |
| CycleProperties.TransportFailureReportsServerDown | checks.d/supervisord.py:72-89 | A transport failure leaves the warnings logged so far, followed by one CRITICAL server check exactly when `server_check` is set. The cycle aborts naming the endpoint. |
| CycleProperties.AuthFailureEmitsNoServerCheck | checks.d/supervisord.py:90-93 | A 401 aborts with the credentials error. The log is exactly the warnings logged before it, with no server check. |
| CycleProperties.ProtocolErrorEndsInNameError | checks.d/supervisord.py:90-96 | A protocol error other than 401 ends the cycle with the `NameError` of `servere_name`, not the intended error. The log is exactly the warnings logged before it, with no server check. |
| CycleProperties.ServerCheckIffTransport | checks.d/supervisord.py:72-96 | The cycle aborts on an unreachable endpoint if and only if retrieval had a transport failure. The log holds a server check exactly in that case with `server_check` set. |
| CycleProperties.WebAndGhostScenario | checks.d/supervisord.py:39-119 | For `["web", "ghost"]` with only `web` known, RUNNING from 1000 to 1500, the cycle completes. The log is a warning, an OK check, an uptime of 500 and three count gauges. |
| CycleProperties.WebAndGhostCountGauges | checks.d/supervisord.py:115-119 | In the same scenario the OK count gauge carries 1 and the other two carry 0. |

## Left out

- XML-RPC transport and serialisation are not modelled. Each daemon call is a reply value (a record, a fault, or a transport or protocol error) from the `Daemon` parameter. The daemon is a snapshot: asking the same name twice gets the same reply.
- The `AgentCheck` base class is not modelled beyond `service_check`, `gauge` and `warning`, which append to the check's log. Submission, aggregation and hostname tagging are not modelled.
- `FORMAT_TIME` (`time.strftime` over `time.localtime`) is the parameter `fmt`, because it depends on the clock's time zone.
- The wording of messages and exceptions is not modelled. The server-down message is the text of line 77. The process message is a record of the eleven fields `_build_message` formats. Each exception is an `Abort` value carrying the data its message names.
- `_build_message` writes `now_str`, `start_str` and `stop_str` into the record it is given. The model returns them in the message instead, because nothing else reads the record afterwards.
- The iteration order of `PROCESS_STATUS` is a Python dict order. It is the `order` parameter, with any order of the three levels allowed.
- Connect: a `host` or `port` key present with a null value (`host: ~` in YAML) is treated as missing, so the model uses the default. The code would format `None` into the URL (`http://None:9001/RPC2`, line 134).
- UnreachableAbort: a null `host` or `port` is treated as missing in the same way. The code would name `None` in the error (line 83).
- Records missing a field (a `KeyError` on `proc['name']` and so on) and fields that `int()` cannot convert are not modelled. Records always have every field as an integer.
- Only the `name`, `host`, `port`, `socket`, `user`, `pass`, `proc_names` and `server_check` instance keys are modelled. `server_check` is a boolean already holding its default of true. A truthy `proc_names` that is not a list is only known to be truthy.
- In socket mode `host` is used as the `ServerProxy` URL with the default `http://127.0.0.1`. The socket path is what the transport connects to. The model keeps both, as the code at lines 123-127 does.
- Scheduling of cycles, concurrency between instances, timeouts and logging are not modelled.

## Findings

The cycle follows the code as written: `Retrieve` and `FetchProcesses` use
`ProtocolAbortAsWritten`. The corrected `ProtocolAbort` is defined and proved
alongside it.

| source | as written | input that shows it | evidently intended | confidence | as-written member | corrected member |
|---|---|---|---|---|---|---|
| checks.d/supervisord.py:95-96 | For any protocol error other than 401, the message refers to `servere_name`, which is not defined. Building it raises a `NameError`, so the error code and the server are lost. | An `xmlrpclib.ProtocolError` with errcode 500 during retrieval, for example from a proxy in front of the daemon. | Use `server_name`: "An error occurred while connecting to <server>: 500 <errmsg>". | high (a name no scope defines); not executed | Supervisord.ProtocolAbortAsWrittenLosesCode, CycleProperties.ProtocolErrorEndsInNameError | Supervisord.ProtocolAbortKeepsCode |

/**
 * The vocabulary of the supervisord check: health levels and the two fixed
 * tables, the instance configuration, the daemon seen as an oracle, the
 * emissions a check cycle produces, and the three helpers `_connect`,
 * `_extract_uptime` and `_build_message`.
 */
module Supervisord {
  import opened Wrappers

  /** The normalised health levels (AgentCheck.OK, AgentCheck.CRITICAL, AgentCheck.UNKNOWN). */
  datatype Level = Ok | Critical | Unknown

  const DefaultHost := "localhost"
  const DefaultPort := "9001"
  const DefaultSocketIp := "http://127.0.0.1"
  const ServerTag := "supervisord_server"
  const ProcessTag := "supervisord_process"

  /** supervisord's fault code for "no such process" (BAD_NAME). */
  const BadNameFault := 10
  /** The XML-RPC protocol error code of an authorisation failure. */
  const Unauthorized := 401

  const ServerCheckName := "supervisord.server.check"
  const ProcessCheckName := "supervisord.process.check"
  const UptimeMetric := "supervisord.process.uptime"
  const CountMetric := "supervisord.process.count"

  /** DD_STATUS: supervisord state name to health level. */
  const DdStatus: map<string, Level> := map[
    "STOPPED" := Critical,
    "STARTING" := Ok,
    "RUNNING" := Ok,
    "BACKOFF" := Unknown,
    "STOPPING" := Critical,
    "EXITED" := Critical,
    "FATAL" := Critical,
    "UNKNOWN" := Unknown
  ]

  /** PROCESS_STATUS: health level to the label of its `status:` tag. */
  const ProcessStatus: map<Level, string> := map[
    Critical := "down",
    Ok := "up",
    Unknown := "unknown"
  ]

  /** The states whose uptime is measured (`_extract_uptime`). */
  const ActiveStates: seq<string> := ["BACKOFF", "RUNNING", "STOPPING"]

  // ---------------------------------------------------------------------
  // Configuration

  /**
   * The `proc_names` key: absent, a list of names, or some other value
   * (a string, a number, a tuple ...) that is truthy or not.
   */
  datatype ProcNames = Absent | Names(list: seq<string>) | NotAList(truthy: bool)

  /** One configured supervisord server (one `instance` of the check). */
  datatype Instance = Instance(
    name: Option<string>,
    host: Option<string>,
    port: Option<string>,
    socket: Option<string>,
    user: Option<string>,
    password: Option<string>,
    procNames: ProcNames,
    serverCheck: bool)

  /** Python truthiness of an optional string. */
  predicate Truthy(s: Option<string>) {
    s.Some? && s.value != ""
  }

  /** Python truthiness of the `proc_names` value. */
  predicate ProcNamesTruthy(p: ProcNames) {
    match p
    case Absent => false
    case Names(list) => list != []
    case NotAList(truthy) => truthy
  }

  /** The check refuses an instance whose `name` is missing or empty. */
  predicate HasName(i: Instance) {
    i.name.Some? && |i.name.value| > 0
  }

  // ---------------------------------------------------------------------
  // The daemon, as an oracle

  /** One process record as returned by `getProcessInfo`/`getAllProcessInfo`. */
  datatype ProcInfo = ProcInfo(
    name: string,
    group: string,
    description: string,
    statename: string,
    start: int,
    stop: int,
    now: int,
    exitstatus: int,
    stdoutLogfile: string,
    stderrLogfile: string,
    logfile: string)

  /** Failures of the XML-RPC call itself: `socket.error` or `xmlrpclib.ProtocolError`. */
  datatype RpcError = Transport | Protocol(errcode: int, errmsg: string)

  /** The answer to `getProcessInfo(name)`: a record, an `xmlrpclib.Fault`, or a call failure. */
  datatype InfoReply = Info(proc: ProcInfo) | Fault(faultCode: int, faultString: string) | Failed(error: RpcError)

  /** The answer to `getAllProcessInfo()`. */
  datatype AllReply = AllInfo(procs: seq<ProcInfo>) | AllFault(faultCode: int, faultString: string) | AllFailed(error: RpcError)

  /** The daemon reached through one endpoint: one function per remote call. */
  datatype Daemon = Daemon(getProcessInfo: string -> InfoReply, getAllProcessInfo: AllReply)

  // ---------------------------------------------------------------------
  // Emissions and aborts

  /** A service-check message: plain text, or the fields `_build_message` formats. */
  datatype Message =
    | Text(text: string)
    | ProcessMessage(
        nowStr: string,
        procName: string,
        group: string,
        description: string,
        stderrLogfile: string,
        stdoutLogfile: string,
        logfile: string,
        statename: string,
        startStr: string,
        stopStr: string,
        exitstatus: int)

  /** What the check hands to `service_check`, `gauge` and `warning`, in order. */
  datatype Emission =
    | ServiceCheck(check: string, status: Level, tags: seq<string>, message: Message)
    | Gauge(metric: string, value: int, tags: seq<string>)
    | Warning(text: string)

  /** The reason a cycle ends with an exception. */
  datatype Abort =
    | MissingName
    | InvalidProcNames
    | ProcessReadFault(procName: string, faultCode: int)
    | UnhandledFault(faultCode: int)
    | UnreachableHttp(host: string, port: string)
    | UnreachableSocket(path: string)
    | BadCredentials(server: string)
    | ProtocolFailure(server: string, errcode: int)
    | UndefinedName(identifier: string)
    | UnknownState(statename: string)

  // ---------------------------------------------------------------------
  // The state table

  /** The table is total over exactly eight states, with these levels. */
  lemma StateTable()
    ensures DdStatus.Keys == {"STOPPED", "STARTING", "RUNNING", "BACKOFF", "STOPPING", "EXITED", "FATAL", "UNKNOWN"}
    ensures forall s :: s in DdStatus ==> (DdStatus[s] == Ok <==> s == "STARTING" || s == "RUNNING")
    ensures forall s :: s in DdStatus ==> (DdStatus[s] == Unknown <==> s == "BACKOFF" || s == "UNKNOWN")
    ensures forall s :: s in DdStatus ==>
              (DdStatus[s] == Critical <==> s == "STOPPED" || s == "STOPPING" || s == "EXITED" || s == "FATAL")
  {
  }

  /** The label of a level's `status:` tag. */
  function StatusLabel(l: Level): (r: string) {
    assert l in ProcessStatus by { assert l == Ok || l == Critical || l == Unknown; }
    ProcessStatus[l]
  }

  function StatusTag(l: Level): string {
    "status:" + StatusLabel(l)
  }

  /** PROCESS_STATUS maps OK to up, CRITICAL to down and UNKNOWN to unknown, so distinct levels get distinct tags. */
  lemma StatusTagInjective(l1: Level, l2: Level)
    ensures ProcessStatus.Keys == {Ok, Critical, Unknown}
    ensures StatusLabel(Ok) == "up" && StatusLabel(Critical) == "down" && StatusLabel(Unknown) == "unknown"
    ensures StatusTag(l1) == StatusTag(l2) <==> l1 == l2
  {
    if StatusTag(l1) == StatusTag(l2) {
      assert StatusLabel(l1) == StatusTag(l1)[7..];
      assert StatusLabel(l2) == StatusTag(l2)[7..];
      assert |StatusLabel(l1)| == |StatusLabel(l2)|;
    }
  }

  // ---------------------------------------------------------------------
  // Tags and emissions

  /** `['supervisord', 'supervisord_server:<name>']` */
  function ServerTags(server: string): seq<string> {
    ["supervisord", ServerTag + ":" + server]
  }

  /** `['supervisord', 'supervisord_server:<name>', 'supervisord_process:<proc>']` */
  function ProcessTags(server: string, proc: string): seq<string> {
    ServerTags(server) + [ProcessTag + ":" + proc]
  }

  /** The CRITICAL server check a transport failure reports (lines 76-81). */
  function ServerDown(server: string): Emission {
    ServiceCheck(ServerCheckName, Critical, ServerTags(server), Text("Supervisord server " + server + " is down."))
  }

  /** The warning for a name answered with fault code 10 (line 65). */
  function ProcessNotFound(procName: string): Emission {
    Warning("Process not found: " + procName)
  }

  /** The service check of one process at its level (lines 109-110). */
  function ProcessCheck(server: string, p: ProcInfo, status: Level, fmt: int -> string): Emission {
    ServiceCheck(ProcessCheckName, status, ProcessTags(server, p.name), BuildMessage(p, fmt))
  }

  /** The uptime gauge of one process (lines 112-113). */
  function UptimeGauge(server: string, p: ProcInfo): Emission {
    Gauge(UptimeMetric, ExtractUptime(p), ProcessTags(server, p.name))
  }

  /** The count gauge of one level (lines 118-119). */
  function CountGauge(server: string, l: Level, count: int): Emission {
    Gauge(CountMetric, count, ServerTags(server) + [StatusTag(l)])
  }

  // ---------------------------------------------------------------------
  // _extract_uptime

  /** Lines 137-142: the uptime is either 0 or `now - start`, and it is only non-zero in an active state. */
  function ExtractUptime(p: ProcInfo): (r: int)
    ensures r == 0 || r == p.now - p.start
    ensures r != 0 ==> p.statename in ActiveStates
  {
    if p.statename in ActiveStates then p.now - p.start else 0
  }

  /**
   * Uptime is `now - start` in BACKOFF, RUNNING and STOPPING and 0 in every
   * other state, whatever the clock says; so a non-zero uptime is only ever
   * reported for a state the table knows.
   */
  lemma UptimeRule(p: ProcInfo)
    ensures p.statename == "BACKOFF" || p.statename == "RUNNING" || p.statename == "STOPPING" ==>
              ExtractUptime(p) == p.now - p.start
    ensures !(p.statename == "BACKOFF" || p.statename == "RUNNING" || p.statename == "STOPPING") ==>
              ExtractUptime(p) == 0
    ensures ExtractUptime(p) != 0 ==> p.statename in DdStatus && p.now != p.start
    ensures ExtractUptime(p) < 0 ==> p.now < p.start
  {
  }

  /** Each health level has exactly one active state, so the uptime rule is not a function of the level. */
  lemma ActiveStatesSpanLevels()
    ensures forall s :: s in ActiveStates ==> s in DdStatus
    ensures DdStatus[ActiveStates[0]] == Unknown && DdStatus[ActiveStates[1]] == Ok && DdStatus[ActiveStates[2]] == Critical
    ensures forall s :: s in DdStatus && s !in ActiveStates ==> s in {"STOPPED", "STARTING", "EXITED", "FATAL", "UNKNOWN"}
  {
  }

  // ---------------------------------------------------------------------
  // _build_message

  /** The proc fields `_build_message` formats, after it adds `now_str`, `start_str`, `stop_str`. */
  function BuildMessage(p: ProcInfo, fmt: int -> string): (m: Message)
    ensures m.ProcessMessage?
    ensures m.procName == p.name && m.group == p.group && m.description == p.description && m.statename == p.statename
    ensures m.stderrLogfile == p.stderrLogfile && m.stdoutLogfile == p.stdoutLogfile && m.logfile == p.logfile
    ensures m.exitstatus == p.exitstatus
    ensures m.nowStr == fmt(p.now) && m.startStr == fmt(p.start)
    ensures m.stopStr == "" || m.stopStr == fmt(p.stop)
  {
    ProcessMessage(
      fmt(p.now), p.name, p.group, p.description,
      p.stderrLogfile, p.stdoutLogfile, p.logfile, p.statename,
      fmt(p.start), if p.stop == 0 then "" else fmt(p.stop), p.exitstatus)
  }

  /**
   * The stop time is the empty string when `stop == 0`; when the time
   * formatter never yields the empty string, only then.
   */
  lemma StopTimeEmptyIff(p: ProcInfo, fmt: int -> string)
    requires forall t :: fmt(t) != ""
    ensures BuildMessage(p, fmt).stopStr == "" <==> p.stop == 0
    ensures BuildMessage(p, fmt).nowStr != "" && BuildMessage(p, fmt).startStr != ""
  {
  }

  /** With `stop == 0` the message does not depend on how the formatter renders the stop time. */
  lemma StoppedAtZeroIgnoresFormatter(p: ProcInfo, f: int -> string, g: int -> string)
    requires p.stop == 0 && f(p.now) == g(p.now) && f(p.start) == g(p.start)
    ensures BuildMessage(p, f) == BuildMessage(p, g)
  {
  }

  // ---------------------------------------------------------------------
  // _connect

  /** What `_connect` builds: an XML-RPC proxy over a unix socket, or over HTTP. */
  datatype Endpoint = UnixSocket(path: string, proxyUrl: string) | Http(url: string)

  /** `user:pass@` when both are truthy, else nothing. */
  function AuthPart(user: Option<string>, password: Option<string>): (r: string) {
    if Truthy(user) && Truthy(password) then user.value + ":" + password.value + "@" else ""
  }

  /** Lines 121-135: a socket endpoint exactly when `socket` is set, proxied at `host` (default http://127.0.0.1). */
  function Connect(i: Instance): (e: Endpoint)
    ensures e.UnixSocket? <==> i.socket.Some?
    ensures e.UnixSocket? ==> e.path == i.socket.value && e.proxyUrl == i.host.GetOr(DefaultSocketIp)
  {
    if i.socket.Some? then
      UnixSocket(i.socket.value, i.host.GetOr(DefaultSocketIp))
    else
      Http("http://" + AuthPart(i.user, i.password) + i.host.GetOr(DefaultHost) + ":" + i.port.GetOr(DefaultPort) + "/RPC2")
  }

  /** A configured socket wins: its path is used, and port, user and password play no part. */
  lemma ConnectPrefersSocket(i: Instance, port: Option<string>, user: Option<string>, password: Option<string>)
    requires i.socket.Some?
    ensures Connect(i).UnixSocket? && Connect(i).path == i.socket.value
    ensures Connect(i.(port := port, user := user, password := password)) == Connect(i)
  {
  }

  /** Without a socket the URL is `http://...:<port>/RPC2`, with the defaults localhost and 9001. */
  lemma HttpUrlShape(i: Instance)
    requires i.socket.None?
    ensures Connect(i).Http?
    ensures |Connect(i).url| >= 12
    ensures Connect(i).url[..7] == "http://"
    ensures Connect(i).url[|Connect(i).url| - 5..] == "/RPC2"
    ensures i.host.None? && i.port.None? && !(Truthy(i.user) && Truthy(i.password)) ==>
              Connect(i).url == "http://localhost:9001/RPC2"
  {
    var u := Connect(i).url;
    var rest := AuthPart(i.user, i.password) + i.host.GetOr(DefaultHost) + ":" + i.port.GetOr(DefaultPort);
    assert u == "http://" + rest + "/RPC2";
    assert u[..7] == "http://";
  }

  /**
   * When neither host nor port contains `@`, the URL carries credentials
   * (contains `@`) exactly when both user and password are truthy.
   */
  lemma CredentialsInUrlIff(i: Instance)
    requires i.socket.None?
    requires '@' !in i.host.GetOr(DefaultHost) && '@' !in i.port.GetOr(DefaultPort)
    ensures Connect(i).Http?
    ensures '@' in Connect(i).url <==> Truthy(i.user) && Truthy(i.password)
  {
    var auth := AuthPart(i.user, i.password);
    var host, port := i.host.GetOr(DefaultHost), i.port.GetOr(DefaultPort);
    var u := Connect(i).url;
    assert u == "http://" + auth + host + ":" + port + "/RPC2";
    assert '@' !in "http://" && '@' !in ":" && '@' !in "/RPC2";
    if Truthy(i.user) && Truthy(i.password) {
      assert auth[|auth| - 1] == '@';
      assert '@' in auth;
      assert u == "http://" + auth + (host + ":" + port + "/RPC2");
    } else {
      assert auth == "";
      assert u == "http://" + host + ":" + port + "/RPC2";
    }
  }

  /** A configured host and port are the ones in the URL, after `user:pass@` when both credentials are truthy. */
  lemma HttpUrlCarriesHostAndPort(i: Instance, h: string, p: string)
    requires i.socket.None? && i.host == Some(h) && i.port == Some(p)
    ensures Connect(i).Http?
    ensures !(Truthy(i.user) && Truthy(i.password)) ==> Connect(i).url == "http://" + h + ":" + p + "/RPC2"
    ensures Truthy(i.user) && Truthy(i.password) ==>
              Connect(i).url == "http://" + i.user.value + ":" + i.password.value + "@" + h + ":" + p + "/RPC2"
  {
  }

  // ---------------------------------------------------------------------
  // The errors of the `except` clauses

  /** The error of a transport failure names the socket path, else host:port (lines 82-89). */
  function UnreachableAbort(i: Instance): (a: Abort)
    ensures a.UnreachableSocket? <==> i.socket.Some?
    ensures a.UnreachableHttp? <==> i.socket.None?
    ensures a.UnreachableHttp? ==> a.host == i.host.GetOr(DefaultHost) && a.port == i.port.GetOr(DefaultPort)
    ensures a.UnreachableSocket? ==> a.path == i.socket.value
  {
    if i.socket.None? then UnreachableHttp(i.host.GetOr(DefaultHost), i.port.GetOr(DefaultPort))
    else UnreachableSocket(i.socket.value)
  }

  /** The unreachable endpoint the error names is the one `_connect` chose. */
  lemma UnreachableNamesEndpoint(i: Instance)
    ensures Connect(i).UnixSocket? <==> UnreachableAbort(i).UnreachableSocket?
    ensures Connect(i).UnixSocket? ==> UnreachableAbort(i).path == Connect(i).path
    ensures Connect(i).Http? ==>
              UnreachableAbort(i).UnreachableHttp? &&
              Connect(i).url == "http://" + AuthPart(i.user, i.password) + UnreachableAbort(i).host + ":" + UnreachableAbort(i).port + "/RPC2"
  {
  }

  /** The protocol-error branch as written: any code but 401 evaluates the undefined `servere_name` (line 96). */
  function ProtocolAbortAsWritten(server: string, errcode: int): (a: Abort) {
    if errcode == Unauthorized then BadCredentials(server) else UndefinedName("servere_name")
  }

  /** The protocol-error branch as intended: name the server and carry the code (lines 91-96). */
  function ProtocolAbort(server: string, errcode: int): (a: Abort) {
    if errcode == Unauthorized then BadCredentials(server) else ProtocolFailure(server, errcode)
  }

  /** As written, every non-401 protocol error aborts with the same NameError: server and code are lost. */
  lemma ProtocolAbortAsWrittenLosesCode(s1: string, e1: int, s2: string, e2: int)
    requires e1 != Unauthorized && e2 != Unauthorized
    ensures ProtocolAbortAsWritten(s1, e1) == ProtocolAbortAsWritten(s2, e2)
    ensures ProtocolAbortAsWritten("main", 500) != ProtocolAbort("main", 500)
  {
  }

  /** The corrected branch determines server and code from the abort; 401 is told apart from every other code. */
  lemma ProtocolAbortKeepsCode(s1: string, e1: int, s2: string, e2: int)
    ensures ProtocolAbort(s1, e1).BadCredentials? <==> e1 == Unauthorized
    ensures ProtocolAbort(s1, e1) == ProtocolAbort(s2, e2) ==>
              s1 == s2 && (e1 == e2 || (e1 == Unauthorized && e2 == Unauthorized))
    ensures e1 == Unauthorized ==> ProtocolAbort(s1, e1) == ProtocolAbortAsWritten(s1, e1)
  {
  }
}

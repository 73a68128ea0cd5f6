/**
 * What one check cycle promises, read off its emission log: which kinds of
 * emission appear and how often, the count gauges against the process
 * checks, and the difference between a transport failure and a 401.
 */
module CycleProperties {
  import opened Wrappers
  import opened Supervisord
  import opened CheckCycle

  /** How an observer of the backend classifies one emission. */
  datatype Kind =
    | ServerCheckKind
    | ProcessCheckKind(level: Level)
    | UptimeKind
    | CountKind(status: Option<Level>)
    | WarningKind
    | OtherKind

  /** The level named by a count gauge's third tag, if it is a `status:` tag. */
  function StatusOfTags(tags: seq<string>): Option<Level> {
    if |tags| != 3 then None
    else if tags[2] == StatusTag(Ok) then Some(Ok)
    else if tags[2] == StatusTag(Critical) then Some(Critical)
    else if tags[2] == StatusTag(Unknown) then Some(Unknown)
    else None
  }

  function KindOf(e: Emission): (k: Kind) {
    match e
    case ServiceCheck(check, status, _, _) =>
      if check == ServerCheckName then ServerCheckKind
      else if check == ProcessCheckName then ProcessCheckKind(status)
      else OtherKind
    case Gauge(metric, _, tags) =>
      if metric == UptimeMetric then UptimeKind
      else if metric == CountMetric then CountKind(StatusOfTags(tags))
      else OtherKind
    case Warning(_) => WarningKind
  }

  /** The number of emissions of kind k in the log. */
  function Occurrences(log: seq<Emission>, k: Kind): (n: nat) {
    if log == [] then 0 else (if KindOf(log[0]) == k then 1 else 0) + Occurrences(log[1..], k)
  }

  lemma {:induction false} OccurrencesAppend(a: seq<Emission>, b: seq<Emission>, k: Kind)
    ensures Occurrences(a + b, k) == Occurrences(a, k) + Occurrences(b, k)
    decreases |a|
  {
    if a == [] {
      assert a + b == b;
    } else {
      assert (a + b)[0] == a[0];
      assert (a + b)[1..] == a[1..] + b;
      OccurrencesAppend(a[1..], b, k);
    }
  }

  lemma OccurrencesOfThree(s: seq<Emission>, k: Kind)
    requires |s| == 3
    ensures Occurrences(s, k) ==
              (if KindOf(s[0]) == k then 1 else 0) + (if KindOf(s[1]) == k then 1 else 0) + (if KindOf(s[2]) == k then 1 else 0)
  {
    assert s == [s[0]] + [s[1]] + [s[2]];
    OccurrencesAppend([s[0]] + [s[1]], [s[2]], k);
    OccurrencesAppend([s[0]], [s[1]], k);
  }

  /** The three parts of a log: what retrieval logged, what the per-process loop logged, the count gauges. */
  lemma OccurrencesOfParts(w: seq<Emission>, pe: seq<Emission>, cg: seq<Emission>, k: Kind)
    ensures Occurrences(w + pe + cg, k) == Occurrences(w, k) + Occurrences(pe, k) + Occurrences(cg, k)
  {
    OccurrencesAppend(w + pe, cg, k);
    OccurrencesAppend(w, pe, k);
  }

  lemma {:induction false} OccurrencesOfMember(log: seq<Emission>, e: Emission)
    requires e in log
    ensures Occurrences(log, KindOf(e)) > 0
    decreases |log|
  {
    if log[0] != e {
      assert e in log[1..];
      OccurrencesOfMember(log[1..], e);
    }
  }

  lemma AbsentKind(log: seq<Emission>, e: Emission)
    requires Occurrences(log, KindOf(e)) == 0
    ensures e !in log
  {
    if e in log { OccurrencesOfMember(log, e); }
  }

  lemma {:induction false} WarningsOnly(ws: seq<Emission>, k: Kind)
    requires forall e :: e in ws ==> e.Warning?
    requires k != WarningKind
    ensures Occurrences(ws, k) == 0
    decreases |ws|
  {
    if ws != [] {
      assert ws[0] in ws;
      forall e | e in ws[1..] ensures e.Warning? { assert e in ws; }
      WarningsOnly(ws[1..], k);
    }
  }

  /** A count gauge is classified by the level its `status:` tag names. */
  lemma CountGaugeKind(server: string, l: Level, n: int)
    ensures KindOf(CountGauge(server, l, n)) == CountKind(Some(l))
  {
    StatusTagInjective(l, Ok);
    StatusTagInjective(l, Critical);
    StatusTagInjective(l, Unknown);
  }

  /** A process check is classified by its level, an uptime gauge as uptime. */
  lemma ProcessEmissionKind(server: string, p: ProcInfo, status: Level, fmt: int -> string)
    ensures KindOf(ProcessCheck(server, p, status, fmt)) == ProcessCheckKind(status)
    ensures KindOf(UptimeGauge(server, p)) == UptimeKind
  {
    assert ProcessCheckName != ServerCheckName;
  }

  /** The per-process emissions: a check per record at its level, an uptime gauge per record, nothing else. */
  lemma {:induction false} ProcessEmissionsKinds(server: string, procs: seq<ProcInfo>, fmt: int -> string)
    requires forall k :: 0 <= k < |procs| ==> Known(procs[k])
    ensures forall l :: Occurrences(ProcessEmissions(server, procs, fmt), ProcessCheckKind(l)) == LevelCount(procs, l)
    ensures Occurrences(ProcessEmissions(server, procs, fmt), UptimeKind) == |procs|
    ensures forall s :: Occurrences(ProcessEmissions(server, procs, fmt), CountKind(s)) == 0
    ensures Occurrences(ProcessEmissions(server, procs, fmt), ServerCheckKind) == 0
    ensures Occurrences(ProcessEmissions(server, procs, fmt), WarningKind) == 0
    decreases |procs|
  {
    if procs != [] {
      var rest := procs[1..];
      assert forall k :: 0 <= k < |rest| ==> rest[k] == procs[k + 1];
      ProcessEmissionsKinds(server, rest, fmt);
      assert Known(procs[0]);
      var head := [ProcessCheck(server, procs[0], DdStatus[procs[0].statename], fmt), UptimeGauge(server, procs[0])];
      assert ProcessEmissions(server, procs, fmt) == head + ProcessEmissions(server, rest, fmt);
      assert head[1..][1..] == [];
      forall k: Kind
        ensures Occurrences(ProcessEmissions(server, procs, fmt), k) ==
                Occurrences(head, k) + Occurrences(ProcessEmissions(server, rest, fmt), k)
      {
        OccurrencesAppend(head, ProcessEmissions(server, rest, fmt), k);
      }
    }
  }

  /** The count gauges of an iteration order: exactly one per level, and nothing else. */
  lemma CountGaugesKinds(server: string, counts: Counts, order: seq<Level>)
    requires HasAllLevels(counts) && IsLevelOrder(order)
    ensures |CountGauges(server, counts, order)| == 3
    ensures forall l :: Occurrences(CountGauges(server, counts, order), CountKind(Some(l))) == 1
    ensures forall k: Kind :: !k.CountKind? ==> Occurrences(CountGauges(server, counts, order), k) == 0
    ensures Occurrences(CountGauges(server, counts, order), CountKind(None)) == 0
    ensures forall e :: e in CountGauges(server, counts, order) ==>
              e.Gauge? && KindOf(e).CountKind? && KindOf(e).status.Some? && e.value == counts[KindOf(e).status.value]
  {
    var cg := CountGauges(server, counts, order);
    CountGaugesAt(server, counts, order, 0);
    CountGaugesAt(server, counts, order, 1);
    CountGaugesAt(server, counts, order, 2);
    CountGaugeKind(server, order[0], counts[order[0]]);
    CountGaugeKind(server, order[1], counts[order[1]]);
    CountGaugeKind(server, order[2], counts[order[2]]);
    forall k: Kind
      ensures Occurrences(cg, k) ==
                (if CountKind(Some(order[0])) == k then 1 else 0) + (if CountKind(Some(order[1])) == k then 1 else 0)
                + (if CountKind(Some(order[2])) == k then 1 else 0)
    {
      OccurrencesOfThree(cg, k);
    }
    forall l: Level ensures Occurrences(cg, CountKind(Some(l))) == 1 {
      LevelOrderCovers(order, l);
    }
    assert cg == [cg[0], cg[1], cg[2]];
  }

  /** A transport failure's error names an unreachable endpoint. */
  predicate IsUnreachable(a: Abort) {
    a.UnreachableHttp? || a.UnreachableSocket?
  }

  // ---------------------------------------------------------------------
  // End-to-end properties of one cycle

  /** A missing or empty name aborts before any call to the daemon and before any emission. */
  lemma MissingNameEmitsNothing(i: Instance, d1: Daemon, d2: Daemon, fmt: int -> string, order: seq<Level>)
    requires !HasName(i)
    ensures Cycle(i, d1, fmt, order) == Cycle(i, d2, fmt, order) == Outcome([], Aborted(MissingName))
  {
  }

  /** A truthy `proc_names` that is not a list aborts before any call and any emission. */
  lemma InvalidProcNamesEmitsNothing(i: Instance, d1: Daemon, d2: Daemon, fmt: int -> string, order: seq<Level>)
    requires HasName(i) && ProcNamesTruthy(i.procNames) && !i.procNames.Names?
    ensures Cycle(i, d1, fmt, order) == Cycle(i, d2, fmt, order) == Outcome([], Aborted(InvalidProcNames))
  {
  }

  /**
   * A completed cycle's log is the retrieval warnings, then a check and an
   * uptime gauge per record (every state known), then the count gauges of
   * counts that are the number of records at each level.
   */
  lemma CompletedCycleParts(i: Instance, d: Daemon, fmt: int -> string, order: seq<Level>)
    returns (w: seq<Emission>, procs: seq<ProcInfo>, counts: Counts)
    requires IsLevelOrder(order)
    requires Cycle(i, d, fmt, order).result == Completed
    ensures HasName(i) && procs == Retrieve(i, i.name.value, d).procs
    ensures forall e :: e in w ==> e.Warning?
    ensures forall k :: 0 <= k < |procs| ==> Known(procs[k])
    ensures HasAllLevels(counts) && forall l :: counts[l] == LevelCount(procs, l)
    ensures Cycle(i, d, fmt, order).log ==
              w + ProcessEmissions(i.name.value, procs, fmt) + CountGauges(i.name.value, counts, order)
  {
    var server := i.name.value;
    var r := Retrieve(i, server, d);
    w, procs := r.log, r.procs;
    counts := ReportAll(server, procs, fmt).counts;
    ReportAllSucceedsIff(server, procs, fmt);
    ReportAllKnown(server, procs, fmt);
    TryFetchOnlyWarns(i.procNames, d);
  }

  /** Warnings aside, a log of three parts shows what its last two parts show. */
  lemma OccurrencesBesideWarnings(w: seq<Emission>, pe: seq<Emission>, cg: seq<Emission>, k: Kind)
    requires forall e :: e in w ==> e.Warning?
    requires k != WarningKind
    ensures Occurrences(w + pe + cg, k) == Occurrences(pe, k) + Occurrences(cg, k)
  {
    WarningsOnly(w, k);
    OccurrencesOfParts(w, pe, cg, k);
  }

  /** The count gauges of such a log: one per level, each carrying the number of process checks at its level. */
  lemma CountGaugesOfCompletedLog(w: seq<Emission>, server: string, procs: seq<ProcInfo>, fmt: int -> string,
                                  counts: Counts, order: seq<Level>)
    requires IsLevelOrder(order)
    requires forall e :: e in w ==> e.Warning?
    requires forall k :: 0 <= k < |procs| ==> Known(procs[k])
    requires HasAllLevels(counts) && forall l :: counts[l] == LevelCount(procs, l)
    ensures var log := w + ProcessEmissions(server, procs, fmt) + CountGauges(server, counts, order);
            && (forall l :: Occurrences(log, CountKind(Some(l))) == 1)
            && Occurrences(log, CountKind(None)) == 0
            && (forall e :: e in log && KindOf(e).CountKind? ==>
                  e.Gauge? && KindOf(e).status.Some? && e.value == Occurrences(log, ProcessCheckKind(KindOf(e).status.value)))
  {
    var pe := ProcessEmissions(server, procs, fmt);
    var cg := CountGauges(server, counts, order);
    var log := w + pe + cg;
    ProcessEmissionsKinds(server, procs, fmt);
    CountGaugesKinds(server, counts, order);
    forall l: Level ensures Occurrences(log, CountKind(Some(l))) == 1 && Occurrences(log, ProcessCheckKind(l)) == counts[l] {
      OccurrencesBesideWarnings(w, pe, cg, CountKind(Some(l)));
      OccurrencesBesideWarnings(w, pe, cg, ProcessCheckKind(l));
    }
    OccurrencesBesideWarnings(w, pe, cg, CountKind(None));
    forall e | e in log && KindOf(e).CountKind?
      ensures e in cg
    {
      WarningsOnly(w, KindOf(e));
      AbsentKind(w, e);
      AbsentKind(pe, e);
    }
  }

  /** The process checks and uptime gauges of such a log: one each per record, and no server check. */
  lemma ProcessChecksOfCompletedLog(w: seq<Emission>, server: string, procs: seq<ProcInfo>, fmt: int -> string,
                                    counts: Counts, order: seq<Level>)
    requires IsLevelOrder(order)
    requires forall e :: e in w ==> e.Warning?
    requires forall k :: 0 <= k < |procs| ==> Known(procs[k])
    requires HasAllLevels(counts)
    ensures var log := w + ProcessEmissions(server, procs, fmt) + CountGauges(server, counts, order);
            && Occurrences(log, ProcessCheckKind(Ok)) + Occurrences(log, ProcessCheckKind(Critical))
                 + Occurrences(log, ProcessCheckKind(Unknown)) == Occurrences(log, UptimeKind)
            && Occurrences(log, UptimeKind) == |procs|
            && (forall l :: Occurrences(log, ProcessCheckKind(l)) == LevelCount(procs, l))
            && Occurrences(log, ServerCheckKind) == 0
  {
    var pe := ProcessEmissions(server, procs, fmt);
    var cg := CountGauges(server, counts, order);
    ProcessEmissionsKinds(server, procs, fmt);
    CountGaugesKinds(server, counts, order);
    LevelCountsSum(procs);
    forall l: Level ensures Occurrences(w + pe + cg, ProcessCheckKind(l)) == LevelCount(procs, l) {
      OccurrencesBesideWarnings(w, pe, cg, ProcessCheckKind(l));
    }
    OccurrencesBesideWarnings(w, pe, cg, UptimeKind);
    OccurrencesBesideWarnings(w, pe, cg, ServerCheckKind);
  }

  /**
   * A completed cycle emits exactly three count gauges, one per level (a
   * zero count included); each carries the number of process checks
   * emitted at its level; the process checks and the uptime gauges are one
   * per retrieved record; and no server check is emitted.
   */
  lemma CompletedCycleCounts(i: Instance, d: Daemon, fmt: int -> string, order: seq<Level>)
    requires IsLevelOrder(order)
    requires Cycle(i, d, fmt, order).result == Completed
    ensures HasName(i)
    ensures var log := Cycle(i, d, fmt, order).log;
            && (forall l :: Occurrences(log, CountKind(Some(l))) == 1)
            && Occurrences(log, CountKind(None)) == 0
            && (forall e :: e in log && KindOf(e).CountKind? ==>
                  e.Gauge? && KindOf(e).status.Some? && e.value == Occurrences(log, ProcessCheckKind(KindOf(e).status.value)))
            && Occurrences(log, ProcessCheckKind(Ok)) + Occurrences(log, ProcessCheckKind(Critical))
                 + Occurrences(log, ProcessCheckKind(Unknown)) == Occurrences(log, UptimeKind)
            && Occurrences(log, UptimeKind) == |Retrieve(i, i.name.value, d).procs|
            && (forall l :: Occurrences(log, ProcessCheckKind(l)) == LevelCount(Retrieve(i, i.name.value, d).procs, l))
            && Occurrences(log, ServerCheckKind) == 0
  {
    var w, procs, counts := CompletedCycleParts(i, d, fmt, order);
    CountGaugesOfCompletedLog(w, i.name.value, procs, fmt, counts, order);
    ProcessChecksOfCompletedLog(w, i.name.value, procs, fmt, counts, order);
  }

  /**
   * When state k is the first the table does not know, the cycle aborts
   * with it: the checks and uptime gauges of the k records before it stand,
   * and no count gauge and no server check is emitted.
   */
  lemma UnknownStateStopsCycle(i: Instance, d: Daemon, fmt: int -> string, order: seq<Level>, k: nat)
    requires HasName(i)
    requires Retrieve(i, i.name.value, d).abort.None?
    requires k < |Retrieve(i, i.name.value, d).procs|
    requires forall j :: 0 <= j < k ==> Known(Retrieve(i, i.name.value, d).procs[j])
    requires !Known(Retrieve(i, i.name.value, d).procs[k])
    ensures Cycle(i, d, fmt, order).result == Aborted(UnknownState(Retrieve(i, i.name.value, d).procs[k].statename))
    ensures var log := Cycle(i, d, fmt, order).log;
            && (forall s :: Occurrences(log, CountKind(s)) == 0)
            && Occurrences(log, UptimeKind) == k
            && Occurrences(log, ServerCheckKind) == 0
  {
    var server := i.name.value;
    var r := Retrieve(i, server, d);
    var procs := r.procs;
    FirstUnknownStateAborts(server, procs, fmt, k);
    var pre := procs[..k];
    assert forall j :: 0 <= j < |pre| ==> pre[j] == procs[j];
    ProcessEmissionsKinds(server, pre, fmt);
    TryFetchOnlyWarns(i.procNames, d);
    var w := r.log;
    var pe := ProcessEmissions(server, pre, fmt);
    var log := Cycle(i, d, fmt, order).log;
    assert log == w + pe;
    forall kd: Kind ensures Occurrences(log, kd) == Occurrences(w, kd) + Occurrences(pe, kd) {
      OccurrencesAppend(w, pe, kd);
    }
    forall kd: Kind | kd != WarningKind ensures Occurrences(w, kd) == 0 {
      WarningsOnly(w, kd);
    }
  }

  /**
   * A transport failure during retrieval emits one CRITICAL server check,
   * tagged with the server, exactly when `server_check` is set, after the
   * warnings already logged; then the cycle aborts naming the endpoint.
   */
  lemma TransportFailureReportsServerDown(i: Instance, d: Daemon, fmt: int -> string, order: seq<Level>)
    requires HasName(i)
    requires TryFetch(i.procNames, d).raised == Some(RpcFailure(Transport))
    ensures Cycle(i, d, fmt, order).result == Aborted(UnreachableAbort(i))
    ensures Cycle(i, d, fmt, order).log ==
              TryFetch(i.procNames, d).warnings + (if i.serverCheck then [ServerDown(i.name.value)] else [])
    ensures var log := Cycle(i, d, fmt, order).log;
            && Occurrences(log, ServerCheckKind) == (if i.serverCheck then 1 else 0)
            && (forall e :: e in log ==> e.Warning? || e == ServerDown(i.name.value))
            && (i.serverCheck ==> log[|log| - 1] == ServerDown(i.name.value))
  {
    var w := TryFetch(i.procNames, d).warnings;
    var tail := if i.serverCheck then [ServerDown(i.name.value)] else [];
    TryFetchOnlyWarns(i.procNames, d);
    WarningsOnly(w, ServerCheckKind);
    OccurrencesAppend(w, tail, ServerCheckKind);
    if i.serverCheck { assert tail[1..] == []; }
  }

  /** A 401 during retrieval aborts with the credentials error and no server check; only warnings stand. */
  lemma AuthFailureEmitsNoServerCheck(i: Instance, d: Daemon, fmt: int -> string, order: seq<Level>, msg: string)
    requires HasName(i)
    requires TryFetch(i.procNames, d).raised == Some(RpcFailure(Protocol(Unauthorized, msg)))
    ensures Cycle(i, d, fmt, order).result == Aborted(BadCredentials(i.name.value))
    ensures Cycle(i, d, fmt, order).log == TryFetch(i.procNames, d).warnings
    ensures forall e :: e in Cycle(i, d, fmt, order).log ==> e.Warning?
    ensures Occurrences(Cycle(i, d, fmt, order).log, ServerCheckKind) == 0
  {
    TryFetchOnlyWarns(i.procNames, d);
    WarningsOnly(Cycle(i, d, fmt, order).log, ServerCheckKind);
  }

  /**
   * Any other protocol error ends the cycle with the NameError of the
   * undefined `servere_name`: only warnings stand, no server check is
   * emitted, and neither the server nor the code reaches the error.
   */
  lemma ProtocolErrorEndsInNameError(i: Instance, d: Daemon, fmt: int -> string, order: seq<Level>, code: int, msg: string)
    requires HasName(i)
    requires code != Unauthorized
    requires TryFetch(i.procNames, d).raised == Some(RpcFailure(Protocol(code, msg)))
    ensures Cycle(i, d, fmt, order).result == Aborted(UndefinedName("servere_name"))
    ensures Cycle(i, d, fmt, order).result != Aborted(ProtocolAbort(i.name.value, code))
    ensures Cycle(i, d, fmt, order).log == TryFetch(i.procNames, d).warnings
    ensures forall e :: e in Cycle(i, d, fmt, order).log ==> e.Warning?
    ensures Occurrences(Cycle(i, d, fmt, order).log, ServerCheckKind) == 0
  {
    TryFetchOnlyWarns(i.procNames, d);
    WarningsOnly(Cycle(i, d, fmt, order).log, ServerCheckKind);
  }

  /**
   * The server check reports connectivity only: the log holds one exactly
   * when the cycle aborted on an unreachable endpoint with `server_check`
   * set, and the cycle aborts that way exactly on a transport failure.
   */
  lemma ServerCheckIffTransport(i: Instance, d: Daemon, fmt: int -> string, order: seq<Level>)
    requires IsLevelOrder(order)
    ensures var c := Cycle(i, d, fmt, order);
            && (c.result.Aborted? && IsUnreachable(c.result.reason) <==>
                  HasName(i) && TryFetch(i.procNames, d).raised == Some(RpcFailure(Transport)))
            && Occurrences(c.log, ServerCheckKind) ==
                 (if i.serverCheck && c.result.Aborted? && IsUnreachable(c.result.reason) then 1 else 0)
  {
    var c := Cycle(i, d, fmt, order);
    if !HasName(i) {
      return;
    }
    var server := i.name.value;
    var f := TryFetch(i.procNames, d);
    var r := Retrieve(i, server, d);
    TryFetchOnlyWarns(i.procNames, d);
    WarningsOnly(f.warnings, ServerCheckKind);
    if f.raised == Some(RpcFailure(Transport)) {
      TransportFailureReportsServerDown(i, d, fmt, order);
    } else if f.raised.Some? {
      assert c.log == f.warnings;
      match f.raised.value {
        case Fatal(a) =>
          FetchAbortsAreNotUnreachable(i.procNames, d);
        case RpcFailure(e) =>
      }
    } else {
      var rep := ReportAll(server, r.procs, fmt);
      if rep.abort.Some? {
        var k := FirstUnknown(r.procs, server, fmt);
        UnknownStateStopsCycle(i, d, fmt, order, k);
      } else {
        CompletedCycleCounts(i, d, fmt, order);
      }
    }
  }

  /** The aborts the `try` block raises itself never name an endpoint. */
  lemma FetchAbortsAreNotUnreachable(p: ProcNames, d: Daemon)
    ensures forall a :: TryFetch(p, d).raised == Some(Fatal(a)) ==> !IsUnreachable(a)
  {
  }

  /** The first record with an unknown state, when the per-process loop aborts. */
  lemma {:induction false} FirstUnknown(procs: seq<ProcInfo>, server: string, fmt: int -> string) returns (k: nat)
    requires ReportAll(server, procs, fmt).abort.Some?
    ensures k < |procs| && !Known(procs[k]) && forall j :: 0 <= j < k ==> Known(procs[j])
  {
    ReportAllSucceedsIff(server, procs, fmt);
    k := 0;
    while Known(procs[k])
      invariant k < |procs|
      invariant forall j :: 0 <= j < k ==> Known(procs[j])
      invariant exists j :: k <= j < |procs| && !Known(procs[j])
      decreases |procs| - k
    {
      k := k + 1;
    }
  }

  /** Retrieval for `proc_names = ["web", "ghost"]` when only `web` is known: one warning, one record. */
  lemma WebAndGhostRetrieval(i: Instance, d: Daemon, web: ProcInfo)
    requires i.procNames == Names(["web", "ghost"])
    requires d.getProcessInfo("web") == Info(web) && d.getProcessInfo("ghost") == Fault(BadNameFault, "BAD_NAME")
    ensures Retrieve(i, "main", d) == Retrieved([ProcessNotFound("ghost")], [web], None)
  {
    var names := ["web", "ghost"];
    assert names[1..] == ["ghost"];
    assert names[1..][1..] == [];
    FetchNamedAllAcceptable(names, d);
    assert Found(names, d) == [web];
    assert NotFoundWarnings(names, d) == [ProcessNotFound("ghost")];
    assert TryFetch(i.procNames, d) == FetchNamed(names, d);
  }

  /** Reporting the one RUNNING record `web`: an OK check, its uptime gauge, and a count of 1 for OK only. */
  lemma WebReport(web: ProcInfo, fmt: int -> string)
    requires web.statename == "RUNNING"
    ensures ReportAll("main", [web], fmt).abort.None?
    ensures ReportAll("main", [web], fmt).log == [ProcessCheck("main", web, Ok, fmt), UptimeGauge("main", web)]
    ensures forall l :: ReportAll("main", [web], fmt).counts[l] == if l == Ok then 1 else 0
  {
    var procs := [web];
    assert Known(web) && DdStatus[web.statename] == Ok;
    ReportAllKnown("main", procs, fmt);
    assert procs[1..] == [];
    forall l ensures LevelCount(procs, l) == if l == Ok then 1 else 0 {
      assert LevelCount(procs, l) == (if l == Ok then 1 else 0) + LevelCount([], l);
    }
  }

  lemma WebAndGhostCycle(i: Instance, d: Daemon, web: ProcInfo, fmt: int -> string, order: seq<Level>)
    requires IsLevelOrder(order)
    requires i.name == Some("main") && i.procNames == Names(["web", "ghost"])
    requires web.statename == "RUNNING"
    requires d.getProcessInfo("web") == Info(web) && d.getProcessInfo("ghost") == Fault(BadNameFault, "BAD_NAME")
    ensures Cycle(i, d, fmt, order) ==
              Outcome([ProcessNotFound("ghost"), ProcessCheck("main", web, Ok, fmt), UptimeGauge("main", web)]
                      + CountGauges("main", ReportAll("main", [web], fmt).counts, order), Completed)
    ensures forall l :: ReportAll("main", [web], fmt).counts[l] == if l == Ok then 1 else 0
  {
    WebAndGhostRetrieval(i, d, web);
    WebReport(web, fmt);
    var rep := ReportAll("main", [web], fmt);
    var cg := CountGauges("main", rep.counts, order);
    assert ReportPhase("main", [web], fmt, order) == Outcome(rep.log + cg, Completed);
    assert CycleFor(i, "main", d, fmt, order) == Outcome([ProcessNotFound("ghost")] + (rep.log + cg), Completed);
  }

  /** Count gauges after three emissions none of which is a count gauge: only OK counts 1. */
  lemma OnlyOkCounted(head: seq<Emission>, counts: Counts, order: seq<Level>)
    requires IsLevelOrder(order) && HasAllLevels(counts)
    requires forall l :: counts[l] == if l == Ok then 1 else 0
    requires forall e :: e in head ==> !KindOf(e).CountKind?
    ensures forall e :: e in head + CountGauges("main", counts, order) && KindOf(e).CountKind? ==>
              e.Gauge? && e.value == (if KindOf(e).status == Some(Ok) then 1 else 0)
  {
    CountGaugesKinds("main", counts, order);
  }

  /**
   * `proc_names = ["web", "ghost"]` where the daemon knows only `web`,
   * RUNNING since 1000 at time 1500: the cycle completes with one warning
   * for `ghost`, then an OK check and an uptime of 500 for `web`, then the
   * three count gauges.
   */
  lemma WebAndGhostScenario(i: Instance, d: Daemon, web: ProcInfo, fmt: int -> string, order: seq<Level>)
    requires IsLevelOrder(order)
    requires i.name == Some("main") && i.procNames == Names(["web", "ghost"])
    requires web.name == "web" && web.statename == "RUNNING" && web.start == 1000 && web.now == 1500
    requires d.getProcessInfo("web") == Info(web) && d.getProcessInfo("ghost") == Fault(BadNameFault, "BAD_NAME")
    ensures Cycle(i, d, fmt, order).result == Completed
    ensures var log := Cycle(i, d, fmt, order).log;
            && |log| == 6
            && log[0] == ProcessNotFound("ghost")
            && log[1] == ServiceCheck(ProcessCheckName, Ok, ProcessTags("main", "web"), BuildMessage(web, fmt))
            && log[2] == Gauge(UptimeMetric, 500, ProcessTags("main", "web"))
  {
    WebAndGhostCycle(i, d, web, fmt, order);
    CountGaugesKinds("main", ReportAll("main", [web], fmt).counts, order);
    assert ActiveStates[1] == "RUNNING";
  }

  /** In the same scenario, the OK count gauge carries 1 and the other two carry 0. */
  lemma WebAndGhostCountGauges(i: Instance, d: Daemon, web: ProcInfo, fmt: int -> string, order: seq<Level>)
    requires IsLevelOrder(order)
    requires i.name == Some("main") && i.procNames == Names(["web", "ghost"])
    requires web.statename == "RUNNING"
    requires d.getProcessInfo("web") == Info(web) && d.getProcessInfo("ghost") == Fault(BadNameFault, "BAD_NAME")
    ensures forall e :: e in Cycle(i, d, fmt, order).log && KindOf(e).CountKind? ==>
              e.Gauge? && e.value == (if KindOf(e).status == Some(Ok) then 1 else 0)
  {
    WebAndGhostCycle(i, d, web, fmt, order);
    var counts := ReportAll("main", [web], fmt).counts;
    var head := [ProcessNotFound("ghost"), ProcessCheck("main", web, Ok, fmt), UptimeGauge("main", web)];
    ProcessEmissionKind("main", web, Ok, fmt);
    assert forall e :: e in head ==> !KindOf(e).CountKind?;
    OnlyOkCounted(head, counts, order);
  }
}

/**
 * One check cycle of `SupervisordCheck.check`, as a pure function of the
 * instance, the daemon behind the endpoint, the time formatter and the
 * order in which the count-by-status dict is iterated. It is the reference
 * that the `check` method of module Agent is proved to follow, and the
 * lemmas here state what each phase of the cycle computes.
 *
 * The phases follow the source: retrieval (the `try` block and its `except`
 * clauses), the per-process loop, and the count gauges. Each loop is
 * specified by a function over a prefix of its input, so that "the state
 * after k iterations" is that function applied to the first k elements.
 */
module CheckCycle {
  import opened Wrappers
  import opened Supervisord

  // ---------------------------------------------------------------------
  // Retrieval: the `try` block of lines 54-71

  /** What the `try` block can raise. */
  datatype Raised = RpcFailure(error: RpcError) | Fatal(abort: Abort)

  /** The state of the `try` block: warnings logged, `processes`, and what was raised. */
  datatype Fetch = Fetch(warnings: seq<Emission>, procs: seq<ProcInfo>, raised: Option<Raised>)

  /** A reply that does not end the name-by-name loop: a record, or fault code 10. */
  predicate Acceptable(r: InfoReply) {
    r.Info? || (r.Fault? && r.faultCode == BadNameFault)
  }

  /** One iteration of the loop at lines 60-69. */
  function FetchStep(acc: Fetch, procName: string, d: Daemon): Fetch {
    match d.getProcessInfo(procName)
    case Info(p) => acc.(procs := acc.procs + [p])
    case Fault(code, _) =>
      if code == BadNameFault then acc.(warnings := acc.warnings + [ProcessNotFound(procName)])
      else acc.(raised := Some(Fatal(ProcessReadFault(procName, code))))
    case Failed(e) => acc.(raised := Some(RpcFailure(e)))
  }

  /** The loop at lines 60-69 over `names`; it stops at the first thing raised. */
  function FetchNamed(names: seq<string>, d: Daemon): (r: Fetch)
    ensures |r.procs| + |r.warnings| <= |names|
    ensures r.raised.None? ==> |r.procs| + |r.warnings| == |names|
    ensures r.raised.Some? && r.raised.value.Fatal? ==> r.raised.value.abort.ProcessReadFault?
    decreases |names|
  {
    if names == [] then Fetch([], [], None)
    else
      var prev := FetchNamed(names[..|names| - 1], d);
      if prev.raised.Some? then prev else FetchStep(prev, names[|names| - 1], d)
  }

  /** Line 71. A fault here is not caught by any `except` clause. */
  function FetchAll(d: Daemon): (r: Fetch)
    ensures r.warnings == []
    ensures r.raised.Some? ==> r.procs == []
    ensures r.raised.None? <==> d.getAllProcessInfo.AllInfo?
    ensures d.getAllProcessInfo.AllInfo? ==> r.procs == d.getAllProcessInfo.procs
    ensures d.getAllProcessInfo.AllFault? ==> r.raised == Some(Fatal(UnhandledFault(d.getAllProcessInfo.faultCode)))
    ensures d.getAllProcessInfo.AllFailed? ==> r.raised == Some(RpcFailure(d.getAllProcessInfo.error))
  {
    match d.getAllProcessInfo
    case AllInfo(ps) => Fetch([], ps, None)
    case AllFault(code, _) => Fetch([], [], Some(Fatal(UnhandledFault(code))))
    case AllFailed(e) => Fetch([], [], Some(RpcFailure(e)))
  }

  /** Lines 55-71. */
  function TryFetch(procNames: ProcNames, d: Daemon): (r: Fetch)
    ensures r.raised == Some(Fatal(InvalidProcNames)) <==> ProcNamesTruthy(procNames) && !procNames.Names?
    ensures r.warnings != [] ==> procNames.Names?
  {
    if !ProcNamesTruthy(procNames) then FetchAll(d)
    else if !procNames.Names? || |procNames.list| == 0 then Fetch([], [], Some(Fatal(InvalidProcNames)))
    else FetchNamed(procNames.list, d)
  }

  /** Retrieval after the `except` clauses: the log it adds, `processes`, and the abort if any. */
  datatype Retrieved = Retrieved(log: seq<Emission>, procs: seq<ProcInfo>, abort: Option<Abort>)

  /** Lines 54-96. */
  function Retrieve(i: Instance, server: string, d: Daemon): (r: Retrieved)
    ensures r.abort.None? <==> TryFetch(i.procNames, d).raised.None?
    ensures r.abort.None? ==> r.log == TryFetch(i.procNames, d).warnings && r.procs == TryFetch(i.procNames, d).procs
    ensures r.abort.Some? ==> r.procs == [] && r.abort != Some(MissingName)
    ensures i.serverCheck && TryFetch(i.procNames, d).raised == Some(RpcFailure(Transport)) ==>
              r.log == TryFetch(i.procNames, d).warnings + [ServerDown(server)]
    ensures !(i.serverCheck && TryFetch(i.procNames, d).raised == Some(RpcFailure(Transport))) ==>
              r.log == TryFetch(i.procNames, d).warnings
    ensures forall a :: TryFetch(i.procNames, d).raised == Some(Fatal(a)) ==> r.abort == Some(a)
  {
    var f := TryFetch(i.procNames, d);
    match f.raised
    case None => Retrieved(f.warnings, f.procs, None)
    case Some(Fatal(a)) => Retrieved(f.warnings, [], Some(a))
    case Some(RpcFailure(Transport)) =>
      Retrieved(f.warnings + (if i.serverCheck then [ServerDown(server)] else []), [], Some(UnreachableAbort(i)))
    case Some(RpcFailure(Protocol(code, _))) => Retrieved(f.warnings, [], Some(ProtocolAbortAsWritten(server, code)))
  }

  // ---------------------------------------------------------------------
  // Reference definitions for retrieval, read front to back

  /** The records among the replies to `names`, in order. */
  function Found(names: seq<string>, d: Daemon): (r: seq<ProcInfo>) {
    if names == [] then []
    else (if d.getProcessInfo(names[0]).Info? then [d.getProcessInfo(names[0]).proc] else []) + Found(names[1..], d)
  }

  /** One warning per name the daemon does not know (fault code 10), in order. */
  function NotFoundWarnings(names: seq<string>, d: Daemon): seq<Emission> {
    if names == [] then []
    else
      var r := d.getProcessInfo(names[0]);
      (if r.Fault? && r.faultCode == BadNameFault then [ProcessNotFound(names[0])] else []) + NotFoundWarnings(names[1..], d)
  }

  lemma {:induction false} FoundSnoc(names: seq<string>, n: string, d: Daemon)
    ensures Found(names + [n], d) == Found(names, d) + (if d.getProcessInfo(n).Info? then [d.getProcessInfo(n).proc] else [])
    ensures NotFoundWarnings(names + [n], d) ==
              NotFoundWarnings(names, d) +
              (if d.getProcessInfo(n).Fault? && d.getProcessInfo(n).faultCode == BadNameFault then [ProcessNotFound(n)] else [])
    decreases |names|
  {
    if names != [] {
      assert (names + [n])[1..] == names[1..] + [n];
      FoundSnoc(names[1..], n, d);
    }
  }

  /** Once something is raised, later names are never asked for. */
  lemma {:induction false} FetchNamedSticky(names: seq<string>, d: Daemon, j: nat)
    requires j <= |names| && FetchNamed(names[..j], d).raised.Some?
    ensures FetchNamed(names, d) == FetchNamed(names[..j], d)
    decreases |names|
  {
    if j < |names| {
      var init := names[..|names| - 1];
      assert init[..j] == names[..j];
      FetchNamedSticky(init, d, j);
    } else {
      assert names[..j] == names;
    }
  }

  /**
   * When every name gets a record or fault 10, the loop raises nothing,
   * `processes` holds the records in list order and one warning is logged
   * per unknown name.
   */
  lemma {:induction false} FetchNamedAllAcceptable(names: seq<string>, d: Daemon)
    requires forall k :: 0 <= k < |names| ==> Acceptable(d.getProcessInfo(names[k]))
    ensures FetchNamed(names, d) == Fetch(NotFoundWarnings(names, d), Found(names, d), None)
    decreases |names|
  {
    if names != [] {
      var init := names[..|names| - 1];
      var n := names[|names| - 1];
      assert init + [n] == names;
      assert forall k :: 0 <= k < |init| ==> init[k] == names[k];
      FetchNamedAllAcceptable(init, d);
      FoundSnoc(init, n, d);
      assert Acceptable(d.getProcessInfo(names[|names| - 1]));
    }
  }

  /** The loop raises nothing exactly when every name gets a record or fault 10. */
  lemma {:induction false} FetchNamedSucceedsIff(names: seq<string>, d: Daemon)
    ensures FetchNamed(names, d).raised.None? <==>
              forall k :: 0 <= k < |names| ==> Acceptable(d.getProcessInfo(names[k]))
    decreases |names|
  {
    if names != [] {
      var init := names[..|names| - 1];
      var n := names[|names| - 1];
      assert forall k :: 0 <= k < |init| ==> init[k] == names[k];
      FetchNamedSucceedsIff(init, d);
      if FetchNamed(names, d).raised.None? {
        assert FetchNamed(init, d).raised.None?;
        assert Acceptable(d.getProcessInfo(n));
        forall k | 0 <= k < |names| ensures Acceptable(d.getProcessInfo(names[k])) {
          if k < |init| { assert names[k] == init[k]; }
        }
      }
    }
  }

  /**
   * When name k is the first whose reply is neither a record nor fault 10,
   * the warnings of the names before it stand, and what is raised comes from
   * its reply: the read-fault error for another fault code, else the call failure.
   */
  lemma FetchNamedFirstFailure(names: seq<string>, d: Daemon, k: nat)
    requires k < |names|
    requires forall j :: 0 <= j < k ==> Acceptable(d.getProcessInfo(names[j]))
    requires !Acceptable(d.getProcessInfo(names[k]))
    ensures FetchNamed(names, d).warnings == NotFoundWarnings(names[..k], d)
    ensures d.getProcessInfo(names[k]).Fault? ==>
              FetchNamed(names, d).raised == Some(Fatal(ProcessReadFault(names[k], d.getProcessInfo(names[k]).faultCode)))
    ensures d.getProcessInfo(names[k]).Failed? ==>
              FetchNamed(names, d).raised == Some(RpcFailure(d.getProcessInfo(names[k]).error))
  {
    var pre := names[..k];
    assert forall j :: 0 <= j < |pre| ==> pre[j] == names[j];
    FetchNamedAllAcceptable(pre, d);
    assert names[..k + 1][..k] == pre;
    assert names[..k + 1][k] == names[k];
    assert FetchNamed(names[..k + 1], d).raised.Some?;
    FetchNamedSticky(names, d, k + 1);
  }

  /** Everything the `try` block logs is a warning. */
  lemma {:induction false} FetchNamedOnlyWarns(names: seq<string>, d: Daemon)
    ensures forall e :: e in FetchNamed(names, d).warnings ==> e.Warning?
    decreases |names|
  {
    if names != [] {
      FetchNamedOnlyWarns(names[..|names| - 1], d);
    }
  }

  lemma TryFetchOnlyWarns(p: ProcNames, d: Daemon)
    ensures forall e :: e in TryFetch(p, d).warnings ==> e.Warning?
  {
    if p.Names? && |p.list| > 0 { FetchNamedOnlyWarns(p.list, d); }
  }

  /** The name-by-name loop never asks `getAllProcessInfo`; the other path never asks `getProcessInfo`. */
  lemma {:induction false} FetchNamedIgnoresGetAll(names: seq<string>, d: Daemon, all: AllReply)
    ensures FetchNamed(names, d.(getAllProcessInfo := all)) == FetchNamed(names, d)
    decreases |names|
  {
    if names != [] {
      FetchNamedIgnoresGetAll(names[..|names| - 1], d, all);
    }
  }

  /**
   * Which call is made: a truthy list goes name by name, an absent or falsy
   * value goes to `getAllProcessInfo`, and a truthy non-list raises before any call.
   */
  lemma TryFetchChoosesCall(p: ProcNames, d: Daemon, all: AllReply, info: string -> InfoReply)
    ensures !ProcNamesTruthy(p) ==> TryFetch(p, d) == TryFetch(p, d.(getProcessInfo := info)) == FetchAll(d)
    ensures ProcNamesTruthy(p) && p.Names? ==>
              TryFetch(p, d) == TryFetch(p, d.(getAllProcessInfo := all)) == FetchNamed(p.list, d)
    ensures ProcNamesTruthy(p) && !p.Names? ==> TryFetch(p, d) == Fetch([], [], Some(Fatal(InvalidProcNames)))
  {
    if ProcNamesTruthy(p) && p.Names? { FetchNamedIgnoresGetAll(p.list, d, all); }
  }

  // ---------------------------------------------------------------------
  // Per-process reporting: the loop of lines 99-113

  type Counts = map<Level, nat>

  /** `count_by_status` as created at lines 47-51. */
  const InitialCounts: Counts := map[Ok := 0, Critical := 0, Unknown := 0]

  predicate HasAllLevels(c: Counts) {
    forall l: Level :: l in c
  }

  /** A record whose `statename` the table knows. */
  predicate Known(p: ProcInfo) {
    p.statename in DdStatus
  }

  /** The state of the per-process loop: the log it added, `count_by_status`, the abort if any. */
  datatype Report = Report(log: seq<Emission>, counts: Counts, abort: Option<Abort>)

  /** One iteration: look up the level (KeyError if unknown), count, service check, uptime gauge. */
  function ReportStep(server: string, acc: Report, p: ProcInfo, fmt: int -> string): (r: Report)
    requires HasAllLevels(acc.counts)
    ensures HasAllLevels(r.counts)
    ensures r.abort.None? <==> Known(p)
    ensures r.abort.Some? ==> r.log == acc.log && r.counts == acc.counts
    ensures r.abort.None? ==> |r.log| == |acc.log| + 2 && r.log[..|acc.log|] == acc.log
  {
    if p.statename !in DdStatus then acc.(abort := Some(UnknownState(p.statename)))
    else
      var status := DdStatus[p.statename];
      Report(acc.log + [ProcessCheck(server, p, status, fmt), UptimeGauge(server, p)],
             acc.counts[status := acc.counts[status] + 1],
             None)
  }

  /** The per-process loop over `procs`; it stops at the first unknown state. */
  function ReportAll(server: string, procs: seq<ProcInfo>, fmt: int -> string): (r: Report)
    ensures HasAllLevels(r.counts)
    ensures r.abort.None? ==> |r.log| == 2 * |procs|
    ensures r.abort.Some? ==> r.abort.value.UnknownState? && |r.log| < 2 * |procs|
    decreases |procs|
  {
    if procs == [] then
      assert HasAllLevels(InitialCounts) by {
        forall l: Level ensures l in InitialCounts { assert l == Ok || l == Critical || l == Unknown; }
      }
      Report([], InitialCounts, None)
    else
      var prev := ReportAll(server, procs[..|procs| - 1], fmt);
      if prev.abort.Some? then prev else ReportStep(server, prev, procs[|procs| - 1], fmt)
  }

  /** The number of records at level l, read front to back. */
  function LevelCount(procs: seq<ProcInfo>, l: Level): (n: nat) {
    if procs == [] then 0
    else (if Known(procs[0]) && DdStatus[procs[0].statename] == l then 1 else 0) + LevelCount(procs[1..], l)
  }

  /** The emissions for known records, read front to back: a service check then an uptime gauge each. */
  function ProcessEmissions(server: string, procs: seq<ProcInfo>, fmt: int -> string): (r: seq<Emission>)
    requires forall k :: 0 <= k < |procs| ==> Known(procs[k])
  {
    if procs == [] then []
    else
      assert Known(procs[0]);
      assert forall k :: 0 <= k < |procs[1..]| ==> procs[1..][k] == procs[k + 1];
      [ProcessCheck(server, procs[0], DdStatus[procs[0].statename], fmt), UptimeGauge(server, procs[0])]
         + ProcessEmissions(server, procs[1..], fmt)
  }

  lemma {:induction false} ReportSnoc(server: string, procs: seq<ProcInfo>, p: ProcInfo, fmt: int -> string)
    requires forall k :: 0 <= k < |procs| ==> Known(procs[k])
    requires Known(p)
    ensures ProcessEmissions(server, procs + [p], fmt) ==
              ProcessEmissions(server, procs, fmt) + [ProcessCheck(server, p, DdStatus[p.statename], fmt), UptimeGauge(server, p)]
    ensures forall l :: LevelCount(procs + [p], l) == LevelCount(procs, l) + (if DdStatus[p.statename] == l then 1 else 0)
    decreases |procs|
  {
    if procs != [] {
      assert (procs + [p])[1..] == procs[1..] + [p];
      ReportSnoc(server, procs[1..], p, fmt);
    }
  }

  /** Once a state is unknown, later records are never reported. */
  lemma {:induction false} ReportAllSticky(server: string, procs: seq<ProcInfo>, fmt: int -> string, j: nat)
    requires j <= |procs| && ReportAll(server, procs[..j], fmt).abort.Some?
    ensures ReportAll(server, procs, fmt) == ReportAll(server, procs[..j], fmt)
    decreases |procs|
  {
    if j < |procs| {
      var init := procs[..|procs| - 1];
      assert init[..j] == procs[..j];
      ReportAllSticky(server, init, fmt, j);
    } else {
      assert procs[..j] == procs;
    }
  }

  /**
   * With every state known the loop completes: its log is a service check
   * at the mapped level and an uptime gauge per record, in retrieval order,
   * and each level's count is the number of records at that level.
   */
  lemma {:induction false} ReportAllKnown(server: string, procs: seq<ProcInfo>, fmt: int -> string)
    requires forall k :: 0 <= k < |procs| ==> Known(procs[k])
    ensures ReportAll(server, procs, fmt).abort.None?
    ensures ReportAll(server, procs, fmt).log == ProcessEmissions(server, procs, fmt)
    ensures forall l :: ReportAll(server, procs, fmt).counts[l] == LevelCount(procs, l)
    decreases |procs|
  {
    if procs != [] {
      var init := procs[..|procs| - 1];
      var p := procs[|procs| - 1];
      assert init + [p] == procs;
      assert forall k :: 0 <= k < |init| ==> init[k] == procs[k];
      ReportAllKnown(server, init, fmt);
      ReportSnoc(server, init, p, fmt);
      assert Known(p);
      KnownStep(server, ReportAll(server, init, fmt), p, fmt);
    }
  }

  /** A known record appends its check and uptime gauge and adds one to its own level only. */
  lemma KnownStep(server: string, acc: Report, p: ProcInfo, fmt: int -> string)
    requires HasAllLevels(acc.counts) && Known(p)
    ensures ReportStep(server, acc, p, fmt).log == acc.log + [ProcessCheck(server, p, DdStatus[p.statename], fmt), UptimeGauge(server, p)]
    ensures forall l :: ReportStep(server, acc, p, fmt).counts[l] == acc.counts[l] + (if DdStatus[p.statename] == l then 1 else 0)
  {
  }

  /** The per-process loop completes exactly when every state is in the table. */
  lemma {:induction false} ReportAllSucceedsIff(server: string, procs: seq<ProcInfo>, fmt: int -> string)
    ensures ReportAll(server, procs, fmt).abort.None? <==> forall k :: 0 <= k < |procs| ==> Known(procs[k])
    decreases |procs|
  {
    if procs != [] {
      var init := procs[..|procs| - 1];
      assert forall k :: 0 <= k < |init| ==> init[k] == procs[k];
      ReportAllSucceedsIff(server, init, fmt);
      if ReportAll(server, procs, fmt).abort.None? {
        assert ReportAll(server, init, fmt).abort.None?;
        assert Known(procs[|procs| - 1]);
        forall k | 0 <= k < |procs| ensures Known(procs[k]) {
          if k < |init| { assert procs[k] == init[k]; }
        }
      }
    }
  }

  /**
   * When record k is the first with an unknown state, the loop aborts with
   * that state, after exactly the emissions and counts of the records before it.
   */
  lemma FirstUnknownStateAborts(server: string, procs: seq<ProcInfo>, fmt: int -> string, k: nat)
    requires k < |procs|
    requires forall j :: 0 <= j < k ==> Known(procs[j])
    requires !Known(procs[k])
    ensures ReportAll(server, procs, fmt).abort == Some(UnknownState(procs[k].statename))
    ensures ReportAll(server, procs, fmt).log == ProcessEmissions(server, procs[..k], fmt)
    ensures forall l :: ReportAll(server, procs, fmt).counts[l] == LevelCount(procs[..k], l)
  {
    var pre := procs[..k];
    assert forall j :: 0 <= j < |pre| ==> pre[j] == procs[j];
    ReportAllKnown(server, pre, fmt);
    var upto := procs[..k + 1];
    assert upto[..|upto| - 1] == pre;
    assert upto[|upto| - 1] == procs[k];
    var prev := ReportAll(server, pre, fmt);
    assert ReportAll(server, upto, fmt) == ReportStep(server, prev, procs[k], fmt);
    assert ReportAll(server, upto, fmt) == prev.(abort := Some(UnknownState(procs[k].statename)));
    ReportAllSticky(server, procs, fmt, k + 1);
  }

  /** Each known record's level is counted once: the three counts sum to the number of records. */
  lemma {:induction false} LevelCountsSum(procs: seq<ProcInfo>)
    requires forall k :: 0 <= k < |procs| ==> Known(procs[k])
    ensures LevelCount(procs, Ok) + LevelCount(procs, Critical) + LevelCount(procs, Unknown) == |procs|
    decreases |procs|
  {
    if procs != [] {
      assert forall k :: 0 <= k < |procs[1..]| ==> procs[1..][k] == procs[k + 1];
      LevelCountsSum(procs[1..]);
      assert Known(procs[0]);
    }
  }

  /** Emission 2k is the service check of record k and emission 2k+1 its uptime gauge. */
  lemma {:induction false} ProcessEmissionsAt(server: string, procs: seq<ProcInfo>, fmt: int -> string, k: nat)
    requires forall j :: 0 <= j < |procs| ==> Known(procs[j])
    requires k < |procs|
    ensures |ProcessEmissions(server, procs, fmt)| == 2 * |procs|
    ensures ProcessEmissions(server, procs, fmt)[2 * k] == ProcessCheck(server, procs[k], DdStatus[procs[k].statename], fmt)
    ensures ProcessEmissions(server, procs, fmt)[2 * k + 1] == UptimeGauge(server, procs[k])
    decreases |procs|
  {
    var rest := procs[1..];
    assert forall j :: 0 <= j < |rest| ==> rest[j] == procs[j + 1];
    if k > 0 {
      ProcessEmissionsAt(server, rest, fmt, k - 1);
    } else if |rest| > 0 {
      ProcessEmissionsAt(server, rest, fmt, 0);
    } else {
      assert ProcessEmissions(server, rest, fmt) == [];
    }
  }

  // ---------------------------------------------------------------------
  // Count gauges: the loop of lines 117-119

  /** A Python dict iteration order of PROCESS_STATUS's keys: the three levels, each once. */
  predicate IsLevelOrder(order: seq<Level>) {
    |order| == 3 && order[0] != order[1] && order[0] != order[2] && order[1] != order[2]
  }

  /** The count gauges for the levels of `order`, in that order. */
  function CountGauges(server: string, counts: Counts, order: seq<Level>): (r: seq<Emission>)
    requires HasAllLevels(counts)
    ensures |r| == |order|
    ensures forall e :: e in r ==> e.Gauge? && e.metric == CountMetric
    decreases |order|
  {
    if order == [] then []
    else CountGauges(server, counts, order[..|order| - 1]) + [CountGauge(server, order[|order| - 1], counts[order[|order| - 1]])]
  }

  /** Gauge k is the count of the k-th level; every level is in an iteration order. */
  lemma {:induction false} CountGaugesAt(server: string, counts: Counts, order: seq<Level>, k: nat)
    requires HasAllLevels(counts)
    requires k < |order|
    ensures |CountGauges(server, counts, order)| == |order|
    ensures CountGauges(server, counts, order)[k] == CountGauge(server, order[k], counts[order[k]])
    decreases |order|
  {
    var init := order[..|order| - 1];
    if k < |init| {
      CountGaugesAt(server, counts, init, k);
    } else if |init| > 0 {
      CountGaugesAt(server, counts, init, 0);
    }
  }

  lemma LevelOrderCovers(order: seq<Level>, l: Level)
    requires IsLevelOrder(order)
    ensures l == order[0] || l == order[1] || l == order[2]
  {
  }

  // ---------------------------------------------------------------------
  // The whole cycle

  datatype CheckResult = Completed | Aborted(reason: Abort)

  /** The ordered emissions of one cycle and how it ended. */
  datatype Outcome = Outcome(log: seq<Emission>, result: CheckResult)

  /** Lines 99-119: the per-process loop, then the count gauges unless the loop aborted. */
  function ReportPhase(server: string, procs: seq<ProcInfo>, fmt: int -> string, order: seq<Level>): (o: Outcome)
    ensures o.result == Completed <==> ReportAll(server, procs, fmt).abort.None?
    ensures o.result != Aborted(MissingName)
  {
    var rep := ReportAll(server, procs, fmt);
    if rep.abort.Some? then Outcome(rep.log, Aborted(rep.abort.value))
    else Outcome(rep.log + CountGauges(server, rep.counts, order), Completed)
  }

  /** Lines 49-119: retrieval, then reporting unless retrieval aborted. */
  function CycleFor(i: Instance, server: string, d: Daemon, fmt: int -> string, order: seq<Level>): (o: Outcome)
    ensures o.result == Completed <==>
              Retrieve(i, server, d).abort.None? && ReportAll(server, Retrieve(i, server, d).procs, fmt).abort.None?
    ensures o.result != Aborted(MissingName)
  {
    var r := Retrieve(i, server, d);
    if r.abort.Some? then Outcome(r.log, Aborted(r.abort.value))
    else
      var p := ReportPhase(server, r.procs, fmt, order);
      Outcome(r.log + p.log, p.result)
  }

  /** `SupervisordCheck.check` (lines 39-119) against the daemon `d` behind `_connect`'s endpoint. */
  function Cycle(i: Instance, d: Daemon, fmt: int -> string, order: seq<Level>): (o: Outcome)
    ensures o.result == Aborted(MissingName) <==> !HasName(i)
    ensures !HasName(i) ==> o.log == []
  {
    if !HasName(i) then Outcome([], Aborted(MissingName))
    else CycleFor(i, i.name.value, d, fmt, order)
  }
}

/**
 * The check object. `service_check`, `gauge` and `warning` of AgentCheck
 * are appends to the emission log; `Check` runs one cycle step by step, as
 * `SupervisordCheck.check` does, and is proved to produce exactly the log
 * and the outcome of the reference function `CheckCycle.Cycle`.
 */
module Agent {
  import opened Wrappers
  import opened Supervisord
  import opened CheckCycle

  class SupervisordCheck {
    /** Everything handed to `service_check`, `gauge` and `warning`, oldest first. */
    var log: seq<Emission>

    constructor ()
      ensures log == []
    {
      log := [];
    }

    /** AgentCheck.service_check */
    method EmitServiceCheck(check: string, status: Level, tags: seq<string>, message: Message)
      modifies this
      ensures log == old(log) + [ServiceCheck(check, status, tags, message)]
    {
      log := log + [ServiceCheck(check, status, tags, message)];
    }

    /** AgentCheck.gauge */
    method EmitGauge(metric: string, value: int, tags: seq<string>)
      modifies this
      ensures log == old(log) + [Gauge(metric, value, tags)]
    {
      log := log + [Gauge(metric, value, tags)];
    }

    /** AgentCheck.warning */
    method EmitWarning(text: string)
      modifies this
      ensures log == old(log) + [Warning(text)]
    {
      log := log + [Warning(text)];
    }

    /** The `try` block of lines 54-71: the process list, or what it raised. */
    method GrabProcesses(procNames: ProcNames, supervisor: Daemon) returns (processes: seq<ProcInfo>, raised: Option<Raised>)
      modifies this
      ensures log == old(log) + TryFetch(procNames, supervisor).warnings
      ensures raised == TryFetch(procNames, supervisor).raised
      ensures raised.None? ==> processes == TryFetch(procNames, supervisor).procs
    {
      if ProcNamesTruthy(procNames) {
        if !procNames.Names? || |procNames.list| == 0 {
          return [], Some(Fatal(InvalidProcNames));
        }
        var names := procNames.list;
        processes, raised := [], None;
        ghost var start := log;
        var k := 0;
        while k < |names|
          invariant 0 <= k <= |names|
          invariant raised.None? && FetchNamed(names[..k], supervisor) == Fetch(FetchNamed(names[..k], supervisor).warnings, processes, None)
          invariant log == start + FetchNamed(names[..k], supervisor).warnings
        {
          var procName := names[k];
          assert names[..k + 1][..k] == names[..k];
          assert FetchNamed(names[..k + 1], supervisor) == FetchStep(FetchNamed(names[..k], supervisor), procName, supervisor);
          match supervisor.getProcessInfo(procName) {
            case Info(p) =>
              processes := processes + [p];
            case Fault(code, _) =>
              if code == BadNameFault {
                EmitWarning("Process not found: " + procName);
              } else {
                raised := Some(Fatal(ProcessReadFault(procName, code)));
                FetchNamedSticky(names, supervisor, k + 1);
                return;
              }
            case Failed(e) =>
              raised := Some(RpcFailure(e));
              FetchNamedSticky(names, supervisor, k + 1);
              return;
          }
          k := k + 1;
        }
        assert names[..k] == names;
      } else {
        match supervisor.getAllProcessInfo
        case AllInfo(ps) =>
          processes, raised := ps, None;
        case AllFault(code, _) =>
          processes, raised := [], Some(Fatal(UnhandledFault(code)));
        case AllFailed(e) =>
          processes, raised := [], Some(RpcFailure(e));
      }
    }

    /** The loop of lines 99-113, from the fresh `count_by_status`: it stops at the first unknown state. */
    method ReportProcesses(server: string, processes: seq<ProcInfo>, fmt: int -> string)
      returns (countByStatus: Counts, abort: Option<Abort>)
      modifies this
      ensures log == old(log) + ReportAll(server, processes, fmt).log
      ensures countByStatus == ReportAll(server, processes, fmt).counts
      ensures abort == ReportAll(server, processes, fmt).abort
    {
      countByStatus, abort := map[Ok := 0, Critical := 0, Unknown := 0], None;
      assert countByStatus == InitialCounts;
      ghost var start := log;
      var k := 0;
      while k < |processes|
        invariant 0 <= k <= |processes|
        invariant abort.None? && ReportAll(server, processes[..k], fmt).abort.None?
        invariant countByStatus == ReportAll(server, processes[..k], fmt).counts
        invariant log == start + ReportAll(server, processes[..k], fmt).log
      {
        var proc := processes[k];
        assert processes[..k + 1][..k] == processes[..k];
        ghost var prev := ReportAll(server, processes[..k], fmt);
        assert ReportAll(server, processes[..k + 1], fmt) == ReportStep(server, prev, proc, fmt);
        countByStatus, abort := ReportProcess(server, proc, fmt, countByStatus);
        if abort.Some? {
          ReportAllSticky(server, processes, fmt, k + 1);
          return;
        }
        k := k + 1;
      }
      assert processes[..k] == processes;
    }

    /** One iteration of lines 100-113: the level (a KeyError if the state is unknown), the count, the check, the uptime. */
    method ReportProcess(server: string, proc: ProcInfo, fmt: int -> string, counts: Counts)
      returns (countByStatus: Counts, abort: Option<Abort>)
      requires HasAllLevels(counts)
      modifies this
      ensures proc.statename !in DdStatus ==>
                abort == Some(UnknownState(proc.statename)) && countByStatus == counts && log == old(log)
      ensures proc.statename in DdStatus ==>
                && abort.None?
                && countByStatus == counts[DdStatus[proc.statename] := counts[DdStatus[proc.statename]] + 1]
                && log == old(log) + [ProcessCheck(server, proc, DdStatus[proc.statename], fmt), UptimeGauge(server, proc)]
    {
      var tags := ProcessTags(server, proc.name);
      if proc.statename !in DdStatus {
        return counts, Some(UnknownState(proc.statename));
      }
      var status := DdStatus[proc.statename];
      var msg := BuildMessage(proc, fmt);
      countByStatus, abort := counts[status := counts[status] + 1], None;
      EmitServiceCheck(ProcessCheckName, status, tags, msg);
      var uptime := ExtractUptime(proc);
      EmitGauge(UptimeMetric, uptime, tags);
    }

    /** The loop of lines 116-119: one count gauge per level, in dict iteration order. */
    method ReportCounts(server: string, countByStatus: Counts, order: seq<Level>)
      requires HasAllLevels(countByStatus)
      modifies this
      ensures log == old(log) + CountGauges(server, countByStatus, order)
    {
      ghost var start := log;
      var tags := ServerTags(server);
      var j := 0;
      while j < |order|
        invariant 0 <= j <= |order|
        invariant log == start + CountGauges(server, countByStatus, order[..j])
      {
        var status := order[j];
        assert order[..j + 1][..j] == order[..j];
        EmitGauge(CountMetric, countByStatus[status], tags + ["status:" + StatusLabel(status)]);
        j := j + 1;
      }
      assert order[..j] == order;
    }

    /**
     * Lines 53-97: the `try` block and its `except` clauses. A transport error
     * reports the server down (when `server_check` is on) before the check
     * gives up; every other failure ends the check at once.
     */
    method FetchProcesses(instance: Instance, server: string, supervisor: Daemon)
      returns (processes: seq<ProcInfo>, abort: Option<Abort>)
      modifies this
      ensures log == old(log) + Retrieve(instance, server, supervisor).log
      ensures abort == Retrieve(instance, server, supervisor).abort
      ensures abort.None? ==> processes == Retrieve(instance, server, supervisor).procs
    {
      var raised;
      processes, raised := GrabProcesses(instance.procNames, supervisor);
      if raised.None? {
        return processes, None;
      }
      match raised.value {
        case Fatal(a) =>
          abort := Some(a);
        case RpcFailure(Transport) =>
          if instance.serverCheck {
            EmitServiceCheck(ServerCheckName, Critical, ServerTags(server), Text("Supervisord server " + server + " is down."));
          }
          abort := Some(UnreachableAbort(instance));
        case RpcFailure(Protocol(code, _)) =>
          abort := Some(ProtocolAbortAsWritten(server, code));
      }
    }

    /**
     * `SupervisordCheck.check` (lines 39-119). `network` gives the daemon
     * behind each endpoint `_connect` can choose; `fmt` is FORMAT_TIME; `order`
     * is the iteration order of the PROCESS_STATUS dict.
     */
    method Check(instance: Instance, network: Endpoint -> Daemon, fmt: int -> string, order: seq<Level>)
      returns (result: CheckResult)
      requires IsLevelOrder(order)
      modifies this
      ensures log == old(log) + Cycle(instance, network(Connect(instance)), fmt, order).log
      ensures result == Cycle(instance, network(Connect(instance)), fmt, order).result
    {
      var serverName := instance.name;
      if serverName.None? || |serverName.value| == 0 {
        return Aborted(MissingName);
      }
      var supervisor := network(Connect(instance));
      result := CheckServer(instance, serverName.value, supervisor, fmt, order);
    }

    /** Lines 49-119: one cycle against the daemon `supervisor` of the named server. */
    method CheckServer(instance: Instance, server: string, supervisor: Daemon, fmt: int -> string, order: seq<Level>)
      returns (result: CheckResult)
      requires IsLevelOrder(order)
      modifies this
      ensures log == old(log) + CycleFor(instance, server, supervisor, fmt, order).log
      ensures result == CycleFor(instance, server, supervisor, fmt, order).result
    {
      ghost var start := log;
      ghost var r := Retrieve(instance, server, supervisor);

      // Grab process information
      var processes, abort := FetchProcesses(instance, server, supervisor);
      if abort.Some? {
        return Aborted(abort.value);
      }

      result := ReportEverything(server, processes, fmt, order);
      assert log == start + (r.log + ReportPhase(server, r.procs, fmt, order).log);
    }

    /** Lines 99-119: the per-process loop from a fresh `count_by_status`, then the count gauges unless it aborted. */
    method ReportEverything(server: string, processes: seq<ProcInfo>, fmt: int -> string, order: seq<Level>)
      returns (result: CheckResult)
      requires IsLevelOrder(order)
      modifies this
      ensures log == old(log) + ReportPhase(server, processes, fmt, order).log
      ensures result == ReportPhase(server, processes, fmt, order).result
    {
      ghost var start := log;

      // Report service checks and uptime for each process
      var countByStatus, abort := ReportProcesses(server, processes, fmt);
      if abort.Some? {
        return Aborted(abort.value);
      }

      // Report counts by status
      ReportCounts(server, countByStatus, order);
      assert log == start + (ReportAll(server, processes, fmt).log + CountGauges(server, countByStatus, order));
      return Completed;
    }
  }
}

/** The records a realtime fuzz run builds and saves (`tested_commands`, the
    `fuzzing_logs` entries, the `fuzzing_info` summary), and the result-code rule
    that both the run and the log analysis use to pick out failures. */
module FuzzLog {
  import opened Wrappers
  import opened Counting
  import opened Sequences

  /** A telemetry packet as the test framework returns it: field name to value. */
  type Telemetry = map<string, int>

  /** A command-database row as `CommandDBParser.get_command_info` returns it. */
  datatype CmdInfo = CmdInfo(
    code: int,
    numParams: int,
    paramTypes: seq<string>,
    paramDescriptions: seq<string>,
    description: string,
    dangerFlag: bool)

  /** One generated command parameter (integer, floating-point or raw bytes). */
  datatype ParamValue = IntParam(i: int) | FloatParam(f: real) | RawParam(bytes: seq<bv8>)

  /** What `get_command_dispatcher_log` reads from the command dispatcher telemetry. */
  datatype CdisLog = CdisLog(
    prevCmdCode: int, prevExecSts: int, prevErrCode: int, prevTime: int,
    prevErrCmdCode: int, prevErrExecSts: int, errorCounter: int, lockout: int)

  datatype LatestEvent = LatestEvent(group: int, local: int, errLevel: int, totalCycle: int, note: int)

  datatype ElStatistics = ElStatistics(recordCounterTotal: int, recordCountersHigh: int, recordCountersLow: int)

  /** What `get_event_logger_log` reads from the event logger telemetry. */
  datatype EventLog = EventLog(latestEvent: LatestEvent, statistics: ElStatistics, tlog: Option<Telemetry>)

  /** The `logs` dictionary of one attempt: either `{}` or `{'cdis': ..., 'el': ...}`,
      where each reading is `None` (saved as JSON null) when its telemetry failed. */
  datatype CmdLogs = NoLogs | Collected(cdis: Option<CdisLog>, el: Option<EventLog>)

  /** One `tested_commands` tuple `(cmd_name, cmd_code, params, result)`. */
  datatype TestedCommand = TestedCommand(name: string, code: int, params: seq<ParamValue>, result: string)

  /** One `fuzzing_logs` entry; `cmdCode` is the hexadecimal label of the code. */
  datatype LogEntry = LogEntry(cmdName: string, cmdCode: string, params: seq<ParamValue>, result: string, logs: CmdLogs)

  /** The `fuzzing_info` record of a saved log. */
  datatype FuzzingInfo = FuzzingInfo(strategy: string, totalCommands: nat, timestamp: string, results: CountTable<string>)

  /** A saved log: `{'fuzzing_info': ..., 'commands': ...}`. */
  datatype LogData = LogData(info: FuzzingInfo, commands: seq<LogEntry>)

  const SUC := "SUC"
  const PRM := "PRM"
  const CNT := "CNT"
  const ROE := "ROE"
  const ERR := "ERR"
  const SKIP := "SKIP"

  /** The result buckets a run starts with, all at zero, in this order. */
  function InitialResults(): (t: CountTable<string>)
    ensures Keys(t) == [SUC, PRM, CNT, ROE, ERR, SKIP]
    ensures DistinctKeys(t) && Sum(t) == 0
    ensures forall k :: Get(t, k) == 0
  {
    var t := [(SUC, 0), (PRM, 0), (CNT, 0), (ROE, 0), (ERR, 0), (SKIP, 0)];
    assert Keys(t) == [SUC, PRM, CNT, ROE, ERR, SKIP];
    assert SUC[1] == 'U' && PRM[0] == 'P' && CNT[0] == 'C' && ROE[0] == 'R' && ERR[0] == 'E' && SKIP[1] == 'K';
    ZeroTable(t);
    t
  }

  /** `result not in ["SUC", "PRM"]`: everything but success and a parameter error is a failure. */
  predicate IsFailedResult(result: string) {
    result != SUC && result != PRM
  }

  /** `failed_commands`: the tested commands whose result is a failure, in the order tested. */
  function FailedCommands(tested: seq<TestedCommand>): (r: seq<TestedCommand>)
    ensures forall c :: c in r <==> c in tested && IsFailedResult(c.result)
    ensures IsSubsequence(r, tested)
    ensures forall c :: multiset(r)[c] == if IsFailedResult(c.result) then multiset(tested)[c] else 0
  {
    Filter(tested, (c: TestedCommand) => IsFailedResult(c.result))
  }

  /** `error_commands`: the log entries whose result is a failure, in log order. */
  function ErrorCommands(entries: seq<LogEntry>): (r: seq<LogEntry>)
    ensures forall e :: e in r <==> e in entries && IsFailedResult(e.result)
    ensures IsSubsequence(r, entries)
    ensures forall e :: multiset(r)[e] == if IsFailedResult(e.result) then multiset(entries)[e] else 0
  {
    Filter(entries, (e: LogEntry) => IsFailedResult(e.result))
  }

  /** The result column of the tested commands. */
  function ResultsOf(tested: seq<TestedCommand>): (rs: seq<string>)
    ensures |rs| == |tested|
  {
    if tested == [] then [] else ResultsOf(tested[..|tested| - 1]) + [tested[|tested| - 1].result]
  }

  /** Testing one more command counts its result into the buckets. */
  lemma TallyStep(t: CountTable<string>, tested: seq<TestedCommand>, c: TestedCommand)
    ensures TallyOf(t, ResultsOf(tested + [c])) == Increment(TallyOf(t, ResultsOf(tested)), c.result)
  {
    assert (tested + [c])[..|tested|] == tested;
    TallyOfSnoc(t, ResultsOf(tested), c.result);
  }

  /** The result column of the log entries. */
  function EntryResults(entries: seq<LogEntry>): (rs: seq<string>)
    ensures |rs| == |entries|
  {
    if entries == [] then [] else EntryResults(entries[..|entries| - 1]) + [entries[|entries| - 1].result]
  }

  /** The failed list is exactly what the `SUC` and `PRM` buckets do not count. */
  lemma {:induction false} FailedCount(tested: seq<TestedCommand>)
    ensures |FailedCommands(tested)| + Count(ResultsOf(tested), SUC) + Count(ResultsOf(tested), PRM) == |tested|
  {
    if tested != [] {
      var init := tested[..|tested| - 1];
      FailedCount(init);
      assert ResultsOf(tested)[..|tested| - 1] == ResultsOf(init);
    }
  }

  /** The tested commands and the log entries line up one for one. */
  predicate Matches(tested: seq<TestedCommand>, entries: seq<LogEntry>) {
    && |tested| == |entries|
    && forall k :: 0 <= k < |tested| ==>
         && entries[k].cmdName == tested[k].name
         && entries[k].params == tested[k].params
         && entries[k].result == tested[k].result
  }

  /** Two lines that line up still do after one more matching pair. */
  lemma MatchesSnoc(tested: seq<TestedCommand>, entries: seq<LogEntry>, c: TestedCommand, e: LogEntry)
    requires Matches(tested, entries)
    requires e.cmdName == c.name && e.params == c.params && e.result == c.result
    ensures Matches(tested + [c], entries + [e])
  {
  }

  /** The run's failed list and the analysis's error list apply the same rule:
      over a log that lines up with the tested commands they pick the same attempts. */
  lemma {:induction false} FailedMatchesErrorCommands(tested: seq<TestedCommand>, entries: seq<LogEntry>)
    requires Matches(tested, entries)
    ensures Matches(FailedCommands(tested), ErrorCommands(entries))
  {
    if tested != [] {
      var n := |tested| - 1;
      assert Matches(tested[..n], entries[..n]);
      FailedMatchesErrorCommands(tested[..n], entries[..n]);
      var failed, errors := FailedCommands(tested[..n]), ErrorCommands(entries[..n]);
      if IsFailedResult(tested[n].result) {
        assert FailedCommands(tested) == failed + [tested[n]];
        assert ErrorCommands(entries) == errors + [entries[n]];
        MatchesSnoc(failed, errors, tested[n], entries[n]);
      } else {
        assert FailedCommands(tested) == failed;
        assert ErrorCommands(entries) == errors;
      }
    }
  }

  /** Recounting the results of a log that lines up with the tested commands gives
      back the counts the run stored. */
  lemma {:induction false} RecountFromLog(tested: seq<TestedCommand>, entries: seq<LogEntry>, t: CountTable<string>)
    requires Matches(tested, entries)
    ensures TallyOf(t, EntryResults(entries)) == TallyOf(t, ResultsOf(tested))
  {
    if tested != [] {
      var n := |tested| - 1;
      RecountFromLog(tested[..n], entries[..n], t);
      assert EntryResults(entries)[..n] == EntryResults(entries[..n]);
      assert ResultsOf(tested)[..n] == ResultsOf(tested[..n]);
    }
  }
}

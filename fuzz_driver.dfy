/** `test_fuzz_all_commands_rt`: send every enum command once as a realtime
    command and keep count. The command database, the parameter generator and
    the link are inputs. */
module FuzzDriver {
  import opened Wrappers
  import opened Counting
  import opened HexLabel
  import opened FuzzLog
  import opened Senders

  /** The end index of Python's `s[:stop]` on a list of length `n`. */
  function SliceStop(n: nat, stop: int): (m: nat)
    ensures m <= n
    ensures 0 <= stop ==> m == if stop < n then stop else n
    ensures stop < 0 ==> m == if n + stop > 0 then n + stop else 0
  {
    if stop < 0 then (if n + stop > 0 then n + stop else 0)
    else if stop < n then stop
    else n
  }

  /** `commands_to_test`: the enum's `(name, code)` list, cut to `max_commands`
      when that is truthy (neither `None` nor 0). */
  function CommandsToTest(enumCodes: seq<(string, int)>, maxCommands: Option<int>): (r: seq<(string, int)>)
    ensures r <= enumCodes
    ensures maxCommands == None || maxCommands == Some(0) ==> r == enumCodes
    ensures maxCommands.Some? && 0 < maxCommands.value ==>
              |r| == if maxCommands.value < |enumCodes| then maxCommands.value else |enumCodes|
    ensures maxCommands.Some? && maxCommands.value < 0 ==>
              |r| == if |enumCodes| + maxCommands.value > 0 then |enumCodes| + maxCommands.value else 0
  {
    match maxCommands
    case None => enumCodes
    case Some(k) => if k == 0 then enumCodes else enumCodes[..SliceStop(|enumCodes|, k)]
  }

  /** The database row for a command, or the zero-parameter default on a miss. */
  function LookupCommandInfo(catalog: map<string, CmdInfo>, name: string, code: int): (info: CmdInfo)
    ensures name in catalog ==> info == catalog[name]
    ensures name !in catalog ==>
              && info.code == code && info.numParams == 0
              && info.paramTypes == [] && info.paramDescriptions == []
              && info.description == "" && !info.dangerFlag
  {
    if name in catalog then catalog[name] else CmdInfo(code, 0, [], [], "", false)
  }

  /** The run's collaborators. `generate(k, info)` is the parameter tuple drawn
      for the `k`-th attempt; `link(k, name, code, params)` is what sending it did,
      `None` standing for an exception that escaped `send_command_rt` itself. */
  datatype FuzzEnv = FuzzEnv(
    catalog: map<string, CmdInfo>,
    generate: (nat, CmdInfo) -> seq<ParamValue>,
    link: (nat, string, int, seq<ParamValue>) -> Option<LinkOutcome>)

  /** What one attempt appends to `tested_commands` and to `fuzzing_logs`. */
  datatype Attempt = Attempt(tested: TestedCommand, entry: LogEntry)

  /** The `k`-th attempt, on command `cmd`: the command, the parameters drawn for
      it from its database row, and the sender's result; an exception anywhere in
      sending is `ERR` with no logs. */
  function RunAttempt(env: FuzzEnv, collectLogs: bool, k: nat, cmd: (string, int)): (a: Attempt)
    ensures a.tested.name == cmd.0 && a.tested.code == cmd.1
    ensures a.tested.params == env.generate(k, LookupCommandInfo(env.catalog, cmd.0, cmd.1))
    ensures a.entry.cmdName == cmd.0 && a.entry.cmdCode == CodeLabel(cmd.1)
    ensures a.entry.params == a.tested.params && a.entry.result == a.tested.result
    ensures var sent := env.link(k, cmd.0, cmd.1, a.tested.params);
            sent == None || sent == Some(Raised) ==> a.tested.result == ERR && a.entry.logs == NoLogs
    ensures var sent := env.link(k, cmd.0, cmd.1, a.tested.params);
            sent.Some? && sent.value.Acked? ==> a.tested.result == sent.value.ack
    ensures var sent := env.link(k, cmd.0, cmd.1, a.tested.params);
            sent.Some? && sent.value.Acked? ==> a.entry.logs == SendCommandRt(sent.value, collectLogs).1
  {
    var (name, code) := cmd;
    var params := env.generate(k, LookupCommandInfo(env.catalog, name, code));
    var (result, logs) :=
      match env.link(k, name, code, params)
      case None => (ERR, NoLogs)
      case Some(outcome) => SendCommandRt(outcome, collectLogs);
    Attempt(TestedCommand(name, code, params, result), LogEntry(name, CodeLabel(code), params, result, logs))
  }

  /** The attempts of a run over `commands`, in order. */
  function Run(env: FuzzEnv, collectLogs: bool, commands: seq<(string, int)>): (attempts: seq<Attempt>)
    ensures |attempts| == |commands|
  {
    if commands == [] then []
    else
      var n := |commands| - 1;
      Run(env, collectLogs, commands[..n]) + [RunAttempt(env, collectLogs, n, commands[n])]
  }

  function TestedOf(attempts: seq<Attempt>): (tested: seq<TestedCommand>)
    ensures |tested| == |attempts|
  {
    if attempts == [] then [] else TestedOf(attempts[..|attempts| - 1]) + [attempts[|attempts| - 1].tested]
  }

  function EntriesOf(attempts: seq<Attempt>): (entries: seq<LogEntry>)
    ensures |entries| == |attempts|
  {
    if attempts == [] then [] else EntriesOf(attempts[..|attempts| - 1]) + [attempts[|attempts| - 1].entry]
  }

  /** The `k`-th log entry of a run is the entry of its `k`-th attempt. */
  lemma {:induction false} EntriesOfAt(attempts: seq<Attempt>, k: nat)
    requires k < |attempts|
    ensures EntriesOf(attempts)[k] == attempts[k].entry
  {
    var n := |attempts| - 1;
    if k < n {
      EntriesOfAt(attempts[..n], k);
    }
  }

  /** One more command adds its attempt at the end of the run. */
  lemma RunStep(env: FuzzEnv, collectLogs: bool, commands: seq<(string, int)>, i: nat)
    requires i < |commands|
    ensures Run(env, collectLogs, commands[..i + 1])
            == Run(env, collectLogs, commands[..i]) + [RunAttempt(env, collectLogs, i, commands[i])]
  {
    assert commands[..i + 1][..i] == commands[..i];
  }

  /** Both projections of one more attempt end in its parts. */
  lemma ProjectionsSnoc(attempts: seq<Attempt>, a: Attempt)
    ensures TestedOf(attempts + [a]) == TestedOf(attempts) + [a.tested]
    ensures EntriesOf(attempts + [a]) == EntriesOf(attempts) + [a.entry]
  {
    assert (attempts + [a])[..|attempts|] == attempts;
  }

  /** The `k`-th attempt of a run is the attempt on the `k`-th command, given index `k`. */
  lemma {:induction false} RunInOrder(env: FuzzEnv, collectLogs: bool, commands: seq<(string, int)>, k: nat)
    requires k < |commands|
    ensures Run(env, collectLogs, commands)[k] == RunAttempt(env, collectLogs, k, commands[k])
    decreases |commands|
  {
    var n := |commands| - 1;
    assert commands[..n + 1] == commands;
    RunStep(env, collectLogs, commands, n);
    var before := Run(env, collectLogs, commands[..n]);
    var last := RunAttempt(env, collectLogs, n, commands[n]);
    assert Run(env, collectLogs, commands) == before + [last];
    if k < n {
      RunInOrder(env, collectLogs, commands[..n], k);
      assert commands[..n][k] == commands[k];
      assert (before + [last])[k] == before[k];
      assert Run(env, collectLogs, commands)[k] == RunAttempt(env, collectLogs, k, commands[k]);
    } else {
      assert k == n;
      assert (before + [last])[k] == last;
    }
  }

  /** Each tested command and the log entry of the same attempt agree on name,
      parameters and result, and so do the two lists of a run. */
  lemma {:induction false} RunLinesUp(env: FuzzEnv, collectLogs: bool, commands: seq<(string, int)>)
    ensures Matches(TestedOf(Run(env, collectLogs, commands)), EntriesOf(Run(env, collectLogs, commands)))
  {
    if commands != [] {
      var n := |commands| - 1;
      RunLinesUp(env, collectLogs, commands[..n]);
      var attempts := Run(env, collectLogs, commands);
      assert attempts[..n] == Run(env, collectLogs, commands[..n]);
    }
  }

  /** The saved log, written only when logging is on and there is at least one entry. */
  function SavedLog(saveLogs: bool, strategy: string, timestamp: string,
                    tested: seq<TestedCommand>, results: CountTable<string>,
                    fuzzingLogs: seq<LogEntry>): (d: Option<LogData>)
    ensures d.Some? <==> saveLogs && fuzzingLogs != []
    ensures d.Some? ==> d.value.commands == fuzzingLogs
    ensures d.Some? ==> d.value.info == FuzzingInfo(strategy, |tested|, timestamp, results)
  {
    if saveLogs && fuzzingLogs != [] then
      Some(LogData(FuzzingInfo(strategy, |tested|, timestamp, results), fuzzingLogs))
    else None
  }

  /** What the final result buckets say about the tested commands. */
  lemma RunTotals(tested: seq<TestedCommand>, results: CountTable<string>)
    requires results == TallyOf(InitialResults(), ResultsOf(tested))
    ensures Sum(results) == |tested|
    ensures forall r :: Get(results, r) == Count(ResultsOf(tested), r)
    ensures DistinctKeys(results) && Keys(InitialResults()) <= Keys(results)
    ensures forall r :: r in ResultsOf(tested) ==> r in Keys(results)
    ensures |FailedCommands(tested)| + Get(results, SUC) + Get(results, PRM) == |tested|
  {
    TallyOfCounts(InitialResults(), ResultsOf(tested));
    TallyOfKeys(InitialResults(), ResultsOf(tested));
    FailedCount(tested);
  }

  /** One pass of the loop: look the command up, draw its parameters, send it and
      catch whatever the sending raises. */
  method AttemptCommand(env: FuzzEnv, saveLogs: bool, i: nat, cmd: (string, int))
    returns (t: TestedCommand, e: LogEntry)
    ensures Attempt(t, e) == RunAttempt(env, saveLogs, i, cmd)
  {
    var (name, code) := cmd;
    var info := LookupCommandInfo(env.catalog, name, code);
    var params := env.generate(i, info);
    var result, logs;
    match env.link(i, name, code, params) {
      case None =>
        result, logs := ERR, NoLogs;
      case Some(outcome) =>
        var sent := SendCommandRt(outcome, saveLogs);
        result, logs := sent.0, sent.1;
    }
    t := TestedCommand(name, code, params, result);
    e := LogEntry(name, CodeLabel(code), params, result, logs);
  }

  /** The run's state after its first `i` commands: both lists hold their attempts
      and every result so far is counted. */
  predicate RunSoFar(env: FuzzEnv, saveLogs: bool, commands: seq<(string, int)>, i: nat,
                     tested: seq<TestedCommand>, fuzzingLogs: seq<LogEntry>, results: CountTable<string>)
  {
    && i <= |commands| && |tested| == i && |fuzzingLogs| == i
    && tested == TestedOf(Run(env, saveLogs, commands[..i]))
    && fuzzingLogs == EntriesOf(Run(env, saveLogs, commands[..i]))
    && results == TallyOf(InitialResults(), ResultsOf(tested))
  }

  /** One pass of the loop keeps the run's state. */
  lemma RunSoFarStep(env: FuzzEnv, saveLogs: bool, commands: seq<(string, int)>, i: nat,
                     tested: seq<TestedCommand>, fuzzingLogs: seq<LogEntry>, results: CountTable<string>,
                     t: TestedCommand, e: LogEntry)
    requires i < |commands| && RunSoFar(env, saveLogs, commands, i, tested, fuzzingLogs, results)
    requires Attempt(t, e) == RunAttempt(env, saveLogs, i, commands[i])
    ensures RunSoFar(env, saveLogs, commands, i + 1, tested + [t], fuzzingLogs + [e], Increment(results, t.result))
  {
    var attempts := Run(env, saveLogs, commands[..i]);
    RunStep(env, saveLogs, commands, i);
    ProjectionsSnoc(attempts, Attempt(t, e));
    TallyStep(InitialResults(), tested, t);
  }

  /** The loop of the run: one attempt per command, in order, each result
      counted into its bucket as it comes. */
  method RunCommands(env: FuzzEnv, commands: seq<(string, int)>, saveLogs: bool)
    returns (tested: seq<TestedCommand>, fuzzingLogs: seq<LogEntry>, results: CountTable<string>)
    ensures tested == TestedOf(Run(env, saveLogs, commands))
    ensures fuzzingLogs == EntriesOf(Run(env, saveLogs, commands))
    ensures results == TallyOf(InitialResults(), ResultsOf(tested))
  {
    results := InitialResults();
    tested := [];
    fuzzingLogs := [];
    var i := 0;
    assert commands[..0] == [];
    while i < |commands|
      invariant RunSoFar(env, saveLogs, commands, i, tested, fuzzingLogs, results)
    {
      var t, e := AttemptCommand(env, saveLogs, i, commands[i]);
      RunSoFarStep(env, saveLogs, commands, i, tested, fuzzingLogs, results, t, e);
      results := Increment(results, t.result);
      tested := tested + [t];
      fuzzingLogs := fuzzingLogs + [e];
      i := i + 1;
    }
    assert commands[..i] == commands;
  }

  /** The run. Logs are collected exactly when they are saved (`collect_logs=save_logs`). */
  method FuzzAllCommandsRt(env: FuzzEnv, enumCodes: seq<(string, int)>, strategy: string,
                           maxCommands: Option<int>, saveLogs: bool, timestamp: string)
    returns (tested: seq<TestedCommand>, fuzzingLogs: seq<LogEntry>, results: CountTable<string>,
             failed: seq<TestedCommand>, logData: Option<LogData>)
    ensures |tested| == |fuzzingLogs| == |CommandsToTest(enumCodes, maxCommands)|
    ensures tested == TestedOf(Run(env, saveLogs, CommandsToTest(enumCodes, maxCommands)))
    ensures fuzzingLogs == EntriesOf(Run(env, saveLogs, CommandsToTest(enumCodes, maxCommands)))
    ensures Matches(tested, fuzzingLogs)
    ensures results == TallyOf(InitialResults(), ResultsOf(tested))
    ensures Sum(results) == |tested|
    ensures forall r :: Get(results, r) == Count(ResultsOf(tested), r)
    ensures DistinctKeys(results) && Keys(InitialResults()) <= Keys(results)
    ensures forall r :: r in ResultsOf(tested) ==> r in Keys(results)
    ensures failed == FailedCommands(tested)
    ensures |failed| + Get(results, SUC) + Get(results, PRM) == |tested|
    ensures logData == SavedLog(saveLogs, strategy, timestamp, tested, results, fuzzingLogs)
  {
    var commands := CommandsToTest(enumCodes, maxCommands);
    tested, fuzzingLogs, results := RunCommands(env, commands, saveLogs);
    RunLinesUp(env, saveLogs, commands);
    RunTotals(tested, results);
    failed := FailedCommands(tested);
    logData := SavedLog(saveLogs, strategy, timestamp, tested, results, fuzzingLogs);
  }
}

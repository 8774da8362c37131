# Realtime command fuzzing: bookkeeping model

This project models the bookkeeping of the C2A realtime command fuzzer
(`test_fuzzing_all_commands.py`) and proves properties about it. The fuzzer
sends every command of the on-board software's command enum once, as a realtime
command, to the simulated on-board computer, and counts the results.
For each command it looks up the database row, falling back to a zero-parameter
default when the row is missing. It then draws the parameters, sends the command,
counts the result, and appends a tuple to `tested_commands` and an entry to
`fuzzing_logs`. At the end it lists the failed commands and writes a
`fuzzing_info` summary. An offline analysis reads such a log back. It filters
the error commands and counts the event-logger events by group.

The model has these parts:

- **wrappers.dfy**: `Option`, which stands for Python's `None`.
- **sequences.dfy**: order-preserving filtering, for the list comprehensions.
- **counting.dfy**: the result-count dictionary. It is an insertion-ordered list of
  (key, count) pairs, because Python dictionaries keep insertion order.
- **hex_label.dfy**: the `f"0x{code:04X}"` label stored in each entry, with a
  parser that reads the code back.
- **fuzz_log.dfy**: the records (database row, telemetry readings, tested
  command, log entry, summary) and the failure rule "result not in {SUC, PRM}".
- **senders.dfy**: `send_command_rt`, `send_command_tl` and `send_command_bl`.
- **fuzz_driver.dfy**: `test_fuzz_all_commands_rt`, a method whose loop
  updates the three accumulators.
- **log_analysis.dfy**: `analyze_fuzzing_log`, a method whose loop updates
  `total_events` and `event_groups`.

External parts of the program become inputs:

- The test framework (`wings`) is a function `link(k, name, code, params)`. It
  says what the send of attempt `k` did:
  - it raised (`Raised`);
  - it returned an acknowledgement along with the two telemetry readings, each
    `None` when its collection failed (`Acked`);
  - an exception escaped `send_command_rt` itself (`None`).
- The parameter generator is a function `generate(k, info)`. The attempt index
  `k` stands for the random state.
- The command database is a `map` from command name to row.
- For the scheduled sends, the housekeeping telemetry is an optional map. Whether
  the send raised is a function of the command kind and the tick.

Where the design description and the code disagree, the model follows the code:

- Result codes are the strings the link returns, not a closed enumeration. An
  unseen string gets a new bucket, placed last.
- The analysis does not recount the stored per-result counts; it only prints
  them. `FuzzLog.RecountFromLog` shows that a recount of a run's own log would
  agree with them.
- `LogAnalysis.AnalyzeFuzzingLog` does not follow the code on one point: it
  reads a `null` event-logger reading as no event, which is the evidently
  intended behaviour. The code as written raises on such an entry; that
  behaviour is `LogAnalysis.EventGroupsAsWritten` (see Findings).

## Model

| member | source | states |
|---|---|---|
| Counting.Increment | examples/mobc/src/src_user/test/src_core/applications/test_fuzzing_all_commands.py:262 | `results[result] = results.get(result, 0) + 1` raises that bucket by one, creating it at 1 if unseen, leaves every other bucket alone, and raises the total by one |
| Counting.IncrementKeys | examples/mobc/src/src_user/test/src_core/applications/test_fuzzing_all_commands.py:262 | a key already present keeps its place and an unseen key is appended last |
| Counting.IncrementDistinct | examples/mobc/src/src_user/test/src_core/applications/test_fuzzing_all_commands.py:262 | incrementing never gives two buckets the same key |
| Counting.TallyOfCounts | examples/mobc/src/src_user/test/src_core/applications/test_fuzzing_all_commands.py:262 | counting a list of results raises the total by its length and each bucket by that key's number of occurrences |
| Counting.TallyOfKeys | examples/mobc/src/src_user/test/src_core/applications/test_fuzzing_all_commands.py:262 | counting a list of results keeps the existing keys first and in order, creates a bucket for every key seen, creates no other key, and keeps the keys distinct |
| Sequences.Filter | examples/mobc/src/src_user/test/src_core/applications/test_fuzzing_all_commands.py:297 | a comprehension with a condition keeps exactly the elements that satisfy it, each as often as it occurs, in their original order (a subsequence) |
| HexLabel.CodeLabel | examples/mobc/src/src_user/test/src_core/applications/test_fuzzing_all_commands.py:269 | the `cmd_code` label starts with "0x" and has at least four characters after it (four digits, or a sign and three digits for a negative code) |
| HexLabel.CodeLabelRoundTrip | examples/mobc/src/src_user/test/src_core/applications/test_fuzzing_all_commands.py:269 | the label can always be parsed back to the code, negative codes included, so no two codes share a label |
| FuzzLog.InitialResults | examples/mobc/src/src_user/test/src_core/applications/test_fuzzing_all_commands.py:210-217 | the run starts with the buckets SUC, PRM, CNT, ROE, ERR, SKIP in that order, all zero |
| FuzzLog.FailedCommands | examples/mobc/src/src_user/test/src_core/applications/test_fuzzing_all_commands.py:297 | `failed_commands` holds exactly the tested commands whose result is neither SUC nor PRM, each as often as it was tested, in the order tested |
| FuzzLog.ErrorCommands | examples/mobc/src/src_user/test/src_core/applications/test_fuzzing_all_commands.py:412 | `error_commands` holds exactly the log entries whose result is neither SUC nor PRM, each as often as it occurs in the log, in log order |
| FuzzLog.FailedCount | examples/mobc/src/src_user/test/src_core/applications/test_fuzzing_all_commands.py:292-297 | the number of failed commands plus the SUC and PRM counts equals the number of commands tested |
| FuzzLog.FailedMatchesErrorCommands | examples/mobc/src/src_user/test/src_core/applications/test_fuzzing_all_commands.py:412 | the analysis applies the driver's failure rule: over a log that lines up with the tested commands, both lists pick the same attempts |
| FuzzLog.RecountFromLog | examples/mobc/src/src_user/test/src_core/applications/test_fuzzing_all_commands.py:304-313 | recounting the results of the saved entries gives back the counts stored in `fuzzing_info` |
| FuzzLog.TallyStep | examples/mobc/src/src_user/test/src_core/applications/test_fuzzing_all_commands.py:262-263 | appending a tested command counts its result into the buckets |
| Senders.SendCommandRt | examples/mobc/src/src_user/test/src_core/applications/test_fuzzing_all_commands.py:123-148 | an exception in the send gives `("ERR", {})`; otherwise the acknowledgement is the result, and both telemetry readings are logged exactly when logs are collected |
| Senders.DefaultOffsetSchedule | examples/mobc/src/src_user/test/src_core/applications/test_fuzzing_all_commands.py:150-163 | with the default `ti_offset=10000`, the command is scheduled 10000 ticks after `HK.SH.TI`, or at tick 10000 when `HK.SH.TI` is missing |
| Senders.SendScheduledCommand | examples/mobc/src/src_user/test/src_core/applications/test_fuzzing_all_commands.py:151-189 | the command is scheduled for `HK.SH.TI + ti_offset`, with a missing `HK.SH.TI` read as 0; the result is SUC exactly when the telemetry and the send both return normally, and ERR otherwise |
| FuzzDriver.CommandsToTest | examples/mobc/src/src_user/test/src_core/applications/test_fuzzing_all_commands.py:230-232 | the commands tested are a prefix of the enum list: all of it when `max_commands` is None or 0, the first `max_commands` when it is positive, all but the last `-max_commands` when it is negative |
| FuzzDriver.LookupCommandInfo | examples/mobc/src/src_user/test/src_core/applications/test_fuzzing_all_commands.py:237-248 | a database hit returns the row; a miss returns the default with the enum code, no parameters, empty lists and description, and no danger flag |
| FuzzDriver.RunAttempt | examples/mobc/src/src_user/test/src_core/applications/test_fuzzing_all_commands.py:235-274 | one attempt sends the enum code with parameters drawn from the looked-up row; the tuple and the entry carry the same name, parameters and result; the entry's code label is that code's label; after an acknowledged send the entry holds the logs `send_command_rt` returned; any exception, inside `send_command_rt` or escaping it, gives ERR with no logs |
| FuzzDriver.Run | examples/mobc/src/src_user/test/src_core/applications/test_fuzzing_all_commands.py:235 | a run makes exactly one attempt per command to test |
| FuzzDriver.RunStep | examples/mobc/src/src_user/test/src_core/applications/test_fuzzing_all_commands.py:235-274 | one more command adds exactly one attempt, at the end of the run |
| FuzzDriver.AttemptCommand | examples/mobc/src/src_user/test/src_core/applications/test_fuzzing_all_commands.py:237-274 | one pass of the loop looks the command up, draws its parameters, sends it and catches what the send raises, which gives exactly the attempt `RunAttempt` describes |
| FuzzDriver.RunSoFarStep | examples/mobc/src/src_user/test/src_core/applications/test_fuzzing_all_commands.py:235-274 | one pass of the loop appends the attempt's tuple and entry and counts its result, so after `i` commands the lists hold the first `i` attempts and the buckets count their results |
| FuzzDriver.RunCommands | examples/mobc/src/src_user/test/src_core/applications/test_fuzzing_all_commands.py:235-274 | the loop leaves the tuples and entries of the run's attempts in order, and the buckets are the initial ones with every result counted in |
| FuzzDriver.RunInOrder | examples/mobc/src/src_user/test/src_core/applications/test_fuzzing_all_commands.py:235-274 | the `k`-th tuple and entry come from the `k`-th command, in order |
| FuzzDriver.RunLinesUp | examples/mobc/src/src_user/test/src_core/applications/test_fuzzing_all_commands.py:263-274 | the tested list and the log agree entry by entry on name, parameters and result |
| FuzzDriver.SavedLog | examples/mobc/src/src_user/test/src_core/applications/test_fuzzing_all_commands.py:304-313 | a log is written exactly when saving is on and there is at least one entry; it holds the strategy, the number tested, the timestamp, the final buckets and all entries |
| FuzzDriver.RunTotals | examples/mobc/src/src_user/test/src_core/applications/test_fuzzing_all_commands.py:262-297 | the bucket total equals the number tested, each bucket counts its result, the six initial keys stay first, and every result seen has a bucket |
| FuzzDriver.FuzzAllCommandsRt | examples/mobc/src/src_user/test/src_core/applications/test_fuzzing_all_commands.py:194-320 | the run's lists are the attempts in order; the bucket total equals the number of entries and the number of commands attempted; `failed_commands` is the failure filter; the saved log is as above |
| LogAnalysis.LatestEventGroupAsWritten | examples/mobc/src/src_user/test/src_core/applications/test_fuzzing_all_commands.py:433-434 | the event lookup as written raises exactly when the event-logger reading is present as null |
| LogAnalysis.LatestEventGroup | examples/mobc/src/src_user/test/src_core/applications/test_fuzzing_all_commands.py:433-434 | the corrected lookup finds a group exactly when an event-logger reading is present, and agrees with the original wherever the original does not raise |
| LogAnalysis.EventGroupsOf | examples/mobc/src/src_user/test/src_core/applications/test_fuzzing_all_commands.py:430-438 | the counted groups are never 0 (`group != 0`) and at most one per entry |
| LogAnalysis.GroupCounts | examples/mobc/src/src_user/test/src_core/applications/test_fuzzing_all_commands.py:430-438 | each non-zero group is counted once per entry in that group, group 0 never, and the number of events equals the number of entries with a non-zero group |
| LogAnalysis.EventGroupsStep | examples/mobc/src/src_user/test/src_core/applications/test_fuzzing_all_commands.py:432-438 | each entry adds at most one event, at the end |
| LogAnalysis.AnalyzeStep | examples/mobc/src/src_user/test/src_core/applications/test_fuzzing_all_commands.py:431-437 | one pass of the statistics loop counts the entry exactly when its event group is present and not 0, raising `total_events` by one and that group's bucket by one |
| LogAnalysis.CountEventGroups | examples/mobc/src/src_user/test/src_core/applications/test_fuzzing_all_commands.py:428-438 | the statistics loop leaves `total_events` equal to the number of entries with a non-zero event group, and `event_groups` equal to those groups counted in log order |
| LogAnalysis.AnalysisTotals | examples/mobc/src/src_user/test/src_core/applications/test_fuzzing_all_commands.py:430-438 | `total_events` equals the sum of the `event_groups` counts; each group's count is its number of entries; group 0 has no bucket |
| LogAnalysis.AsWrittenRaisesOnNullEventLog | examples/mobc/src/src_user/test/src_core/applications/test_fuzzing_all_commands.py:432-433 | the statistics loop as written raises exactly when some entry has a null event-logger reading, and otherwise counts the same groups as the corrected loop |
| LogAnalysis.RunLogCanCrashAnalysis | examples/mobc/src/src_user/test/src_core/applications/test_fuzzing_all_commands.py:140-143 | when logs are collected and the event-logger telemetry of some attempt fails, the analysis as written cannot read the log the run writes |
| LogAnalysis.AnalyzeFuzzingLog | examples/mobc/src/src_user/test/src_core/applications/test_fuzzing_all_commands.py:389-443 | `error_commands` is the failure filter; `total_events` and `event_groups` are as `AnalysisTotals` states, over `log_data.get('commands', [])` |

## Left out

- FuzzDriver.FuzzAllCommandsRt: covers only runs in which the database lookup and the parameter generator return normally. Both run outside the `try` (lines 237 and 251), so in the source an exception there ends the whole run before the summary, and no log is written.
- FuzzDriver.RunAttempt: the catalog is a map and `generate` is a total function, so every attempt yields a tuple and an entry. In the source that holds only when `get_command_info` and `generate_params_from_cmd_info` return normally.
- FuzzDriver.SavedLog: "written exactly when saving is on and there is an entry" assumes that `json.dump` (line 316) returns normally. It raises when a parameter is a Python `bytes` value (`RawParam`); the run then ends with no complete log file.

- The test framework's send and telemetry calls (`send_rt_cmd_and_confirm`, `generate_and_receive_tlm`, `send_tl_cmd`, `send_bl_cmd`) are a foreign runtime. What they return, or whether they raise, is an input.
- `get_command_dispatcher_log` and `get_event_logger_log` only read telemetry fields with a default of 0, or return `None` on an exception. Their readings are optional inputs.
- `CommandDBParser`, `FuzzingParamGenerator`, `generate_params_from_cmd_info` and `get_all_cmd_codes_from_enum` come from `fuzzing_helper`, which is not part of this model. The database is a map, the enum list is an input, and the generator is a function. Random draws are nondeterministic; the attempt index stands for them.
- File and console I/O is not modelled: the log directory, `json.dump`/`json.load` and every `print`. The saved log is read back as the same value. The timestamps come from `datetime.now()`: the run's timestamp is a parameter, and the per-entry `timestamp` field is left out.
- The analysis's printed listing of the first ten error commands (lines 414-426) is output only. Its event lookup can raise in the same way as the statistics loop. It also prints the code label with a second "0x" prefix.
- The analysis does not model log entries that lack `logs` or `result`. The run always writes both fields.
- Interrupts and other exceptions that are not `Exception` (e.g. `KeyboardInterrupt`) are not modelled.
- `test_fuzz_all_commands_tl` and `get_command_info_from_db` call names that are not defined (`parse_cmd_db_csv`, `CommandInfo`, `generate_params_for_cmd`), so they cannot run.
- `list_all_commands` and `send_fin_packet` are debug printing and a single framework call.
- `test_by_juntheworld.py` is direct framework calls and one telemetry assertion.

## Findings

| source | as written | input that shows it | evidently intended | confidence | as-written member | corrected member |
|---|---|---|---|---|---|---|
| examples/mobc/src/src_user/test/src_core/applications/test_fuzzing_all_commands.py:433 | `cmd.get('logs', {}).get('el', {}).get('latest_event')` returns `None` from `.get('el', {})` when the key is present with value null, so the next `.get` raises AttributeError | a log entry whose `logs` is `{'cdis': ..., 'el': null}`; the run writes one whenever `get_event_logger_log` fails while logs are collected (lines 142-143) | a null event-logger reading is treated as absent, the way an entry without logs is, and the analysis completes | not executed | LogAnalysis.EventGroupsAsWritten (with LogAnalysis.AsWrittenRaisesOnNullEventLog, LogAnalysis.RunLogCanCrashAnalysis) | LogAnalysis.LatestEventGroup (used by LogAnalysis.AnalyzeFuzzingLog) |

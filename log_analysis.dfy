/** `analyze_fuzzing_log` over a saved log that has already been read from JSON:
    the error commands and the event-logger statistics. */
module LogAnalysis {
  import opened Wrappers
  import opened Counting
  import opened FuzzLog
  import opened Senders
  import opened FuzzDriver

  /** A parsed log file; a missing top-level key is `None` (`log_data.get(...)`). */
  datatype ParsedLog = ParsedLog(info: Option<FuzzingInfo>, commands: Option<seq<LogEntry>>)

  /** `log_data.get('commands', [])` */
  function CommandsOf(log: ParsedLog): seq<LogEntry> {
    log.commands.GetOr([])
  }

  /** What the event lookup `cmd.get('logs', {}).get('el', {}).get('latest_event')`
      yields, the group of that event being read next. */
  datatype EventLookup = NoEvent | LatestGroup(group: int) | AttributeError

  /** The lookup as written: with no logs it finds no event, but when the event
      logger reading is present as `null`, `.get('el', {})` returns `None` and the
      next `.get` raises. */
  function LatestEventGroupAsWritten(logs: CmdLogs): (r: EventLookup)
    ensures r == AttributeError <==> logs.Collected? && logs.el.None?
    ensures r.LatestGroup? ==> logs.Collected? && logs.el.Some? && r.group == logs.el.value.latestEvent.group
  {
    match logs
    case NoLogs => NoEvent
    case Collected(_, None) => AttributeError
    case Collected(_, Some(el)) => LatestGroup(el.latestEvent.group)
  }

  /** The lookup with a `null` reading treated as absent, as an entry without logs is. */
  function LatestEventGroup(logs: CmdLogs): (g: Option<int>)
    ensures g.Some? <==> logs.Collected? && logs.el.Some?
    ensures g.Some? ==> g.value == logs.el.value.latestEvent.group
    ensures LatestEventGroupAsWritten(logs) != AttributeError ==>
              g == (if LatestEventGroupAsWritten(logs).LatestGroup?
                    then Some(LatestEventGroupAsWritten(logs).group) else None)
  {
    match logs
    case Collected(_, Some(el)) => Some(el.latestEvent.group)
    case _ => None
  }

  /** The group an entry counts under: its latest event's group, unless that is 0 (no event). */
  function CountedGroup(e: LogEntry): Option<int> {
    match LatestEventGroup(e.logs)
    case Some(g) => if g != 0 then Some(g) else None
    case None => None
  }

  /** The groups counted, one per counted entry, in log order. */
  function EventGroupsOf(entries: seq<LogEntry>): (gs: seq<int>)
    ensures |gs| <= |entries|
    ensures forall g :: g in gs ==> g != 0
  {
    if entries == [] then []
    else
      var n := |entries| - 1;
      EventGroupsOf(entries[..n]) + (if CountedGroup(entries[n]).Some? then [CountedGroup(entries[n]).value] else [])
  }

  /** How many entries have a latest event of group `g`: the reference count the
      statistics are checked against. */
  function EntriesInGroup(entries: seq<LogEntry>, g: int): nat {
    if entries == [] then 0
    else
      var n := |entries| - 1;
      EntriesInGroup(entries[..n], g) + (if LatestEventGroup(entries[n].logs) == Some(g) then 1 else 0)
  }

  /** How many entries have a latest event of a non-zero group. */
  function EntriesWithEvent(entries: seq<LogEntry>): nat {
    if entries == [] then 0
    else
      var n := |entries| - 1;
      EntriesWithEvent(entries[..n]) + (if CountedGroup(entries[n]).Some? then 1 else 0)
  }

  /** Each non-zero group is counted once per entry in it, group 0 never, and the
      number of counted events is the number of entries with a non-zero group. */
  lemma {:induction false} GroupCounts(entries: seq<LogEntry>)
    ensures forall g :: g != 0 ==> Count(EventGroupsOf(entries), g) == EntriesInGroup(entries, g)
    ensures Count(EventGroupsOf(entries), 0) == 0
    ensures |EventGroupsOf(entries)| == EntriesWithEvent(entries)
  {
    if entries != [] {
      var n := |entries| - 1;
      GroupCounts(entries[..n]);
      var gs := EventGroupsOf(entries[..n]);
      match CountedGroup(entries[n])
      case Some(x) =>
        assert LatestEventGroup(entries[n].logs) == Some(x);
        TallyOfSnoc([], gs, x);
      case None =>
        assert forall g :: g != 0 ==> LatestEventGroup(entries[n].logs) != Some(g);
        assert EventGroupsOf(entries) == gs;
    }
  }

  /** One more entry adds its counted group, if any, at the end. */
  lemma EventGroupsStep(entries: seq<LogEntry>, i: nat)
    requires i < |entries|
    ensures CountedGroup(entries[i]).None? ==> EventGroupsOf(entries[..i + 1]) == EventGroupsOf(entries[..i])
    ensures CountedGroup(entries[i]).Some? ==>
              EventGroupsOf(entries[..i + 1]) == EventGroupsOf(entries[..i]) + [CountedGroup(entries[i]).value]
  {
    assert entries[..i + 1][..i] == entries[..i];
    assert EventGroupsOf(entries[..i]) + [] == EventGroupsOf(entries[..i]);
  }

  /** What the final buckets say about the log. */
  lemma AnalysisTotals(entries: seq<LogEntry>, eventGroups: CountTable<int>)
    requires eventGroups == TallyOf([], EventGroupsOf(entries))
    ensures |EventGroupsOf(entries)| == Sum(eventGroups) == EntriesWithEvent(entries)
    ensures forall g :: Get(eventGroups, g) == if g == 0 then 0 else EntriesInGroup(entries, g)
    ensures DistinctKeys(eventGroups) && 0 !in Keys(eventGroups)
  {
    TallyOfCounts([], EventGroupsOf(entries));
    TallyOfKeys([], EventGroupsOf(entries));
    GroupCounts(entries);
  }

  /** The statistics loop as written: `None` when it raises. */
  function EventGroupsAsWritten(entries: seq<LogEntry>): Option<seq<int>> {
    if entries == [] then Some([])
    else
      var n := |entries| - 1;
      match (EventGroupsAsWritten(entries[..n]), LatestEventGroupAsWritten(entries[n].logs))
      case (None, _) => None
      case (_, AttributeError) => None
      case (Some(gs), LatestGroup(g)) => Some(if g != 0 then gs + [g] else gs)
      case (Some(gs), NoEvent) => Some(gs)
  }

  /** The statistics loop as written raises exactly when some entry carries a
      `null` event logger reading; otherwise it counts what the corrected one does. */
  lemma {:induction false} AsWrittenRaisesOnNullEventLog(entries: seq<LogEntry>)
    ensures EventGroupsAsWritten(entries).None? <==>
              exists k :: 0 <= k < |entries| && entries[k].logs.Collected? && entries[k].logs.el.None?
    ensures EventGroupsAsWritten(entries).Some? ==> EventGroupsAsWritten(entries).value == EventGroupsOf(entries)
  {
    if entries != [] {
      var n := |entries| - 1;
      AsWrittenRaisesOnNullEventLog(entries[..n]);
      assert forall k :: 0 <= k < n ==> entries[..n][k] == entries[k];
    }
  }

  /** The run writes such an entry whenever the event logger telemetry fails
      while logs are collected, so the analysis as written cannot read that log. */
  lemma RunLogCanCrashAnalysis(env: FuzzEnv, commands: seq<(string, int)>, k: nat)
    requires k < |commands|
    requires var sent := env.link(k, commands[k].0, commands[k].1,
                                  env.generate(k, LookupCommandInfo(env.catalog, commands[k].0, commands[k].1)));
             sent.Some? && sent.value.Acked? && sent.value.el.None?
    ensures EventGroupsAsWritten(EntriesOf(Run(env, true, commands))) == None
  {
    var attempts := Run(env, true, commands);
    var entries := EntriesOf(attempts);
    RunInOrder(env, true, commands, k);
    EntriesOfAt(attempts, k);
    assert entries[k].logs.Collected? && entries[k].logs.el.None?;
    AsWrittenRaisesOnNullEventLog(entries);
  }

  /** The analysis state after its first `i` entries: the groups seen so far,
      counted and tallied. */
  predicate AnalyzedSoFar(entries: seq<LogEntry>, i: nat, totalEvents: nat, eventGroups: CountTable<int>) {
    && i <= |entries|
    && totalEvents == |EventGroupsOf(entries[..i])|
    && eventGroups == TallyOf([], EventGroupsOf(entries[..i]))
  }

  /** One pass of the loop keeps the analysis state; an entry counts only when its
      event group is present and not 0. */
  lemma AnalyzeStep(entries: seq<LogEntry>, i: nat, totalEvents: nat, eventGroups: CountTable<int>)
    requires i < |entries| && AnalyzedSoFar(entries, i, totalEvents, eventGroups)
    ensures var group := LatestEventGroup(entries[i].logs);
            if group.Some? && group.value != 0
            then AnalyzedSoFar(entries, i + 1, totalEvents + 1, Increment(eventGroups, group.value))
            else AnalyzedSoFar(entries, i + 1, totalEvents, eventGroups)
  {
    var group := LatestEventGroup(entries[i].logs);
    assert CountedGroup(entries[i]) == if group.Some? && group.value != 0 then group else None;
    EventGroupsStep(entries, i);
    if group.Some? && group.value != 0 {
      TallyOfSnoc([], EventGroupsOf(entries[..i]), group.value);
    }
  }

  /** The statistics loop: every entry with a non-zero event group is counted,
      in total and in its group's bucket. */
  method CountEventGroups(commands: seq<LogEntry>) returns (totalEvents: nat, eventGroups: CountTable<int>)
    ensures totalEvents == |EventGroupsOf(commands)|
    ensures eventGroups == TallyOf([], EventGroupsOf(commands))
  {
    totalEvents := 0;
    eventGroups := [];
    var i := 0;
    assert commands[..0] == [];
    while i < |commands|
      invariant AnalyzedSoFar(commands, i, totalEvents, eventGroups)
    {
      var group := LatestEventGroup(commands[i].logs);
      AnalyzeStep(commands, i, totalEvents, eventGroups);
      if group.Some? && group.value != 0 {
        totalEvents := totalEvents + 1;
        eventGroups := Increment(eventGroups, group.value);
      }
      i := i + 1;
    }
    assert commands[..i] == commands;
  }

  /** The analysis: the error commands, the number of events and the per-group counts. */
  method AnalyzeFuzzingLog(log: ParsedLog)
    returns (errorCommands: seq<LogEntry>, totalEvents: nat, eventGroups: CountTable<int>)
    ensures errorCommands == ErrorCommands(CommandsOf(log))
    ensures eventGroups == TallyOf([], EventGroupsOf(CommandsOf(log)))
    ensures totalEvents == Sum(eventGroups) == EntriesWithEvent(CommandsOf(log))
    ensures forall g :: Get(eventGroups, g) == if g == 0 then 0 else EntriesInGroup(CommandsOf(log), g)
    ensures DistinctKeys(eventGroups) && 0 !in Keys(eventGroups)
  {
    var commands := CommandsOf(log);
    errorCommands := ErrorCommands(commands);
    totalEvents, eventGroups := CountEventGroups(commands);
    AnalysisTotals(commands, eventGroups);
  }
}

/** The three send helpers. The test framework's send and telemetry calls are
    inputs here: what they returned, or that they raised. */
module Senders {
  import opened Wrappers
  import opened FuzzLog

  /** What the realtime link did: the send raised, or it returned an
      acknowledgement code, after which the two telemetry readings were each
      `None` when their collection failed. */
  datatype LinkOutcome =
    | Raised
    | Acked(ack: string, cdis: Option<CdisLog>, el: Option<EventLog>)

  /** `send_command_rt`: the `(result, logs)` pair. An exception in the send gives
      `"ERR"` with no logs; otherwise the acknowledgement is the result, and the two
      telemetry readings are logged exactly when logs are collected. */
  function SendCommandRt(outcome: LinkOutcome, collectLogs: bool): (r: (string, CmdLogs))
    ensures outcome.Raised? ==> r == (ERR, NoLogs)
    ensures outcome.Acked? ==> r.0 == outcome.ack
    ensures r.1.Collected? <==> outcome.Acked? && collectLogs
    ensures r.1.Collected? ==> r.1.cdis == outcome.cdis && r.1.el == outcome.el
  {
    match outcome
    case Raised => (ERR, NoLogs)
    case Acked(ack, cdis, el) => (ack, if collectLogs then Collected(cdis, el) else NoLogs)
  }

  /** Which scheduled-command call is made: `send_tl_cmd` or `send_bl_cmd`. */
  datatype CommandKind = Timeline | Block

  /** The `ti_offset` a scheduled send uses when its caller gives none. */
  const DefaultTiOffset := 10000
  const TiField := "HK.SH.TI"

  /** `tlm_HK.get("HK.SH.TI", 0)` */
  function CurrentTi(hk: Telemetry): int {
    if TiField in hk then hk[TiField] else 0
  }

  /** The result of a scheduled send, and the tick the command was sent for
      (`None` when the housekeeping telemetry failed before anything was sent). */
  datatype ScheduledSend = ScheduledSend(result: string, scheduledTi: Option<int>)

  /** `send_command_tl` and `send_command_bl`, which differ only in the call they make.
      `hk` is the housekeeping telemetry (`None`: its request raised);
      `accepts(kind, ti)` says whether the send for tick `ti` returned without raising;
      `tiOffset` defaults to `ti_offset=10000`. */
  function SendScheduledCommand(kind: CommandKind, hk: Option<Telemetry>,
                                accepts: (CommandKind, int) -> bool,
                                tiOffset: int := DefaultTiOffset): (r: ScheduledSend)
    ensures r.result == SUC || r.result == ERR
    ensures hk.None? ==> r.scheduledTi == None
    ensures hk.Some? && TiField in hk.value ==> r.scheduledTi == Some(hk.value[TiField] + tiOffset)
    ensures hk.Some? && TiField !in hk.value ==> r.scheduledTi == Some(tiOffset)
    ensures r.result == SUC <==> r.scheduledTi.Some? && accepts(kind, r.scheduledTi.value)
  {
    match hk
    case None => ScheduledSend(ERR, None)
    case Some(tlm) =>
      var futureTi := CurrentTi(tlm) + tiOffset;
      ScheduledSend(if accepts(kind, futureTi) then SUC else ERR, Some(futureTi))
  }

  /** With the default offset the command goes to `HK.SH.TI + 10000`, or to tick
      10000 when the telemetry has no `HK.SH.TI`. */
  lemma DefaultOffsetSchedule(kind: CommandKind, tlm: Telemetry, accepts: (CommandKind, int) -> bool)
    ensures SendScheduledCommand(kind, Some(tlm), accepts).scheduledTi
            == Some(if TiField in tlm then tlm[TiField] + 10000 else 10000)
  {
  }
}

/** The transmitter's actions. */
module ProbeTx {
  import opened Probe

  /** Whether an acknowledgement matches the pending command. */
  predicate Accepts(p: Probe, m: Message) {
    && m.AckMessage? && p.control.pending.Pending?
    && m.ackCommand == p.control.pending.command && m.ackNum == p.control.pending.num
  }

  function HandleReset(p: Probe, e: Env, wait: nat): (h: Handled)
    ensures h.probe.control == p.control
  {
    if !p.hasVersion && !e.versionAccepted then Handled(p.QueueReset(), false, wait)
    else Handled(p.QueueReset().(hasVersion := true, state := Resetting), true, ENDPOINT_MANAGER_COMPLETION_TIMEOUT_MSEC)
  }

  function StartWithVersion(p: Probe): Handled {
    Handled(p.(hasVersion := true, state := WaitForStart, events := p.events + [QueueEndpointStart]), true,
            ENDPOINT_MANAGER_COMPLETION_TIMEOUT_MSEC)
  }

  /** The acknowledgement of the pending command arrived. */
  function HandleAck(p: Probe, e: Env, wait: nat): (h: Handled)
    requires p.control.pending.Pending?
    ensures h.probe.control == p.control.Accept()
  {
    var q := p.(control := p.control.Accept());
    match p.control.pending.command
    case Reset =>
      if e.senderVersion >= 3 then
        Handled(q.(hasVersion := false, state := SendProtocolVersion, tx := q.tx.(retries := 0)), true, 0)
      else if e.versionAccepted then StartWithVersion(q)
      else Handled(q.(hasVersion := false), true, wait)
    case ProtocolVersion => if e.versionAccepted then StartWithVersion(q) else Handled(q, false, wait)
    case Ping => Handled(q.(state := EfaConnected), true, PingFrequency(e))
    case Connected => Handled(q.(failed := true), false, wait)
  }

  function PingFrequency(e: Env): Positive {
    if e.negotiatedVersion >= 5 then SEND_PING_COMMAND_FREQUENCY_MSEC else LEGACY_SEND_PING_COMMAND_FREQUENCY_MSEC
  }

  /** A received control packet. */
  function TxPacket(p: Probe, m: Message, e: Env, wait: nat): Handled {
    if m.AckMessage? then
      if Accepts(p, m) then HandleAck(p, e, wait) else Handled(p, false, wait)
    else match m.command
      case Reset => HandleReset(p, e, wait)
      case Connected => Handled(p.(state := if p.state == EfaProbe then EfaTxProbeAcks else SendReset), true, 0)
      case _ => Handled(p.(failed := true), false, wait)
  }

  /** Sends a command that is repeated until it is acknowledged, or gives up. */
  function SendCommandRetry(p: Probe, command: Command): (a: Acted)
    ensures if a.wait == 0 then a.probe.state == EfaReset && a.probe.control == p.control
            else a.probe.state == p.state && a.probe.control == p.control.SendExpectingAck(command)
  {
    var retries := p.tx.retries + 1;
    if retries > 1 && retries > TX_COMMAND_MAX_RETRIES then Acted(p.(state := EfaReset, tx := p.tx.(retries := retries)), 0)
    else
      Acted(p.(control := p.control.SendExpectingAck(command), tx := p.tx.(retries := retries)), TX_COMMAND_ACK_TIMEOUT_MSEC)
  }

  function EnqueueProbePacket(p: Probe): Probe {
    p.(events := p.events + [EfaPacketQueued(p.tx.enqueued, p.tx.enqueued + 1 == EFA_PROBE_PACKET_COUNT)],
       tx := p.tx.(inFlight := p.tx.inFlight.Raise(), enqueued := p.tx.enqueued + 1))
  }

  function SendResetCommand(p: Probe, next: ProbeState, wait: nat): (a: Acted)
    ensures a.wait == wait && a.probe.control == p.control.SendExpectingAck(Reset)
  {
    Acted(p.(control := p.control.SendExpectingAck(Reset), state := next), wait)
  }

  function StartBurst(p: Probe, e: Env): (a: Acted)
    ensures a.wait > 0 && a.probe.control == p.control
  {
    var q := p.EfaConnectionStart();
    if !e.startSucceeds then Acted(q.(state := EfaReset), SEND_RESET_COMMAND_FREQUENCY_MSEC)
    else Acted(EnqueueProbePacket(q.(state := EfaProbe, tx := q.tx.(enqueued := 0))), EFA_PROBE_MONITOR_TIMEOUT_MSEC)
  }

  function AwaitProbeAcks(p: Probe, e: Env): (a: Acted)
    ensures a.wait == 0 ==> a.probe.state == EfaReset
    ensures a.probe.control == p.control
  {
    if p.tx.acked >= EFA_PROBE_PACKET_COUNT then
      Acted(p.EnableApplication().(state := EfaConnected),
            if e.negotiatedVersion >= 5 then TX_CONNECTION_DELAY_MSEC else LEGACY_SEND_PING_COMMAND_FREQUENCY_MSEC)
    else
      var waits := p.tx.ackWaits + 1;
      if waits < EFA_TX_PROBE_ACK_MAX_RETRIES then Acted(p.(tx := p.tx.(ackWaits := waits)), EFA_TX_PROBE_ACK_TIMEOUT)
      else Acted(p.(state := EfaReset, tx := p.tx.(ackWaits := waits)), 0)
  }

  /** What the current state does when its time is up. */
  function TxAct(p: Probe, e: Env): Acted {
    match p.state
    case Resetting => SendResetCommand(p, Resetting, SEND_RESET_COMMAND_FREQUENCY_MSEC)
    case WaitForStart => SendResetCommand(p, WaitForStart, SEND_RESET_COMMAND_FREQUENCY_MSEC)
    case EfaReset => SendResetCommand(p.QueueReset(), Resetting, ENDPOINT_MANAGER_COMPLETION_TIMEOUT_MSEC)
    case ResetDone => Acted(p.(control := p.control.SendReply(), state := WaitForStart), ENDPOINT_MANAGER_COMPLETION_TIMEOUT_MSEC)
    case Idle => SendResetCommand(p.Tell(false), SendReset, SEND_RESET_COMMAND_FREQUENCY_MSEC)
    case SendReset => SendResetCommand(p.Tell(false), SendReset, SEND_RESET_COMMAND_FREQUENCY_MSEC)
    case SendProtocolVersion => SendCommandRetry(p, ProtocolVersion)
    case EfaStart => StartBurst(p, e)
    case EfaProbe => Acted(p.(state := EfaReset), 0)
    case EfaTxProbeAcks => AwaitProbeAcks(p, e)
    case EfaConnected => Acted(p.Tell(true).(state := EfaConnectedPing, tx := p.tx.(retries := 0)), 0)
    case EfaConnectedPing => SendCommandRetry(p, Ping)
    case Destroy => Acted(p, DEFAULT_TIMEOUT_MSEC)
  }

  /** A probe packet was acknowledged, or failed; the next one is queued until all are. */
  function TxEfaMessage(p: Probe, success: bool, last: bool): Probe {
    var q := if success then p else p.EndpointError();
    var r := q.(tx := q.tx.(acked := q.tx.acked + 1, inFlight := q.tx.inFlight.Complete(last)));
    if r.tx.acked < EFA_PROBE_PACKET_COUNT then EnqueueProbePacket(r) else r
  }

  /** Falls with every action that asks for another one immediately. */
  function TxRank(s: ProbeState): nat {
    match s
    case EfaConnected => 3
    case SendProtocolVersion => 2
    case EfaProbe => 2
    case EfaTxProbeAcks => 2
    case EfaConnectedPing => 2
    case EfaReset => 1
    case _ => 0
  }

  lemma {:induction false} TxRankFalls(p: Probe, e: Env)
    ensures TxAct(p, e).wait == 0 ==> TxRank(TxAct(p, e).probe.state) < TxRank(p.state)
  {
    hide SendCommandRetry, SendResetCommand, StartBurst, AwaitProbeAcks;
  }
}

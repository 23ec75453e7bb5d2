/** The receiver's actions. */
module ProbeRx {
  import opened Probe

  function SaveReply(p: Probe, m: Message): Probe
    requires m.CommandMessage?
  {
    p.(control := p.control.(reply := Reply(m.command, m.num, m.serial)))
  }

  function HandleReset(p: Probe, m: Message, e: Env): (h: Handled)
    requires m.CommandMessage?
    ensures h.probe.control == p.control || h.probe.control == SaveReply(p, m).control
  {
    if e.senderVersion < 3 && !e.versionAccepted then Handled(p.(state := EfaReset, hasVersion := false), true, 0)
    else Handled(SaveReply(p, m).(state := EfaReset, hasVersion := e.senderVersion < 3), true, 0)
  }

  function HandleProtocolVersion(p: Probe, m: Message, e: Env, wait: nat): (h: Handled)
    requires m.CommandMessage?
    ensures h.probe.control == p.control || h.probe.control == SaveReply(p, m).control
  {
    if !e.versionAccepted then Handled(p, false, wait)
    else
      Handled(SaveReply(p, m).(hasVersion := true, state := WaitForStart, events := p.events + [QueueEndpointStart]),
              true, ENDPOINT_MANAGER_COMPLETION_TIMEOUT_MSEC)
  }

  /** A received control packet. */
  function RxPacketHandled(p: Probe, m: Message, e: Env, wait: nat): Handled {
    if m.AckMessage? then Handled(p.(failed := true), false, wait)
    else
      var q := p.(control := p.control.Process(m));
      match m.command
      case Reset => HandleReset(q, m, e)
      case ProtocolVersion => HandleProtocolVersion(q, m, e, wait)
      case Ping =>
        Handled(q.(state := EfaConnectedPing, control := q.control.SendAck(m.command, m.num, m.serial)),
                true, RX_PING_MONITOR_TIMEOUT_MSEC)
      case Connected => Handled(q.(failed := true), false, wait)
  }

  function DestroyRxEndpoint(p: Probe): Probe {
    p.Do(DestroyEndpoint).(state := Destroy)
  }

  function ResetRemote(p: Probe, e: Env): (a: Acted)
    ensures a.wait == 0 ==> a.probe.state == Destroy
    ensures a.probe.control == p.control || a.probe.control == p.control.Send(Reset)
  {
    var q := p.Tell(false).(rx := p.rx.(resetRetries := p.rx.resetRetries + 1));
    if q.rx.resetRetries < RX_RESET_COMMAND_MAX_RETRIES then
      Acted(q.(state := SendReset, control := if e.hasControlInterface then q.control.Send(Reset) else q.control),
            SEND_RESET_COMMAND_FREQUENCY_MSEC)
    else Acted(DestroyRxEndpoint(q), 0)
  }

  function StartAndReply(p: Probe): (a: Acted)
    ensures a.wait > 0 && a.probe.control == p.control.SendReply()
  {
    var q := p.EfaConnectionStart();
    Acted(q.(control := q.control.SendReply(), state := EfaProbe), SEND_RESET_COMMAND_FREQUENCY_MSEC)
  }

  function ResetIsDone(p: Probe): (a: Acted)
    ensures a.wait == 0 ==> a.probe.state == SendReset
    ensures a.probe.control == p.control || a.probe.control == p.control.SendReply()
  {
    if p.hasVersion then
      Acted(p.Do(QueueEndpointStart).(state := WaitForStart), ENDPOINT_MANAGER_COMPLETION_TIMEOUT_MSEC)
    else if p.control.reply.Reply? then
      Acted(p.(control := p.control.SendReply(), state := EfaProbe), EFA_PROBE_MONITOR_TIMEOUT_MSEC)
    else Acted(p.(state := SendReset), 0)
  }

  function BecomeConnected(p: Probe, e: Env): (a: Acted)
    ensures a.wait > 0 && a.probe.control == p.control.Send(Connected)
  {
    Acted(p.Tell(true).(control := p.control.Send(Connected), rx := p.rx.(resetRetries := 0, snapshot := e.totalPackets),
                        state := EfaConnectedPing),
          RX_PING_MONITOR_TIMEOUT_MSEC)
  }

  function PingMissed(p: Probe, e: Env): (a: Acted)
    ensures a.wait == 0 ==> a.probe.state == Destroy
    ensures a.probe.control == p.control
  {
    if p.rx.snapshot != e.totalPackets then
      Acted(p.(rx := p.rx.(resetRetries := 0, snapshot := e.totalPackets)), RX_PING_MONITOR_TIMEOUT_MSEC)
    else Acted(DestroyRxEndpoint(p), 0)
  }

  /** What the current state does when its time is up. */
  function RxAct(p: Probe, e: Env): Acted {
    match p.state
    case EfaStart => StartAndReply(p)
    case WaitForStart => StartAndReply(p)
    case Resetting =>
      Acted(p.(control := p.control.SendExpectingAck(Reset)), SEND_RESET_COMMAND_FREQUENCY_MSEC)
    case EfaReset => Acted(p.QueueReset().(state := Resetting), ENDPOINT_MANAGER_COMPLETION_TIMEOUT_MSEC)
    case Idle => ResetRemote(p, e)
    case SendReset => ResetRemote(p, e)
    case ResetDone => ResetIsDone(p)
    case EfaProbe => Acted(p.(state := SendReset), 0)
    case EfaConnected => BecomeConnected(p, e)
    case EfaConnectedPing => PingMissed(p, e)
    case Destroy => Acted(p, DEFAULT_TIMEOUT_MSEC)
    case SendProtocolVersion => Acted(p, DEFAULT_TIMEOUT_MSEC)
    case EfaTxProbeAcks => Acted(p, DEFAULT_TIMEOUT_MSEC)
  }

  /** A packet arrived on the EFA endpoint. */
  function RxEfaMessage(p: Probe, success: bool): Probe {
    if !success then p else
      var q := p.Do(EfaPacketReceived).(rx := p.rx.(received := p.rx.received + 1));
      if q.rx.received >= EFA_PROBE_PACKET_COUNT then q.EnableApplication() else q
  }

  /** Falls with every action that asks for another one immediately. */
  function RxRank(s: ProbeState): nat {
    match s
    case ResetDone => 3
    case EfaProbe => 3
    case Idle => 2
    case SendReset => 2
    case EfaConnectedPing => 2
    case _ => 0
  }

  lemma {:induction false} RxRankFalls(p: Probe, e: Env)
    ensures RxAct(p, e).wait == 0 ==> RxRank(RxAct(p, e).probe.state) < RxRank(p.state)
  {
    hide ResetRemote, StartAndReply, ResetIsDone, BecomeConnected, PingMissed;
  }
}

/** The probe endpoint as the source keeps it: one structure that the control thread and the callbacks update. */
module ProbeControl {
  import opened Probe
  import opened ProbeTx
  import opened ProbeRx
  import opened ProbeSystem
  import opened ProbeThread
  import opened ProbeTiming
  import opened ProbeAck
  import opened ProbeBurst
  import opened ProbeContracts

  class ProbeEndpointState {
    const direction: Direction
    var probeState: ProbeState
    var tx: TxCounters
    var rx: RxCounters
    var probing: bool
    var connected: bool
    var hasProtocol: bool
    var control: Control
    var fifo: seq<ControlCommand>
    var events: seq<Event>
    var failed: bool
    var startTimeUs: nat
    var waitTimeoutMs: nat

    constructor (direction: Direction)
      ensures State() == NewProbe(direction) && waitTimeoutMs == 0
    {
      this.direction := direction;
      probeState := if direction == Send then Idle else SendReset;
      tx, rx := TxCounters(0, 0, 0, 0, InFlight.RefCount(0, false)), RxCounters(0, 0, 0);
      probing, connected, hasProtocol := false, false, false;
      control := Control(0, NotPending, NoReply, [], [], {});
      fifo, events, failed := [], [], false;
      startTimeUs, waitTimeoutMs := 0, 0;
    }

    function State(): Probe
      reads this
    {
      Probe(direction, probeState, tx, rx, probing, connected, hasProtocol, control, fifo, events, failed)
    }

    function ThreadState(): Thread
      reads this
    {
      Thread(State(), startTimeUs, waitTimeoutMs)
    }

    // ----- Control packets -----

    /** The number that CdiOsAtomicInc16 returns is the incremented one. */
    method NextControlPacketNum() returns (num: U16)
      modifies this`control
      ensures num == old(control.Next()) && control == old(control).(num := num)
      ensures old(Numbered(control)) ==> num == (|control.sent| + 1) % 0x1_0000
    {
      ghost var c := control;
      control := control.(num := (control.num + 1) % 0x1_0000);
      num := control.num;
      NextNumber(|c.sent|);
    }

    method ProbeControlSendCommand(command: Command, requiresAck: bool)
      modifies this`control
      ensures control == if requiresAck then old(control).SendExpectingAck(command) else old(control).Send(command)
      ensures old(Numbered(control)) ==> Numbered(control)
      ensures requiresAck && old(TxNumbers(control)) ==> TxNumbers(control)
    {
      hide Numbered, TxNumbers;
      SentNumbers(control, command);
      var serial := |control.sent|;
      var num := NextControlPacketNum();
      if requiresAck {
        control := control.(pending := Pending(command, num, serial));
      }
      control := control.(sent := control.sent + [CommandMessage(command, num, serial)]);
    }

    method ProbeControlSendAck(command: Command, packetNum: U16, serial: nat)
      modifies this`control
      ensures control == old(control).SendAck(command, packetNum, serial)
      ensures old(Numbered(control)) ==> Numbered(control)
      ensures forall sent :: old(AcksOk(sent, control)) && old(Acknowledges(sent, control.processed, command, packetNum, serial)) ==>
                               AcksOk(sent, control)
    {
      hide Numbered, AcksOk, Acknowledges;
      AckNumbers(control, command, packetNum, serial);
      var num := NextControlPacketNum();
      control := control.(sent := control.sent + [AckMessage(num, |control.sent|, command, packetNum, serial)]);
    }

    method SendSavedAck()
      modifies this`control
      ensures control == old(control).SendReply()
    {
      if control.reply.Reply? {
        ProbeControlSendAck(control.reply.command, control.reply.num, control.reply.serial);
        control := control.(reply := NoReply);
      }
    }

    method SaveAck(m: Message)
      requires m.CommandMessage?
      modifies this`control
      ensures control == SaveReply(old(State()), m).control
    {
      control := control.(reply := Reply(m.command, m.num, m.serial));
    }

    // ----- Notifications and requests -----

    method EndpointManagerConnectionStateChange(status: bool)
      modifies this`connected, this`events
      ensures State() == old(State()).Tell(status)
    {
      connected := status;
      events := events + [if status then TellConnected else TellDisconnected];
    }

    method QueueEvent(e: Event)
      modifies this`events
      ensures State() == old(State()).Do(e)
    {
      events := events + [e];
    }

    method ProbeControlEfaConnectionQueueReset()
      modifies this`connected, this`events
      ensures State() == old(State()).QueueReset()
    {
      EndpointManagerConnectionStateChange(false);
      QueueEvent(QueueEndpointReset);
      assert events == old(events) + [TellDisconnected, QueueEndpointReset];
    }

    method ProbeControlQueueStateChange(s: ProbeState)
      modifies this`fifo
      ensures State() == old(State()).Post(s)
    {
      fifo := fifo + [StateChange(s)];
    }

    method ProbeControlEfaConnectionEnableApplication()
      modifies this`fifo, this`probing
      ensures State() == old(State()).EnableApplication()
    {
      probing := false;
      ProbeControlQueueStateChange(EfaConnected);
    }

    method ProbeControlEfaConnectionStart(e: Env) returns (started: bool)
      modifies this
      ensures unchanged(`startTimeUs, `waitTimeoutMs)
      ensures State() == old(State()).EfaConnectionStart() && started == e.startSucceeds
      ensures Queued(events) == 0 && PacketsSinceStart(events) == 0
      ensures direction == Send && !old(tx.inFlight.underflow) ==> BurstOk(State())
    {
      hide Queued, PacketsSinceStart, BurstOk;
      StartCounts(State());
      probing := true;
      if direction == Send {
        tx := tx.(retries := 0, acked := 0, ackWaits := 0, inFlight := tx.inFlight.(value := 1));
      } else {
        rx := rx.(resetRetries := 0, received := 0);
      }
      QueueEvent(EfaStarted);
      started := e.startSucceeds;
    }

    method ProbeEndpointError()
      modifies this`connected, this`events, this`fifo
      ensures State() == old(State()).EndpointError()
      ensures old(KnowsTold(State())) ==> KnowsTold(State()) && !ToldAfter(false, events)
      ensures old(KnowsTold(State())) && !old(ToldAfter(false, events)) ==> State() == old(State())
    {
      hide ToldAfter;
      if KnowsTold(State()) {
        ErrorIsTold(State());
      }
      if connected {
        EndpointManagerConnectionStateChange(false);
        ProbeControlQueueStateChange(EfaReset);
      }
    }

    // ----- Transmitter -----

    method EfaEnqueueSendProbePacket()
      modifies this
      ensures unchanged(`startTimeUs, `waitTimeoutMs)
      ensures State() == EnqueueProbePacket(old(State()))
      ensures Outstanding(State()) == old(Outstanding(State())) + 1
      ensures tx.inFlight.value == old(tx.inFlight.value) + 1
    {
      hide Queued;
      EnqueueAdds(State());
      QueueEvent(EfaPacketQueued(tx.enqueued, tx.enqueued + 1 == EFA_PROBE_PACKET_COUNT));
      tx := tx.(inFlight := tx.inFlight.Raise(), enqueued := tx.enqueued + 1);
    }

    method CdiAdapterTxPacketComplete(last: bool)
      modifies this`tx
      ensures tx == old(tx).(inFlight := old(tx).inFlight.Complete(last))
    {
      tx := tx.(inFlight := tx.inFlight.Lower());
      if last {
        tx := tx.(inFlight := tx.inFlight.Lower());
      }
    }

    method ProbeTxEfaMessageFromEndpoint(success: bool, last: bool)
      modifies this
      ensures unchanged(`startTimeUs, `waitTimeoutMs)
      ensures State() == TxEfaMessage(old(State()), success, last)
      ensures AccountKept(old(State()), last, State()) && Tells(old(State()), State())
    {
      hide AccountKept, Tells, KnowsTold, ToldAfter, Queued;
      AckedKeeps(State(), success, last);
      if !success {
        ProbeEndpointError();
      }
      tx := tx.(acked := tx.acked + 1);
      CdiAdapterTxPacketComplete(last);
      if tx.acked < EFA_PROBE_PACKET_COUNT {
        EfaEnqueueSendProbePacket();
      }
    }

    method ProcessSendCommandRetry(command: Command) returns (wait: nat)
      modifies this
      ensures unchanged(`startTimeUs, `waitTimeoutMs)
      ensures Acted(State(), wait) == SendCommandRetry(old(State()), command)
      ensures if old(tx.retries) >= TX_COMMAND_MAX_RETRIES then wait == 0 && probeState == EfaReset && control == old(control)
              else wait > 0 && probeState == old(probeState) && |control.sent| == |old(control.sent)| + 1
                   && control.pending == Pending(command, control.num, |old(control.sent)|)
    {
      wait := 0;
      var sendCommand := true;
      tx := tx.(retries := tx.retries + 1);
      if tx.retries > 1 {
        if tx.retries > TX_COMMAND_MAX_RETRIES {
          probeState := EfaReset;
          sendCommand := false;
        }
      }
      if sendCommand {
        ProbeControlSendCommand(command, true);
        wait := TX_COMMAND_ACK_TIMEOUT_MSEC;
      }
    }

    method ProbeTxControlProcessPacket(m: Message, e: Env, waitIn: nat) returns (newState: bool, wait: nat)
      modifies this
      ensures unchanged(`startTimeUs, `waitTimeoutMs)
      ensures Handled(State(), newState, wait) == TxPacket(old(State()), m, e, waitIn)
      ensures TxKeepsOn(old(State()), m, waitIn, Handled(State(), newState, wait))
    {
      hide TxKeepsOn;
      TxPacketKeeps(State(), m, e, waitIn);
      newState, wait := false, waitIn;
      match m {
        case AckMessage(_, _, command, num, _) =>
          if control.pending.Pending? {
            if command == control.pending.command && num == control.pending.num {
              newState, wait := AcceptAck(e, wait);
            }
          }
        case CommandMessage(command, _, _) =>
          match command {
            case Reset =>
              ProbeControlEfaConnectionQueueReset();
              if !hasProtocol {
                if !e.versionAccepted {
                  return;
                }
                hasProtocol := true;
              }
              probeState := Resetting;
              wait := ENDPOINT_MANAGER_COMPLETION_TIMEOUT_MSEC;
              newState := true;
            case Connected =>
              if probeState != EfaProbe {
                probeState := SendReset;
              } else {
                probeState := EfaTxProbeAcks;
              }
              wait := 0;
              newState := true;
            case _ =>
              failed := true;
          }
      }
    }

    method AcceptAck(e: Env, waitIn: nat) returns (newState: bool, wait: nat)
      requires control.pending.Pending?
      modifies this
      ensures unchanged(`startTimeUs, `waitTimeoutMs)
      ensures Handled(State(), newState, wait) == HandleAck(old(State()), e, waitIn)
    {
      newState, wait := false, waitIn;
      var command := control.pending.command;
      control := control.(pending := NotPending, accepted := control.accepted + [control.pending.serial]);
      match command {
        case Reset =>
          hasProtocol := false;
          if e.senderVersion < 3 {
            if e.versionAccepted {
              hasProtocol := true;
              QueueEvent(QueueEndpointStart);
              probeState := WaitForStart;
              wait := ENDPOINT_MANAGER_COMPLETION_TIMEOUT_MSEC;
            }
          } else {
            probeState := SendProtocolVersion;
            tx := tx.(retries := 0);
            wait := 0;
          }
          newState := true;
        case ProtocolVersion =>
          if e.versionAccepted {
            hasProtocol := true;
            QueueEvent(QueueEndpointStart);
            probeState := WaitForStart;
            wait := ENDPOINT_MANAGER_COMPLETION_TIMEOUT_MSEC;
            newState := true;
          }
        case Ping =>
          probeState := EfaConnected;
          wait := PingFrequency(e);
          newState := true;
        case Connected =>
          failed := true;
      }
    }

    method ProbeTxControlProcessProbeState(e: Env) returns (wait: nat)
      modifies this
      ensures unchanged(`startTimeUs, `waitTimeoutMs)
      ensures Acted(State(), wait) == TxAct(old(State()), e)
      ensures TxKeeps(old(State()), Acted(State(), wait))
    {
      hide TxKeeps, SendResetCommand, SendCommandRetry, StartBurst, AwaitProbeAcks;
      TxActKeeps(State(), e);
      wait := DEFAULT_TIMEOUT_MSEC;
      match probeState {
        case Resetting =>
          wait := TxRepeatReset(Resetting, SEND_RESET_COMMAND_FREQUENCY_MSEC);
        case WaitForStart =>
          wait := TxRepeatReset(WaitForStart, SEND_RESET_COMMAND_FREQUENCY_MSEC);
        case EfaReset =>
          ProbeControlEfaConnectionQueueReset();
          wait := TxRepeatReset(Resetting, ENDPOINT_MANAGER_COMPLETION_TIMEOUT_MSEC);
        case ResetDone =>
          SendSavedAck();
          probeState := WaitForStart;
          wait := ENDPOINT_MANAGER_COMPLETION_TIMEOUT_MSEC;
        case Idle =>
          wait := TxSendReset();
        case SendReset =>
          wait := TxSendReset();
        case SendProtocolVersion =>
          wait := ProcessSendCommandRetry(ProtocolVersion);
        case EfaStart =>
          wait := TxStartBurst(e);
        case EfaProbe =>
          probeState := EfaReset;
          wait := 0;
        case EfaTxProbeAcks =>
          wait := TxAwaitProbeAcks(e);
        case EfaConnected =>
          EndpointManagerConnectionStateChange(true);
          probeState := EfaConnectedPing;
          tx := tx.(retries := 0);
          wait := 0;
        case EfaConnectedPing =>
          wait := ProcessSendCommandRetry(Ping);
        case Destroy =>
      }
    }

    method TxSendReset() returns (wait: nat)
      modifies this
      ensures unchanged(`startTimeUs, `waitTimeoutMs)
      ensures Acted(State(), wait) == SendResetCommand(old(State()).Tell(false), SendReset, SEND_RESET_COMMAND_FREQUENCY_MSEC)
    {
      hide SendResetCommand;
      EndpointManagerConnectionStateChange(false);
      wait := TxRepeatReset(SendReset, SEND_RESET_COMMAND_FREQUENCY_MSEC);
    }

    method TxRepeatReset(next: ProbeState, waitMs: nat) returns (wait: nat)
      modifies this
      ensures unchanged(`startTimeUs, `waitTimeoutMs)
      ensures Acted(State(), wait) == SendResetCommand(old(State()), next, waitMs)
    {
      hide Numbered, TxNumbers;
      ProbeControlSendCommand(Reset, true);
      probeState := next;
      wait := waitMs;
    }

    method TxStartBurst(e: Env) returns (wait: nat)
      modifies this
      ensures unchanged(`startTimeUs, `waitTimeoutMs)
      ensures Acted(State(), wait) == StartBurst(old(State()), e)
    {
      var started := ProbeControlEfaConnectionStart(e);
      if !started {
        probeState := EfaReset;
        wait := SEND_RESET_COMMAND_FREQUENCY_MSEC;
      } else {
        tx := tx.(enqueued := 0);
        EfaEnqueueSendProbePacket();
        probeState := EfaProbe;
        wait := EFA_PROBE_MONITOR_TIMEOUT_MSEC;
      }
    }

    method TxAwaitProbeAcks(e: Env) returns (wait: nat)
      modifies this
      ensures unchanged(`startTimeUs, `waitTimeoutMs)
      ensures Acted(State(), wait) == AwaitProbeAcks(old(State()), e)
    {
      if tx.acked >= EFA_PROBE_PACKET_COUNT {
        ProbeControlEfaConnectionEnableApplication();
        probeState := EfaConnected;
        wait := if e.negotiatedVersion >= 5 then TX_CONNECTION_DELAY_MSEC else LEGACY_SEND_PING_COMMAND_FREQUENCY_MSEC;
      } else {
        tx := tx.(ackWaits := tx.ackWaits + 1);
        if tx.ackWaits < EFA_TX_PROBE_ACK_MAX_RETRIES {
          wait := EFA_TX_PROBE_ACK_TIMEOUT;
        } else {
          probeState := EfaReset;
          wait := 0;
        }
      }
    }

    // ----- Receiver -----

    method ProbeRxEfaMessageFromEndpoint(success: bool)
      modifies this
      ensures unchanged(`startTimeUs, `waitTimeoutMs)
      ensures State() == RxEfaMessage(old(State()), success)
      ensures old(RxSafe(State())) && old(probing) ==> RxSafe(State())
      ensures old(RxSafe(State())) && old(probing) && fifo != old(fifo) ==>
                !probing && PacketsSinceStart(events) >= EFA_PROBE_PACKET_COUNT
    {
      hide RxSafe, PacketsSinceStart;
      if RxSafe(State()) && probing {
        EnabledByBurst(State(), success);
      }
      if success {
        QueueEvent(EfaPacketReceived);
        rx := rx.(received := rx.received + 1);
        if rx.received >= EFA_PROBE_PACKET_COUNT {
          ProbeControlEfaConnectionEnableApplication();
        }
      }
    }

    method DestroyRxEndpoint()
      modifies this`events, this`probeState
      ensures State() == ProbeRx.DestroyRxEndpoint(old(State()))
      ensures forall e :: RxAct(State(), e).probe == State()
    {
      QueueEvent(DestroyEndpoint);
      probeState := Destroy;
    }

    method ProbeRxControlProcessPacket(m: Message, e: Env, waitIn: nat) returns (newState: bool, wait: nat)
      modifies this
      ensures unchanged(`startTimeUs, `waitTimeoutMs)
      ensures Handled(State(), newState, wait) == RxPacketHandled(old(State()), m, e, waitIn)
      ensures RxKeepsOn(old(State()), m, State())
    {
      hide RxKeepsOn, ProbeRx.HandleReset, HandleProtocolVersion, Numbered, AcksOk, Acknowledges;
      RxPacketKeeps(State(), m, e, waitIn);
      newState, wait := false, waitIn;
      match m {
        case AckMessage(_, _, _, _, _) =>
          failed := true;
        case CommandMessage(command, num, serial) =>
          control := control.(processed := control.processed + {serial});
          match command {
            case Reset =>
              RemoteReset(m, e);
              wait := 0;
              newState := true;
            case ProtocolVersion =>
              newState, wait := RemoteVersion(m, e, wait);
            case Ping =>
              probeState := EfaConnectedPing;
              wait := RX_PING_MONITOR_TIMEOUT_MSEC;
              newState := true;
              ProbeControlSendAck(command, num, serial);
            case Connected =>
              failed := true;
          }
      }
    }

    method RemoteReset(m: Message, e: Env)
      requires m.CommandMessage?
      modifies this
      ensures unchanged(`startTimeUs, `waitTimeoutMs)
      ensures Handled(State(), true, 0) == ProbeRx.HandleReset(old(State()), m, e)
    {
      probeState := EfaReset;
      hasProtocol := false;
      if e.senderVersion < 3 {
        if !e.versionAccepted {
          return;
        }
        hasProtocol := true;
      }
      SaveAck(m);
    }

    method RemoteVersion(m: Message, e: Env, waitIn: nat) returns (newState: bool, wait: nat)
      requires m.CommandMessage?
      modifies this
      ensures unchanged(`startTimeUs, `waitTimeoutMs)
      ensures Handled(State(), newState, wait) == HandleProtocolVersion(old(State()), m, e, waitIn)
    {
      newState, wait := false, waitIn;
      if !e.versionAccepted {
        return;
      }
      hasProtocol := true;
      QueueEvent(QueueEndpointStart);
      probeState := WaitForStart;
      wait := ENDPOINT_MANAGER_COMPLETION_TIMEOUT_MSEC;
      newState := true;
      SaveAck(m);
    }

    method ProbeRxControlProcessProbeState(e: Env) returns (wait: nat)
      modifies this
      ensures unchanged(`startTimeUs, `waitTimeoutMs)
      ensures Acted(State(), wait) == RxAct(old(State()), e)
      ensures RxKeeps(old(State()), Acted(State(), wait))
    {
      hide RxKeeps, Numbered, TxNumbers, ResetRemote, StartAndReply, ResetIsDone, BecomeConnected, PingMissed;
      RxActKeeps(State(), e);
      wait := DEFAULT_TIMEOUT_MSEC;
      match probeState {
        case EfaStart =>
          wait := RxStart(e);
        case WaitForStart =>
          wait := RxStart(e);
        case Resetting =>
          ProbeControlSendCommand(Reset, true);
          wait := SEND_RESET_COMMAND_FREQUENCY_MSEC;
        case EfaReset =>
          ProbeControlEfaConnectionQueueReset();
          probeState := Resetting;
          wait := ENDPOINT_MANAGER_COMPLETION_TIMEOUT_MSEC;
        case Idle =>
          wait := RxResetRemote(e);
        case SendReset =>
          wait := RxResetRemote(e);
        case ResetDone =>
          wait := RxResetIsDone();
        case EfaProbe =>
          probeState := SendReset;
          wait := 0;
        case EfaConnected =>
          wait := RxBecomeConnected(e);
        case EfaConnectedPing =>
          wait := RxPingMissed(e);
        case _ =>
      }
    }

    method RxStart(e: Env) returns (wait: nat)
      modifies this
      ensures unchanged(`startTimeUs, `waitTimeoutMs)
      ensures Acted(State(), wait) == StartAndReply(old(State()))
    {
      var _ := ProbeControlEfaConnectionStart(e);
      SendSavedAck();
      probeState := EfaProbe;
      wait := SEND_RESET_COMMAND_FREQUENCY_MSEC;
    }

    method RxResetRemote(e: Env) returns (wait: nat)
      modifies this
      ensures unchanged(`startTimeUs, `waitTimeoutMs)
      ensures Acted(State(), wait) == ResetRemote(old(State()), e)
    {
      EndpointManagerConnectionStateChange(false);
      rx := rx.(resetRetries := rx.resetRetries + 1);
      if rx.resetRetries < RX_RESET_COMMAND_MAX_RETRIES {
        if e.hasControlInterface {
          ProbeControlSendCommand(Reset, false);
        }
        probeState := SendReset;
        wait := SEND_RESET_COMMAND_FREQUENCY_MSEC;
      } else {
        DestroyRxEndpoint();
        wait := 0;
      }
    }

    method RxResetIsDone() returns (wait: nat)
      modifies this
      ensures unchanged(`startTimeUs, `waitTimeoutMs)
      ensures Acted(State(), wait) == ResetIsDone(old(State()))
    {
      if hasProtocol {
        QueueEvent(QueueEndpointStart);
        probeState := WaitForStart;
        wait := ENDPOINT_MANAGER_COMPLETION_TIMEOUT_MSEC;
      } else if control.reply.Reply? {
        SendSavedAck();
        probeState := EfaProbe;
        wait := EFA_PROBE_MONITOR_TIMEOUT_MSEC;
      } else {
        probeState := SendReset;
        wait := 0;
      }
    }

    method RxBecomeConnected(e: Env) returns (wait: nat)
      modifies this
      ensures unchanged(`startTimeUs, `waitTimeoutMs)
      ensures Acted(State(), wait) == BecomeConnected(old(State()), e)
    {
      EndpointManagerConnectionStateChange(true);
      ProbeControlSendCommand(Connected, false);
      rx := rx.(resetRetries := 0, snapshot := e.totalPackets);
      probeState := EfaConnectedPing;
      wait := RX_PING_MONITOR_TIMEOUT_MSEC;
    }

    method RxPingMissed(e: Env) returns (wait: nat)
      modifies this
      ensures unchanged(`startTimeUs, `waitTimeoutMs)
      ensures Acted(State(), wait) == PingMissed(old(State()), e)
    {
      if rx.snapshot != e.totalPackets {
        rx := rx.(resetRetries := 0, snapshot := e.totalPackets);
        wait := RX_PING_MONITOR_TIMEOUT_MSEC;
      } else {
        DestroyRxEndpoint();
        wait := 0;
      }
    }

    // ----- The thread -----

    method ProcessProbeState(e: Env) returns (wait: nat)
      modifies this
      ensures unchanged(`startTimeUs, `waitTimeoutMs)
      ensures Acted(State(), wait) == Act(old(State()), e)
    {
      hide TxAct, RxAct;
      if direction == Send {
        wait := ProbeTxControlProcessProbeState(e);
      } else {
        wait := ProbeRxControlProcessProbeState(e);
      }
    }

    /** Takes a command from the queue; a packet that leads to a new state restarts the wait. */
    method TakeCommand(packetUs: nat, e: Env)
      requires fifo != []
      modifies this
      ensures var h := Take(old(State()), e, old(waitTimeoutMs));
              && State() == h.probe && waitTimeoutMs == h.wait
              && startTimeUs == if old(fifo)[0].RxPacket? && h.newState then packetUs else old(startTimeUs)
    {
      hide TxPacket, RxPacketHandled;
      var command := fifo[0];
      fifo := fifo[1..];
      match command {
        case StateChange(s) =>
          probeState := s;
          waitTimeoutMs := 0;
        case RxPacket(m) =>
          var newState, wait;
          if direction == Send {
            newState, wait := ProbeTxControlProcessPacket(m, e, waitTimeoutMs);
          } else {
            newState, wait := ProbeRxControlProcessPacket(m, e, waitTimeoutMs);
          }
          waitTimeoutMs := wait;
          if newState {
            startTimeUs := packetUs;
          }
      }
    }

    /** The body of the thread's loop, for the commands that have arrived in the queue. */
    method ProbeControlThreadRound(tick: Tick)
      requires CanTick(ThreadState(), tick)
      modifies this
      ensures ThreadState() == Round(old(ThreadState()), tick)
    {
      hide Take, ActUntilWait;
      fifo := fifo + tick.arrivals;
      if tick.read {
        TakeCommand(tick.packetUs, tick.e);
      }
      var elapsedTimeMs: nat := (tick.checkUs - startTimeUs) / 1000;
      if elapsedTimeMs < waitTimeoutMs {
        waitTimeoutMs := waitTimeoutMs - elapsedTimeMs;
      } else {
        ProcessUntilWait(tick.e);
      }
      startTimeUs := tick.doneUs;
    }

    method ProcessUntilWait(e: Env)
      modifies this
      ensures unchanged(`startTimeUs)
      ensures Acted(State(), waitTimeoutMs) == ActUntilWait(old(State()), e)
    {
      hide Act, Rank;
      RankFalls(State(), e);
      waitTimeoutMs := ProcessProbeState(e);
      while 0 == waitTimeoutMs
        invariant startTimeUs == old(startTimeUs)
        invariant if waitTimeoutMs == 0 then ActUntilWait(State(), e) == ActUntilWait(old(State()), e)
                  else Acted(State(), waitTimeoutMs) == ActUntilWait(old(State()), e)
        decreases waitTimeoutMs == 0, Rank(State())
      {
        RankFalls(State(), e);
        waitTimeoutMs := ProcessProbeState(e);
      }
    }
  }
}

/** The EFA probe: the state of one probe endpoint, transmitter or receiver, and the actions both share. */
module Probe {
  import opened InFlight

  type Positive = x: int | x > 0 witness 1
  type U16 = x: int | 0 <= x < 0x1_0000

  // Counts and timeouts of src/cdi/configuration.h. Nothing depends on their values, only on their being positive.
  const EFA_PROBE_PACKET_COUNT: Positive
  const TX_COMMAND_MAX_RETRIES: Positive
  const TX_COMMAND_ACK_TIMEOUT_MSEC: Positive
  const RX_RESET_COMMAND_MAX_RETRIES: Positive
  const SEND_RESET_COMMAND_FREQUENCY_MSEC: Positive
  const ENDPOINT_MANAGER_COMPLETION_TIMEOUT_MSEC: Positive
  const TX_CONNECTION_DELAY_MSEC: Positive
  const SEND_PING_COMMAND_FREQUENCY_MSEC: Positive
  const LEGACY_SEND_PING_COMMAND_FREQUENCY_MSEC: Positive
  const RX_PING_MONITOR_TIMEOUT_MSEC: Positive
  const EFA_TX_PROBE_ACK_TIMEOUT: Positive
  const EFA_TX_PROBE_ACK_MAX_RETRIES: Positive
  const EFA_PROBE_MONITOR_TIMEOUT_MSEC: Positive
  const DEFAULT_TIMEOUT_MSEC: Positive

  datatype Direction = Send | Receive

  datatype ProbeState =
    | Idle | SendReset | SendProtocolVersion | Resetting | ResetDone | WaitForStart | EfaStart | EfaProbe
    | EfaTxProbeAcks | EfaConnected | EfaConnectedPing | EfaReset | Destroy

  datatype Command = Reset | Ping | Connected | ProtocolVersion

  /** A control packet. `num` is its 16-bit number. `serial` counts the sender's packets without wrapping; it is
      not on the wire and no action depends on it, it only tells packets with equal numbers apart. */
  datatype Message =
    | CommandMessage(command: Command, num: U16, serial: nat)
    | AckMessage(num: U16, serial: nat, ackCommand: Command, ackNum: U16, ackSerial: nat)

  datatype ControlCommand = StateChange(state: ProbeState) | RxPacket(message: Message)

  /** What a probe does that others can see, besides sending control packets. */
  datatype Event =
    | TellConnected | TellDisconnected
    | QueueEndpointReset | QueueEndpointStart | DestroyEndpoint
    | EfaStarted | EfaPacketReceived | EfaPacketQueued(sequence: nat, last: bool)

  /** Answers from code outside the model. */
  datatype Env = Env(
    senderVersion: nat,       // probe version in the received packet
    versionAccepted: bool,    // EfaAdapterEndpointProtocolVersionSet succeeds
    startSucceeds: bool,      // EfaAdapterEndpointStart succeeds
    negotiatedVersion: nat,   // probe version of the negotiated protocol
    totalPackets: nat,        // packets received by the endpoint so far
    hasControlInterface: bool)

  /** A command that was sent and is to be acknowledged. */
  datatype Pending = NotPending | Pending(command: Command, num: U16, serial: nat)

  /** A received command that is to be acknowledged later. */
  datatype Reply = NoReply | Reply(command: Command, num: U16, serial: nat)

  /** The control packets of a probe. `sent`, `accepted` (pending commands whose acknowledgement was accepted)
      and `processed` (received commands) only record what happened. */
  datatype Control = Control(num: U16, pending: Pending, reply: Reply, sent: seq<Message>, accepted: seq<nat>, processed: set<nat>)
  {
    /** The number is incremented before it is used. */
    function Next(): U16 {
      (num + 1) % 0x1_0000
    }

    function Send(command: Command): Control {
      this.(num := Next(), sent := sent + [CommandMessage(command, Next(), |sent|)])
    }

    function SendExpectingAck(command: Command): Control {
      Send(command).(pending := Pending(command, Next(), |sent|))
    }

    function SendAck(command: Command, ackNum: U16, ackSerial: nat): Control {
      this.(num := Next(), sent := sent + [AckMessage(Next(), |sent|, command, ackNum, ackSerial)])
    }

    /** Acknowledges the saved command, if there is one. */
    function SendReply(): Control {
      if reply.Reply? then SendAck(reply.command, reply.num, reply.serial).(reply := NoReply) else this
    }

    function Accept(): Control
      requires pending.Pending?
    {
      this.(pending := NotPending, accepted := accepted + [pending.serial])
    }

    function Process(m: Message): Control {
      this.(processed := processed + {m.serial})
    }
  }

  /** Counters of a transmitter: command retries, probe packets queued and acknowledged, waits for their
      acknowledgements, and the endpoint's in-flight count. */
  datatype TxCounters = TxCounters(retries: nat, enqueued: nat, acked: nat, ackWaits: nat, inFlight: RefCount)

  /** Counters of a receiver: reset retries, probe packets received, and a snapshot of the packet count. */
  datatype RxCounters = RxCounters(resetRetries: nat, received: nat, snapshot: nat)

  /** The state of a probe endpoint. `events` records what happened; `failed` records a failed assertion. */
  datatype Probe = Probe(
    direction: Direction, state: ProbeState, tx: TxCounters, rx: RxCounters,
    probing: bool, connected: bool, hasVersion: bool,
    control: Control, fifo: seq<ControlCommand>, events: seq<Event>, failed: bool)
  {
    function Do(e: Event): Probe {
      this.(events := events + [e])
    }

    function Tell(status: bool): Probe {
      this.(connected := status, events := events + [if status then TellConnected else TellDisconnected])
    }

    function Post(s: ProbeState): Probe {
      this.(fifo := fifo + [StateChange(s)])
    }

    function QueueReset(): Probe {
      this.(connected := false, events := events + [TellDisconnected, QueueEndpointReset])
    }

    function EnableApplication(): Probe {
      this.(probing := false, fifo := fifo + [StateChange(EfaConnected)])
    }

    /** An error on the endpoint disconnects it, when it is connected. */
    function EndpointError(): Probe {
      if connected then Tell(false).Post(EfaReset) else this
    }

    function EfaConnectionStart(): Probe {
      if direction == Send then
        this.(probing := true, events := events + [EfaStarted],
              tx := tx.(retries := 0, acked := 0, ackWaits := 0, inFlight := tx.inFlight.(value := 1)))
      else this.(probing := true, events := events + [EfaStarted], rx := rx.(resetRetries := 0, received := 0))
    }
  }

  /** A probe in a state change: the time to wait before the next one; zero means immediately. */
  datatype Acted = Acted(probe: Probe, wait: nat)

  /** A probe after a control packet: whether it has a new state, and the time to wait. */
  datatype Handled = Handled(probe: Probe, newState: bool, wait: nat)
}

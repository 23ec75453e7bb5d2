/** A transmitter and a receiver that talk over a channel that drops, duplicates and reorders control packets. */
module ProbeSystem {
  import opened Probe
  import opened ProbeTx
  import opened ProbeRx

  datatype System = System(tx: Probe, rx: Probe)

  function NewProbe(direction: Direction): Probe {
    Probe(direction, if direction == Send then Idle else SendReset, TxCounters(0, 0, 0, 0, InFlight.RefCount(0, false)), RxCounters(0, 0, 0),
          false, false, false, Control(0, NotPending, NoReply, [], [], {}), [], [], false)
  }

  predicate Init(s: System) {
    s == System(NewProbe(Send), NewProbe(Receive))
  }

  /** What the Endpoint Manager and the adapter may post, and when. */
  predicate MayPost(p: Probe, s: ProbeState) {
    s == ResetDone || (s == EfaStart && p.state == WaitForStart)
  }

  /** The control thread takes a command from the queue. */
  function TxTake(p: Probe, e: Env, wait: nat): Handled
    requires p.fifo != []
  {
    var q := p.(fifo := p.fifo[1..]);
    match p.fifo[0]
    case StateChange(s) => Handled(q.(state := s), true, 0)
    case RxPacket(m) => TxPacket(q, m, e, wait)
  }

  function RxTake(p: Probe, e: Env, wait: nat): Handled
    requires p.fifo != []
  {
    var q := p.(fifo := p.fifo[1..]);
    match p.fifo[0]
    case StateChange(s) => Handled(q.(state := s), true, 0)
    case RxPacket(m) => RxPacketHandled(q, m, e, wait)
  }

  datatype Step =
    | TxTakes(e: Env, wait: nat) | TxActs(e: Env) | TxAcked(success: bool, last: bool) | TxPosted(state: ProbeState) | TxError
    | TxDelivered(m: Message)
    | RxTakes(e: Env, wait: nat) | RxActs(e: Env) | RxPacketArrives(success: bool) | RxPosted(state: ProbeState) | RxError
    | RxDelivered(m: Message)

  /** Whether a step can happen. Delivery repeats any packet ever sent, in any order, or never. */
  predicate Enabled(s: System, step: Step) {
    match step
    case TxTakes(_, _) => s.tx.fifo != []
    case TxActs(_) => true
    case TxAcked(_, _) => s.tx.probing
    case TxPosted(state) => MayPost(s.tx, state)
    case TxError => true
    case TxDelivered(m) => m in s.rx.control.sent
    case RxTakes(_, _) => s.rx.fifo != []
    case RxActs(_) => true
    case RxPacketArrives(_) => s.rx.probing
    case RxPosted(state) => MayPost(s.rx, state)
    case RxError => true
    case RxDelivered(m) => m in s.tx.control.sent
  }

  function After(s: System, step: Step): System
    requires Enabled(s, step)
  {
    match step
    case TxTakes(e, wait) => s.(tx := TxTake(s.tx, e, wait).probe)
    case TxActs(e) => s.(tx := TxAct(s.tx, e).probe)
    case TxAcked(success, last) => s.(tx := TxEfaMessage(s.tx, success, last))
    case TxPosted(state) => s.(tx := s.tx.Post(state))
    case TxError => s.(tx := s.tx.EndpointError())
    case TxDelivered(m) => s.(tx := s.tx.(fifo := s.tx.fifo + [RxPacket(m)]))
    case RxTakes(e, wait) => s.(rx := RxTake(s.rx, e, wait).probe)
    case RxActs(e) => s.(rx := RxAct(s.rx, e).probe)
    case RxPacketArrives(success) => s.(rx := RxEfaMessage(s.rx, success))
    case RxPosted(state) => s.(rx := s.rx.Post(state))
    case RxError => s.(rx := s.rx.EndpointError())
    case RxDelivered(m) => s.(rx := s.rx.(fifo := s.rx.fifo + [RxPacket(m)]))
  }

  predicate Run(ss: seq<System>, steps: seq<Step>) {
    && |ss| == |steps| + 1 && Init(ss[0])
    && forall i :: 0 <= i < |steps| ==> Enabled(ss[i], steps[i]) && ss[i + 1] == After(ss[i], steps[i])
  }

  // ----- What the events say -----

  /** Probe packets received since the endpoint was last started; none before it is started. */
  function PacketsSinceStart(es: seq<Event>): nat {
    if es == [] then 0
    else
      var last := es[|es| - 1];
      if last.EfaStarted? then 0 else PacketsSinceStart(es[..|es| - 1]) + (if last.EfaPacketReceived? then 1 else 0)
  }

  /** At some moment, EFA_PROBE_PACKET_COUNT probe packets had been received within one start of the endpoint. */
  ghost predicate BurstReceived(es: seq<Event>) {
    exists n :: 0 <= n <= |es| && EfaStarted in es[..n] && PacketsSinceStart(es[..n]) >= EFA_PROBE_PACKET_COUNT
  }

  lemma {:induction false} BurstRemains(es: seq<Event>, more: seq<Event>)
    requires BurstReceived(es)
    ensures BurstReceived(es + more)
  {
    var n :| 0 <= n <= |es| && EfaStarted in es[..n] && PacketsSinceStart(es[..n]) >= EFA_PROBE_PACKET_COUNT;
    assert (es + more)[..n] == es[..n];
  }

  lemma {:induction false} PacketsSnoc(es: seq<Event>, e: Event)
    ensures PacketsSinceStart(es + [e])
            == if e.EfaStarted? then 0 else PacketsSinceStart(es) + (if e.EfaPacketReceived? then 1 else 0)
  {
    assert (es + [e])[..|es|] == es;
  }

  // ----- Causality -----

  predicate Told(p: Probe) {
    TellConnected in p.events
  }

  predicate FromTx(m: Message) {
    m.CommandMessage? && m.command != Connected
  }

  predicate FromRx(m: Message) {
    m.AckMessage? || m.command == Reset || m.command == Connected
  }

  predicate IsConnected(m: Message) {
    m.CommandMessage? && m.command == Connected
  }

  /** A queued command that the transmitter may read, given whether the receiver has told Connected. */
  predicate TxCommandOk(c: ControlCommand, rxTold: bool) {
    match c
    case StateChange(s) => rxTold || (!s.EfaTxProbeAcks? && !s.EfaConnected? && !s.EfaConnectedPing?)
    case RxPacket(m) => FromRx(m) && (rxTold || !IsConnected(m))
  }

  /** A queued command that the receiver may read, given whether a burst has been received. */
  predicate RxCommandOk(c: ControlCommand, burst: bool) {
    match c
    case StateChange(s) => burst || !s.EfaConnected?
    case RxPacket(m) => FromTx(m)
  }

  predicate TxSentOk(sent: seq<Message>) {
    forall i :: 0 <= i < |sent| ==> FromTx(sent[i])
  }

  predicate RxSentOk(sent: seq<Message>, told: bool) {
    forall i :: 0 <= i < |sent| ==> FromRx(sent[i]) && (told || !IsConnected(sent[i]))
  }

  predicate TxQueueOk(fifo: seq<ControlCommand>, rxTold: bool) {
    forall i :: 0 <= i < |fifo| ==> TxCommandOk(fifo[i], rxTold)
  }

  predicate RxQueueOk(fifo: seq<ControlCommand>, burst: bool) {
    forall i :: 0 <= i < |fifo| ==> RxCommandOk(fifo[i], burst)
  }

  /** States a transmitter is in only after its peer told Connected. */
  predicate Late(s: ProbeState) {
    s.EfaTxProbeAcks? || s.EfaConnected? || s.EfaConnectedPing?
  }

  /** Without the receiver's application having been told Connected, nothing leads the transmitter to Connected. */
  predicate TxSafe(t: Probe, rxTold: bool) {
    && t.direction == Send && t.control.reply.NoReply? && !t.failed
    && TxSentOk(t.control.sent) && TxQueueOk(t.fifo, rxTold)
    && (t.control.pending.Pending? ==> t.control.pending.command != Connected && (rxTold || t.control.pending.command != Ping))
    && (rxTold || (!Told(t) && !Late(t.state)))
  }

  /** Each time the application is told Connected, a burst has been received before. */
  ghost predicate TellsAfterBurst(es: seq<Event>) {
    forall i :: 0 <= i < |es| && es[i] == TellConnected ==> BurstReceived(es[..i])
  }

  /** The receiver moves to Connected only after a burst of probe packets, and says so only then. */
  ghost predicate RxSafe(r: Probe) {
    && r.direction == Receive && !r.failed
    && RxSentOk(r.control.sent, Told(r)) && RxQueueOk(r.fifo, BurstReceived(r.events))
    && RxEventsOk(r.events, r.rx.received, r.probing)
    && (r.state.EfaConnected? ==> BurstReceived(r.events))
  }

  ghost predicate RxEventsOk(es: seq<Event>, received: nat, probing: bool) {
    TellsAfterBurst(es) && received == PacketsSinceStart(es) && (probing ==> EfaStarted in es)
  }

  /** Every control packet in the queue was sent by the other side. */
  predicate Linked(fifo: seq<ControlCommand>, sent: seq<Message>) {
    forall i :: 0 <= i < |fifo| && fifo[i].RxPacket? ==> fifo[i].message in sent
  }

  ghost predicate Inv(s: System) {
    TxSafe(s.tx, Told(s.rx)) && RxSafe(s.rx) && Linked(s.tx.fifo, s.rx.control.sent) && Linked(s.rx.fifo, s.tx.control.sent)
  }

  /** An action appends to the records, and at most a state change to the queue. */
  ghost predicate Grows(p: Probe, q: Probe) {
    && p.control.sent <= q.control.sent && p.events <= q.events
    && (q.fifo == p.fifo || exists s :: q.fifo == p.fifo + [StateChange(s)])
  }

  lemma {:induction false} TxSentSnoc(sent: seq<Message>, m: Message)
    requires TxSentOk(sent) && FromTx(m)
    ensures TxSentOk(sent + [m])
  {
  }

  lemma {:induction false} TxQueueSnoc(fifo: seq<ControlCommand>, c: ControlCommand, told: bool)
    requires TxQueueOk(fifo, told) && TxCommandOk(c, told)
    ensures TxQueueOk(fifo + [c], told)
  {
  }

  lemma {:induction false} TxQueueTail(fifo: seq<ControlCommand>, told: bool)
    requires TxQueueOk(fifo, told) && fifo != []
    ensures TxCommandOk(fifo[0], told) && TxQueueOk(fifo[1..], told)
  {
  }

  ghost predicate TxGood(t: Probe, u: Probe, told: bool) {
    TxSafe(u, told) && Grows(t, u)
  }

  lemma {:induction false} TxTakeSafe(t: Probe, e: Env, wait: nat, told: bool)
    requires TxSafe(t, told) && t.fifo != []
    ensures var u := TxTake(t, e, wait).probe;
            TxSafe(u, told) && t.control.sent <= u.control.sent && t.events <= u.events && u.fifo == t.fifo[1..]
  {
    hide TxSentOk, TxQueueOk, HandleAck, ProbeTx.HandleReset;
    TxQueueTail(t.fifo, told);
    var q := t.(fifo := t.fifo[1..]);
    if t.fifo[0].RxPacket? {
      TxHandleResetSafe(q, e, wait, told);
      if q.control.pending.Pending? {
        TxHandleAckSafe(q, e, wait, told);
      }
    }
  }

  lemma {:induction false} TxHandleResetSafe(t: Probe, e: Env, wait: nat, told: bool)
    requires TxSafe(t, told)
    ensures var u := ProbeTx.HandleReset(t, e, wait).probe;
            TxSafe(u, told) && t.control.sent <= u.control.sent && t.events <= u.events && u.fifo == t.fifo
  {
    hide TxSentOk, TxQueueOk;
  }

  lemma {:induction false} TxHandleAckSafe(t: Probe, e: Env, wait: nat, told: bool)
    requires TxSafe(t, told) && t.control.pending.Pending?
    ensures var u := HandleAck(t, e, wait).probe;
            TxSafe(u, told) && t.control.sent <= u.control.sent && t.events <= u.events && u.fifo == t.fifo
  {
    hide TxSentOk, TxQueueOk;
  }

  lemma {:induction false} TxSendResetSafe(t: Probe, next: ProbeState, wait: nat, told: bool)
    requires TxSafe(t, told) && !Late(next)
    ensures TxGood(t, SendResetCommand(t, next, wait).probe, told)
  {
    hide TxSentOk, TxQueueOk;
    TxSentSnoc(t.control.sent, CommandMessage(Reset, t.control.Next(), |t.control.sent|));
  }

  lemma {:induction false} TxRetrySafe(t: Probe, command: Command, told: bool)
    requires TxSafe(t, told) && command != Connected && (told || command != Ping)
    ensures TxGood(t, SendCommandRetry(t, command).probe, told)
  {
    hide TxSentOk, TxQueueOk;
    TxSentSnoc(t.control.sent, CommandMessage(command, t.control.Next(), |t.control.sent|));
  }

  lemma {:induction false} TxBurstSafe(t: Probe, e: Env, told: bool)
    requires TxSafe(t, told)
    ensures TxGood(t, StartBurst(t, e).probe, told)
  {
    hide TxSentOk, TxQueueOk;
  }

  lemma {:induction false} TxAwaitSafe(t: Probe, e: Env, told: bool)
    requires TxSafe(t, told) && told
    ensures TxGood(t, AwaitProbeAcks(t, e).probe, told)
  {
    hide TxSentOk, TxQueueOk;
    TxQueueSnoc(t.fifo, StateChange(EfaConnected), told);
  }

  lemma {:induction false} TxActSafe(t: Probe, e: Env, told: bool)
    requires TxSafe(t, told)
    ensures TxGood(t, TxAct(t, e).probe, told)
  {
    hide TxSentOk, TxQueueOk, SendResetCommand, SendCommandRetry, StartBurst, AwaitProbeAcks;
    match t.state
    case Resetting => TxSendResetSafe(t, Resetting, SEND_RESET_COMMAND_FREQUENCY_MSEC, told);
    case WaitForStart => TxSendResetSafe(t, WaitForStart, SEND_RESET_COMMAND_FREQUENCY_MSEC, told);
    case EfaReset => TxSendResetSafe(t.QueueReset(), Resetting, ENDPOINT_MANAGER_COMPLETION_TIMEOUT_MSEC, told);
    case Idle => TxSendResetSafe(t.Tell(false), SendReset, SEND_RESET_COMMAND_FREQUENCY_MSEC, told);
    case SendReset => TxSendResetSafe(t.Tell(false), SendReset, SEND_RESET_COMMAND_FREQUENCY_MSEC, told);
    case SendProtocolVersion => TxRetrySafe(t, ProtocolVersion, told);
    case EfaStart => TxBurstSafe(t, e, told);
    case EfaTxProbeAcks => TxAwaitSafe(t, e, told);
    case EfaConnectedPing => TxRetrySafe(t, Ping, told);
    case _ =>
  }

  lemma {:induction false} TxEfaMessageSafe(t: Probe, success: bool, last: bool, told: bool)
    requires TxSafe(t, told)
    ensures TxGood(t, TxEfaMessage(t, success, last), told)
  {
    hide TxSentOk, TxQueueOk;
    TxQueueSnoc(t.fifo, StateChange(EfaReset), told);
  }

  lemma {:induction false} RxSentSnoc(sent: seq<Message>, m: Message, told: bool)
    requires RxSentOk(sent, told) && FromRx(m) && (told || !IsConnected(m))
    ensures RxSentOk(sent + [m], told)
  {
  }

  lemma {:induction false} RxQueueSnoc(fifo: seq<ControlCommand>, c: ControlCommand, burst: bool)
    requires RxQueueOk(fifo, burst) && RxCommandOk(c, burst)
    ensures RxQueueOk(fifo + [c], burst)
  {
  }

  lemma {:induction false} RxQueueTail(fifo: seq<ControlCommand>, burst: bool)
    requires RxQueueOk(fifo, burst) && fifo != []
    ensures RxCommandOk(fifo[0], burst) && RxQueueOk(fifo[1..], burst)
  {
  }

  lemma {:induction false} RxEventsSnoc(es: seq<Event>, received: nat, probing: bool, e: Event)
    requires RxEventsOk(es, received, probing) && (e.TellConnected? ==> BurstReceived(es))
    ensures BurstReceived(es) ==> BurstReceived(es + [e])
    ensures RxEventsOk(es + [e], if e.EfaStarted? then 0 else if e.EfaPacketReceived? then received + 1 else received,
                       probing || e.EfaStarted?)
  {
    PacketsSnoc(es, e);
    if BurstReceived(es) {
      BurstRemains(es, [e]);
    }
    var fs := es + [e];
    forall i | 0 <= i < |fs| && fs[i] == TellConnected
      ensures BurstReceived(fs[..i])
    {
      assert fs[..i] == es[..i];
      assert i < |es| || es[..i] == es;
    }
  }

  lemma {:induction false} RxMono(sent: seq<Message>, fifo: seq<ControlCommand>, told: bool, told': bool, burst: bool, burst': bool)
    requires RxSentOk(sent, told) && RxQueueOk(fifo, burst) && (told ==> told') && (burst ==> burst')
    ensures RxSentOk(sent, told') && RxQueueOk(fifo, burst')
  {
  }

  ghost predicate RxGood(r: Probe, u: Probe) {
    RxSafe(u) && Grows(r, u)
  }

  /** Recording an event, with the counters and the state it goes with, is safe. */
  lemma {:induction false} RxRecords(r: Probe, e: Event)
    requires RxSafe(r) && !r.state.EfaConnected? && (e.TellConnected? ==> BurstReceived(r.events))
    ensures var received := if e.EfaStarted? then 0 else if e.EfaPacketReceived? then r.rx.received + 1 else r.rx.received;
            RxSafe(r.(events := r.events + [e], rx := r.rx.(received := received), probing := r.probing || e.EfaStarted?))
  {
    hide RxSentOk, RxQueueOk, RxEventsOk, BurstReceived;
    RxEventsSnoc(r.events, r.rx.received, r.probing, e);
    RxMono(r.control.sent, r.fifo, Told(r), Told(r.Do(e)), BurstReceived(r.events), BurstReceived(r.events + [e]));
  }

  lemma {:induction false} RxSends(r: Probe, command: Command)
    requires RxSafe(r) && (command == Reset || (command == Connected && Told(r)))
    ensures RxGood(r, r.(control := r.control.Send(command)))
    ensures command == Reset ==> RxGood(r, r.(control := r.control.SendExpectingAck(command)))
  {
    hide RxSentOk, RxQueueOk, RxEventsOk, BurstReceived;
    RxSentSnoc(r.control.sent, CommandMessage(command, r.control.Next(), |r.control.sent|), Told(r));
  }

  lemma {:induction false} RxReplies(r: Probe, command: Command, num: U16, serial: nat)
    requires RxSafe(r)
    ensures RxGood(r, r.(control := r.control.SendAck(command, num, serial)))
    ensures RxGood(r, r.(control := r.control.SendReply()))
  {
    hide RxSentOk, RxQueueOk, RxEventsOk, BurstReceived;
    RxSentSnoc(r.control.sent, AckMessage(r.control.Next(), |r.control.sent|, command, num, serial), Told(r));
    if r.control.reply.Reply? {
      var a := r.control.reply;
      RxSentSnoc(r.control.sent, AckMessage(r.control.Next(), |r.control.sent|, a.command, a.num, a.serial), Told(r));
    }
  }

  lemma {:induction false} RxHandleResetSafe(r: Probe, m: Message, e: Env)
    requires RxSafe(r) && m.CommandMessage?
    ensures RxGood(r, ProbeRx.HandleReset(r, m, e).probe) && ProbeRx.HandleReset(r, m, e).probe.fifo == r.fifo
  {
    hide RxSentOk, RxQueueOk, RxEventsOk, BurstReceived;
  }

  lemma {:induction false} RxHandleVersionSafe(r: Probe, m: Message, e: Env, wait: nat)
    requires RxSafe(r) && m.CommandMessage?
    ensures RxGood(r, HandleProtocolVersion(r, m, e, wait).probe) && HandleProtocolVersion(r, m, e, wait).probe.fifo == r.fifo
  {
    hide RxSentOk, RxQueueOk, RxEventsOk, BurstReceived;
    RxRecords(r.(state := WaitForStart), QueueEndpointStart);
  }

  lemma {:induction false} RxTakeSafe(r: Probe, e: Env, wait: nat)
    requires RxSafe(r) && r.fifo != []
    ensures var u := RxTake(r, e, wait).probe;
            RxSafe(u) && r.control.sent <= u.control.sent && r.events <= u.events && u.fifo == r.fifo[1..]
  {
    hide RxSentOk, RxQueueOk, RxEventsOk, BurstReceived, RxPacketHandled;
    RxQueueTail(r.fifo, BurstReceived(r.events));
    if r.fifo[0].RxPacket? {
      RxPacketSafe(r.(fifo := r.fifo[1..]), r.fifo[0].message, e, wait);
    }
  }

  lemma {:induction false} RxPacketSafe(r: Probe, m: Message, e: Env, wait: nat)
    requires RxSafe(r) && FromTx(m)
    ensures var u := RxPacketHandled(r, m, e, wait).probe;
            RxSafe(u) && r.control.sent <= u.control.sent && r.events <= u.events && u.fifo == r.fifo
  {
    hide RxSentOk, RxQueueOk, RxEventsOk, BurstReceived, ProbeRx.HandleReset, HandleProtocolVersion;
    var q := r.(control := r.control.Process(m));
    match m.command
    case Reset => RxHandleResetSafe(q, m, e);
    case ProtocolVersion => RxHandleVersionSafe(q, m, e, wait);
    case Ping => RxReplies(q, m.command, m.num, m.serial);
    case _ =>
  }

  lemma {:induction false} RxResetRemoteSafe(r: Probe, e: Env)
    requires RxSafe(r) && !r.state.EfaConnected?
    ensures RxGood(r, ResetRemote(r, e).probe)
  {
    hide RxSentOk, RxQueueOk, RxEventsOk, BurstReceived;
    RxRecords(r, TellDisconnected);
    RxSends(r.Tell(false), Reset);
    RxRecords(r.Tell(false), DestroyEndpoint);
  }

  lemma {:induction false} RxStartSafe(r: Probe)
    requires RxSafe(r) && !r.state.EfaConnected?
    ensures RxGood(r, StartAndReply(r).probe)
  {
    hide RxSentOk, RxQueueOk, RxEventsOk, BurstReceived;
    RxRecords(r, EfaStarted);
    var q := r.EfaConnectionStart();
    assert RxSafe(q);
    RxReplies(q, Reset, 0, 0);
  }

  lemma {:induction false} RxResetIsDoneSafe(r: Probe)
    requires RxSafe(r) && !r.state.EfaConnected?
    ensures RxGood(r, ResetIsDone(r).probe)
  {
    hide RxSentOk, RxQueueOk, RxEventsOk, BurstReceived;
    RxRecords(r, QueueEndpointStart);
    RxReplies(r, Reset, 0, 0);
  }

  lemma {:induction false} RxConnectedSafe(r: Probe, e: Env)
    requires RxSafe(r) && r.state.EfaConnected?
    ensures RxGood(r, BecomeConnected(r, e).probe)
  {
    hide RxSentOk, RxQueueOk, RxEventsOk, BurstReceived;
    var q := r.(state := EfaConnectedPing);
    RxRecords(q, TellConnected);
    RxSends(q.Tell(true), Connected);
  }

  lemma {:induction false} RxPingMissedSafe(r: Probe, e: Env)
    requires RxSafe(r) && !r.state.EfaConnected?
    ensures RxGood(r, PingMissed(r, e).probe)
  {
    hide RxSentOk, RxQueueOk, RxEventsOk, BurstReceived;
    RxRecords(r, DestroyEndpoint);
  }

  lemma {:induction false} RxEfaResetSafe(r: Probe)
    requires RxSafe(r) && !r.state.EfaConnected?
    ensures RxGood(r, r.QueueReset())
  {
    hide RxSentOk, RxQueueOk, RxEventsOk, BurstReceived;
    RxRecords(r, TellDisconnected);
    RxRecords(r.Do(TellDisconnected), QueueEndpointReset);
    assert r.events + [TellDisconnected, QueueEndpointReset] == r.events + [TellDisconnected] + [QueueEndpointReset];
  }

  lemma {:induction false} RxActSafe(r: Probe, e: Env)
    requires RxSafe(r)
    ensures RxGood(r, RxAct(r, e).probe)
  {
    hide RxSentOk, RxQueueOk, RxEventsOk, BurstReceived, ResetRemote, StartAndReply, ResetIsDone, BecomeConnected, PingMissed;
    match r.state
    case EfaStart => RxStartSafe(r);
    case WaitForStart => RxStartSafe(r);
    case Resetting => RxSends(r, Reset);
    case EfaReset => RxEfaResetSafe(r);
    case Idle => RxResetRemoteSafe(r, e);
    case SendReset => RxResetRemoteSafe(r, e);
    case ResetDone => RxResetIsDoneSafe(r);
    case EfaConnected => RxConnectedSafe(r, e);
    case EfaConnectedPing => RxPingMissedSafe(r, e);
    case _ =>
  }

  lemma {:induction false} BurstCompletes(es: seq<Event>, received: nat)
    requires RxEventsOk(es, received, true) && received >= EFA_PROBE_PACKET_COUNT
    ensures BurstReceived(es)
  {
    assert es[..|es|] == es;
  }

  lemma {:induction false} NotProbing(es: seq<Event>, received: nat)
    requires RxEventsOk(es, received, true)
    ensures RxEventsOk(es, received, false)
  {
  }

  /** The packet that completes a burst is counted before the application is enabled. */
  lemma {:induction false} RxEfaMessageSafe(r: Probe, success: bool)
    requires RxSafe(r) && r.probing
    ensures RxGood(r, RxEfaMessage(r, success))
  {
    hide RxSentOk, RxQueueOk, RxEventsOk, BurstReceived;
    if success {
      var es := r.events + [EfaPacketReceived];
      var received := r.rx.received + 1;
      RxEventsSnoc(r.events, r.rx.received, r.probing, EfaPacketReceived);
      RxMono(r.control.sent, r.fifo, Told(r), Told(r.Do(EfaPacketReceived)), BurstReceived(r.events), BurstReceived(es));
      if received >= EFA_PROBE_PACKET_COUNT {
        BurstCompletes(es, received);
        NotProbing(es, received);
        RxQueueSnoc(r.fifo, StateChange(EfaConnected), BurstReceived(es));
      }
    }
  }

  // ----- Runs -----

  lemma {:induction false} InitSafe(s: System)
    requires Init(s)
    ensures Inv(s)
  {
  }

  lemma {:induction false} LinkedAfter(p: Probe, q: Probe, sent: seq<Message>, more: seq<Message>)
    requires Linked(p.fifo, sent) && sent <= more
    requires q.fifo == p.fifo || (p.fifo != [] && q.fifo == p.fifo[1..]) || exists s :: q.fifo == p.fifo + [StateChange(s)]
    ensures Linked(q.fifo, more)
  {
    assert more == sent + more[|sent|..];
  }

  lemma {:induction false} LinkedDelivered(fifo: seq<ControlCommand>, sent: seq<Message>, m: Message)
    requires Linked(fifo, sent) && m in sent
    ensures Linked(fifo + [RxPacket(m)], sent)
  {
  }

  lemma {:induction false} ToldRemains(p: Probe, q: Probe)
    requires Told(p) && p.events <= q.events
    ensures Told(q)
  {
    assert q.events == p.events + q.events[|p.events|..];
  }

  lemma {:induction false} TxSafeMono(t: Probe, told: bool, told': bool)
    requires TxSafe(t, told) && (told ==> told')
    ensures TxSafe(t, told')
  {
  }

  lemma {:induction false} SentByRx(r: Probe, m: Message)
    requires RxSafe(r) && m in r.control.sent
    ensures FromRx(m) && (Told(r) || !IsConnected(m))
  {
  }

  lemma {:induction false} SentByTx(t: Probe, told: bool, m: Message)
    requires TxSafe(t, told) && m in t.control.sent
    ensures FromTx(m)
  {
  }

  /** Every step of the transmitter keeps the invariant. */
  lemma {:induction false} TxStepKeeps(s: System, step: Step)
    requires Inv(s) && Enabled(s, step)
    requires step.TxTakes? || step.TxActs? || step.TxAcked? || step.TxPosted? || step.TxError? || step.TxDelivered?
    ensures Inv(After(s, step))
  {
    hide TxSentOk, TxQueueOk, RxSafe, TxAct, TxTake, TxEfaMessage, Linked;
    var told := Told(s.rx);
    var u := After(s, step).tx;
    match step {
    case TxTakes(e, wait) => TxTakeSafe(s.tx, e, wait, told);
    case TxActs(e) => TxActSafe(s.tx, e, told);
    case TxAcked(success, last) => TxEfaMessageSafe(s.tx, success, last, told);
    case TxPosted(state) => TxQueueSnoc(s.tx.fifo, StateChange(state), told);
    case TxError => TxQueueSnoc(s.tx.fifo, StateChange(EfaReset), told);
    case TxDelivered(m) =>
      SentByRx(s.rx, m);
      TxQueueSnoc(s.tx.fifo, RxPacket(m), told);
      LinkedDelivered(s.tx.fifo, s.rx.control.sent, m);
    }
    if !step.TxDelivered? {
      LinkedAfter(s.tx, u, s.rx.control.sent, s.rx.control.sent);
    }
    LinkedAfter(s.rx, s.rx, s.tx.control.sent, u.control.sent);
  }

  /** Every step of the receiver keeps the invariant. */
  lemma {:induction false} RxStepKeeps(s: System, step: Step)
    requires Inv(s) && Enabled(s, step)
    requires step.RxTakes? || step.RxActs? || step.RxPacketArrives? || step.RxPosted? || step.RxError? || step.RxDelivered?
    ensures Inv(After(s, step))
  {
    hide TxSafe, RxSentOk, RxQueueOk, RxEventsOk, BurstReceived, RxAct, RxTake, RxEfaMessage, Linked;
    var r := s.rx;
    var u := After(s, step).rx;
    match step {
    case RxTakes(e, wait) => RxTakeSafe(r, e, wait);
    case RxActs(e) => RxActSafe(r, e);
    case RxPacketArrives(success) => RxEfaMessageSafe(r, success);
    case RxPosted(state) => RxQueueSnoc(r.fifo, StateChange(state), BurstReceived(r.events));
    case RxError => RxErrorSafe(r);
    case RxDelivered(m) =>
      SentByTx(s.tx, Told(r), m);
      RxQueueSnoc(r.fifo, RxPacket(m), BurstReceived(r.events));
      LinkedDelivered(r.fifo, s.tx.control.sent, m);
    }
    if !step.RxDelivered? {
      LinkedAfter(r, u, s.tx.control.sent, s.tx.control.sent);
    }
    if Told(r) {
      ToldRemains(r, u);
    }
    TxSafeMono(s.tx, Told(r), Told(u));
    LinkedAfter(s.tx, s.tx, r.control.sent, u.control.sent);
  }

  lemma {:induction false} RxErrorSafe(r: Probe)
    requires RxSafe(r)
    ensures RxGood(r, r.EndpointError())
  {
    hide RxSentOk, RxQueueOk, RxEventsOk, BurstReceived;
    RxEventsSnoc(r.events, r.rx.received, r.probing, TellDisconnected);
    var es := r.events + [TellDisconnected];
    RxMono(r.control.sent, r.fifo, Told(r), Told(r.Tell(false)), BurstReceived(r.events), BurstReceived(es));
    RxQueueSnoc(r.fifo, StateChange(EfaReset), BurstReceived(es));
  }

  lemma {:induction false} InvKept(s: System, step: Step)
    requires Inv(s) && Enabled(s, step)
    ensures Inv(After(s, step))
  {
    hide Inv;
    if step.TxTakes? || step.TxActs? || step.TxAcked? || step.TxPosted? || step.TxError? || step.TxDelivered? {
      TxStepKeeps(s, step);
    } else {
      RxStepKeeps(s, step);
    }
  }

  lemma {:induction false} InvHolds(ss: seq<System>, steps: seq<Step>, i: nat)
    requires Run(ss, steps) && i < |ss|
    ensures Inv(ss[i])
  {
    hide Inv;
    if i == 0 {
      InitSafe(ss[0]);
    } else {
      InvHolds(ss, steps, i - 1);
      InvKept(ss[i - 1], steps[i - 1]);
    }
  }

  /** Connection safety: in every run, when the transmitter's application is told Connected, the receiver's
      application has been told Connected before, and whenever the receiver's application is told Connected it has
      received EFA_PROBE_PACKET_COUNT probe packets within one start of its endpoint before. */
  lemma {:induction false} ConnectedInOrder(ss: seq<System>, steps: seq<Step>, i: nat)
    requires Run(ss, steps) && i < |ss|
    ensures Told(ss[i].tx) ==> exists j :: 0 <= j < i && !Told(ss[j].tx) && Told(ss[j].rx)
    ensures TellsAfterBurst(ss[i].rx.events)
  {
    InvHolds(ss, steps, i);
    if Told(ss[i].tx) {
      FirstTold(ss, steps, i);
    }
  }

  lemma {:induction false} FirstTold(ss: seq<System>, steps: seq<Step>, i: nat)
    requires Run(ss, steps) && i < |ss| && Told(ss[i].tx)
    ensures exists j :: 0 <= j < i && !Told(ss[j].tx) && Told(ss[j].rx)
  {
    hide TxSentOk, TxQueueOk, RxSafe, Linked, TxAct, TxTake, TxEfaMessage, RxAct, RxTake, RxEfaMessage;
    assert i != 0;
    InvHolds(ss, steps, i);
    if Told(ss[i - 1].tx) {
      FirstTold(ss, steps, i - 1);
    } else {
      assert ss[i] == After(ss[i - 1], steps[i - 1]);
      assert ss[i].rx == ss[i - 1].rx;
    }
  }

  /** The assertions on unexpected commands never fail, and no acknowledgement is sent by the transmitter. */
  lemma {:induction false} NoUnexpectedCommand(ss: seq<System>, steps: seq<Step>, i: nat)
    requires Run(ss, steps) && i < |ss|
    ensures !ss[i].tx.failed && !ss[i].rx.failed
    ensures forall m :: m in ss[i].tx.control.sent ==> m.CommandMessage? && m.command != Connected
  {
    InvHolds(ss, steps, i);
    forall m | m in ss[i].tx.control.sent
      ensures FromTx(m)
    {
      SentByTx(ss[i].tx, Told(ss[i].rx), m);
    }
  }

  // ----- Reachable states -----

  ghost predicate Reachable(s: System) {
    exists ss: seq<System>, steps: seq<Step> :: Run(ss, steps) && ss[|steps|] == s
  }

  lemma {:induction false} StepReaches(s: System, step: Step)
    requires Reachable(s) && Enabled(s, step)
    ensures Reachable(After(s, step))
  {
    hide Init, Enabled, After;
    var ss, steps :| Run(ss, steps) && ss[|steps|] == s;
    assert Run(ss + [After(s, step)], steps + [step]);
  }

  lemma {:induction false} InvReached(s: System)
    requires Reachable(s)
    ensures Inv(s)
  {
    hide Inv;
    var ss, steps :| Run(ss, steps) && ss[|steps|] == s;
    InvHolds(ss, steps, |steps|);
  }
}

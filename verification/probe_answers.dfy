/** What the threads do with the packets they read: the answers to each command, and when they are given. */
module ProbeAnswers {
  import opened Probe
  import opened ProbeTx
  import opened ProbeRx
  import opened ProbeThread
  import opened ProbeTiming
  import opened ProbeSilence

  /** A round that reads this packet. */
  predicate ReadsPacket(th: Thread, tick: Tick, m: Message) {
    CanTick(th, tick) && tick.read && Queue(th, tick).fifo[0] == RxPacket(m)
  }

  predicate ReadsState(th: Thread, tick: Tick, s: ProbeState) {
    CanTick(th, tick) && tick.read && Queue(th, tick).fifo[0] == StateChange(s)
  }

  /** The time is checked before a wait is over that began when the packet was read. */
  predicate Within(tick: Tick, wait: nat) {
    tick.checkUs < tick.packetUs + 1000 * wait
  }

  /** The new wait ends no sooner than this long after the packet was read. */
  predicate WaitsFor(u: Thread, tick: Tick, wait: nat) {
    Deadline(u) >= tick.packetUs + 1000 * wait
  }

  predicate IsCommand(m: Message, command: Command) {
    m.CommandMessage? && m.command == command
  }

  // ----- The transmitter -----

  /** A Reset always resets the endpoint, and its application is told. The transmitter then waits for the endpoint, unless no
      version was ever agreed and the peer's is not acceptable either. */
  lemma {:induction false} TxObeysReset(th: Thread, tick: Tick, m: Message)
    requires ReadsPacket(th, tick, m) && IsCommand(m, Reset) && th.probe.direction == Send
    requires Within(tick, ENDPOINT_MANAGER_COMPLETION_TIMEOUT_MSEC) && tick.checkUs < Deadline(th)
    ensures var p, q := th.probe, Round(th, tick).probe;
            && q.events == p.events + [TellDisconnected, QueueEndpointReset] && !q.connected && q.control == p.control
            && if p.hasVersion || tick.e.versionAccepted then
                 q.state == Resetting && q.hasVersion && WaitsFor(Round(th, tick), tick, ENDPOINT_MANAGER_COMPLETION_TIMEOUT_MSEC)
               else q.state == p.state && !q.hasVersion && Deadline(Round(th, tick)) >= Deadline(th)
  {
    hide ActUntilWait;
    ElapsedIs(th.startUs, tick.checkUs, th.waitMs);
    ElapsedIs(tick.packetUs, tick.checkUs, ENDPOINT_MANAGER_COMPLETION_TIMEOUT_MSEC);
  }

  /** A Connected packet that was not waited for is answered with a Reset, and the application is told that there is no
      connection. */
  lemma {:induction false} UnexpectedConnected(th: Thread, tick: Tick, m: Message)
    requires ReadsPacket(th, tick, m) && IsCommand(m, Connected) && th.probe.direction == Send && th.probe.state != EfaProbe
    ensures var p, q := th.probe, Round(th, tick).probe;
            && q.state == SendReset && !q.connected && q.events == p.events + [TellDisconnected]
            && OneReset(p.control.sent, q.control.sent)
            && q.control.pending == Pending(Reset, q.control.num, |p.control.sent|)
            && Deadline(Round(th, tick)) == tick.doneUs + 1000 * SEND_RESET_COMMAND_FREQUENCY_MSEC
  {
    hide ActUntilWait;
    var p := Queue(th, tick).(fifo := Queue(th, tick).fifo[1..], state := SendReset);
    UnfoldActs(p, tick.e);
    assert Act(p, tick.e) == TxAct(p, tick.e);
  }

  predicate ReadsAck(th: Thread, tick: Tick, m: Message, command: Command) {
    ReadsPacket(th, tick, m) && th.probe.direction == Send && Accepts(th.probe, m) && m.ackCommand == command
  }

  predicate Starts(p: Probe, q: Probe) {
    && p.control.pending.Pending? && q.state == WaitForStart && q.hasVersion && q.events == p.events + [QueueEndpointStart] && q.control == p.control.Accept()
  }

  /** A new peer's acknowledgement of the Reset is answered with the protocol version, before anything is started. */
  lemma {:induction false} ResetAcknowledged(th: Thread, tick: Tick, m: Message)
    requires ReadsAck(th, tick, m, Reset) && tick.e.senderVersion >= 3
    ensures var p, q := th.probe, Round(th, tick).probe;
            && q.state == SendProtocolVersion && !q.hasVersion && q.events == p.events && q.tx.retries == 1
            && |q.control.sent| == |p.control.sent| + 1 && q.control.sent[..|p.control.sent|] == p.control.sent
            && IsCommand(q.control.sent[|p.control.sent|], ProtocolVersion)
            && q.control.pending == Pending(ProtocolVersion, q.control.num, |p.control.sent|)
            && q.control.accepted == p.control.accepted + [p.control.pending.serial]
            && Deadline(Round(th, tick)) == tick.doneUs + 1000 * TX_COMMAND_ACK_TIMEOUT_MSEC
  {
    hide ActUntilWait;
    var p := Queue(th, tick).(fifo := Queue(th, tick).fifo[1..]);
    var q := p.(control := p.control.Accept(), hasVersion := false, state := SendProtocolVersion, tx := p.tx.(retries := 0));
    UnfoldActs(q, tick.e);
    assert Act(q, tick.e) == SendCommandRetry(q, ProtocolVersion);
  }

  /** An old peer's acknowledgement starts the endpoint, when its version is acceptable; otherwise nothing is started. */
  lemma {:induction false} OldPeerAcknowledges(th: Thread, tick: Tick, m: Message)
    requires ReadsAck(th, tick, m, Reset) && tick.e.senderVersion < 3
    requires Within(tick, if tick.e.versionAccepted then ENDPOINT_MANAGER_COMPLETION_TIMEOUT_MSEC else th.waitMs)
    ensures var p, u := th.probe, Round(th, tick);
            if tick.e.versionAccepted then Starts(p, u.probe) && WaitsFor(u, tick, ENDPOINT_MANAGER_COMPLETION_TIMEOUT_MSEC)
            else u.probe.state == p.state && !u.probe.hasVersion && u.probe.events == p.events && u.probe.control == p.control.Accept()
  {
    hide ActUntilWait;
    ElapsedIs(tick.packetUs, tick.checkUs, ENDPOINT_MANAGER_COMPLETION_TIMEOUT_MSEC);
    ElapsedIs(tick.packetUs, tick.checkUs, th.waitMs);
  }

  /** The acknowledgement of the protocol version starts the endpoint, when the version is acceptable. */
  lemma {:induction false} VersionAcknowledged(th: Thread, tick: Tick, m: Message)
    requires ReadsAck(th, tick, m, ProtocolVersion)
    requires Within(tick, ENDPOINT_MANAGER_COMPLETION_TIMEOUT_MSEC) && tick.checkUs < Deadline(th)
    ensures var p, u := th.probe, Round(th, tick);
            if tick.e.versionAccepted then Starts(p, u.probe) && WaitsFor(u, tick, ENDPOINT_MANAGER_COMPLETION_TIMEOUT_MSEC)
            else u.probe.state == p.state && u.probe.hasVersion == p.hasVersion && u.probe.events == p.events
                 && u.probe.control == p.control.Accept() && Deadline(u) >= Deadline(th)
  {
    hide ActUntilWait;
    ElapsedIs(th.startUs, tick.checkUs, th.waitMs);
    ElapsedIs(tick.packetUs, tick.checkUs, ENDPOINT_MANAGER_COMPLETION_TIMEOUT_MSEC);
  }

  /** After the acknowledgement of a Ping the transmitter is connected and sends nothing; its application is told, and the next
      Ping sent, when its time is up, and that is a whole period after the acknowledgement. */
  lemma {:induction false} PingAcknowledged(th: Thread, tick: Tick, m: Message)
    requires ReadsAck(th, tick, m, Ping) && Within(tick, PingPeriod(tick.e))
    ensures var p, u := th.probe, Round(th, tick);
            && u.probe.state == EfaConnected && u.probe.events == p.events && u.probe.control == p.control.Accept()
            && WaitsFor(u, tick, PingPeriod(tick.e))
  {
    hide ActUntilWait;
    ElapsedIs(tick.packetUs, tick.checkUs, PingPeriod(tick.e));
  }

  /** Peers that know protocol version 5 are pinged at their own pace. */
  function PingPeriod(e: Env): Positive {
    if e.negotiatedVersion < 5 then LEGACY_SEND_PING_COMMAND_FREQUENCY_MSEC else SEND_PING_COMMAND_FREQUENCY_MSEC
  }

  lemma {:induction false} NextPing(th: Thread, tick: Tick)
    requires CanTick(th, tick) && !tick.read && th.probe.direction == Send && th.probe.state == EfaConnected && Up(th, tick)
    ensures var p, u := th.probe, Round(th, tick);
            && u.probe.state == EfaConnectedPing && u.probe.connected && u.probe.events == p.events + [TellConnected]
            && |u.probe.control.sent| == |p.control.sent| + 1 && u.probe.control.sent[..|p.control.sent|] == p.control.sent
            && IsCommand(u.probe.control.sent[|p.control.sent|], Ping)
            && Deadline(u) == tick.doneUs + 1000 * TX_COMMAND_ACK_TIMEOUT_MSEC
  {
    hide ActUntilWait;
    ElapsedIs(th.startUs, tick.checkUs, th.waitMs);
    var p := Queue(th, tick);
    var q := p.Tell(true).(state := EfaConnectedPing, tx := p.tx.(retries := 0));
    UnfoldActs(p, tick.e);
    assert Act(p, tick.e) == Acted(q, 0);
    UnfoldActs(q, tick.e);
    assert Act(q, tick.e) == SendCommandRetry(q, Ping);
  }

  // ----- The receiver -----

  /** Every Reset resets the endpoint, and its application is told. Nothing is answered yet; the Reset is saved, unless it is
      from an old peer whose version is not acceptable. */
  lemma {:induction false} RxObeysReset(th: Thread, tick: Tick, m: Message)
    requires ReadsPacket(th, tick, m) && IsCommand(m, Reset) && th.probe.direction == Receive
    ensures var p, u := th.probe, Round(th, tick);
            && u.probe.state == Resetting && !u.probe.connected && u.probe.events == p.events + [TellDisconnected, QueueEndpointReset]
            && u.probe.control.sent == p.control.sent && u.probe.direction == Receive
            && (u.probe.hasVersion <==> tick.e.senderVersion < 3 && tick.e.versionAccepted)
            && u.probe.control.reply == (if tick.e.senderVersion >= 3 || tick.e.versionAccepted then Reply(Reset, m.num, m.serial)
                                         else p.control.reply)
            && Deadline(u) == tick.doneUs + 1000 * ENDPOINT_MANAGER_COMPLETION_TIMEOUT_MSEC
  {
    hide ActUntilWait;
    var h := Take(Queue(th, tick), tick.e, th.waitMs);
    assert h.wait == 0;
    UnfoldActs(h.probe, tick.e);
    assert Act(h.probe, tick.e) == RxAct(h.probe, tick.e);
  }

  /** While the endpoint is being reset, what was saved is kept and nothing is acknowledged. */
  lemma {:induction false} ReplyIsKept(ths: seq<Thread>, ticks: seq<Tick>, count: nat, i: nat)
    requires SilentRounds(ths, ticks, count) && i < |ths| && Receiver(ths[0].probe) && ths[0].probe.state == Resetting
    ensures ths[i].probe.control.reply == ths[0].probe.control.reply && ths[i].probe.hasVersion == ths[0].probe.hasVersion
  {
    hide ActUntilWait;
    if i > 0 {
      ReplyIsKept(ths, ticks, count, i - 1);
      ResetsForEver(ths, ticks, count, i - 1);
      var p := Queue(ths[i - 1], ticks[i - 1]);
      UnfoldActs(p, ticks[i - 1].e);
      assert Act(p, ticks[i - 1].e) == RxAct(p, ticks[i - 1].e);
    }
  }

  /** The Endpoint Manager has reset the endpoint: a new peer's command is acknowledged now, an old peer's endpoint is started
      first. */
  lemma {:induction false} RxResetIsDone(th: Thread, tick: Tick)
    requires ReadsState(th, tick, ResetDone) && th.probe.direction == Receive && th.probe.control.reply.Reply?
    ensures var p, u := th.probe, Round(th, tick);
            && u.probe.direction == Receive && u.probe.hasVersion == p.hasVersion
            && if p.hasVersion then
                 && u.probe.state == WaitForStart && u.probe.control == p.control && u.probe.events == p.events + [QueueEndpointStart]
                 && Deadline(u) == tick.doneUs + 1000 * ENDPOINT_MANAGER_COMPLETION_TIMEOUT_MSEC
               else
                 && u.probe.state == EfaProbe && Replies(p, u.probe) && u.probe.events == p.events
                 && Deadline(u) == tick.doneUs + 1000 * EFA_PROBE_MONITOR_TIMEOUT_MSEC
  {
    hide ActUntilWait;
    var p := Queue(th, tick).(fifo := Queue(th, tick).fifo[1..], state := ResetDone);
    UnfoldActs(p, tick.e);
    assert Act(p, tick.e) == ResetIsDone(p);
  }

  /** The endpoint is started: what was saved is acknowledged, and probe packets are counted from zero. */
  lemma {:induction false} RxStarted(th: Thread, tick: Tick)
    requires ReadsState(th, tick, EfaStart) && th.probe.direction == Receive
    ensures var p, u := th.probe, Round(th, tick);
            && u.probe.state == EfaProbe && u.probe.probing && u.probe.rx.received == 0 && u.probe.events == p.events + [EfaStarted]
            && Replies(p, u.probe) && Deadline(u) == tick.doneUs + 1000 * SEND_RESET_COMMAND_FREQUENCY_MSEC
  {
    hide ActUntilWait;
    var p := Queue(th, tick).(fifo := Queue(th, tick).fifo[1..], state := EfaStart);
    UnfoldActs(p, tick.e);
    assert Act(p, tick.e) == StartAndReply(p);
  }

  /** The protocol version starts the endpoint, when it is acceptable, and is saved until then; otherwise it is ignored. */
  lemma {:induction false} RxReadsVersion(th: Thread, tick: Tick, m: Message)
    requires ReadsPacket(th, tick, m) && IsCommand(m, ProtocolVersion) && th.probe.direction == Receive
    requires Within(tick, ENDPOINT_MANAGER_COMPLETION_TIMEOUT_MSEC) && tick.checkUs < Deadline(th)
    ensures var p, u := th.probe, Round(th, tick);
            && u.probe.control.sent == p.control.sent && u.probe.direction == Receive
            && if tick.e.versionAccepted then
                 && u.probe.state == WaitForStart && u.probe.hasVersion && u.probe.events == p.events + [QueueEndpointStart]
                 && u.probe.control.reply == Reply(ProtocolVersion, m.num, m.serial)
                 && WaitsFor(u, tick, ENDPOINT_MANAGER_COMPLETION_TIMEOUT_MSEC)
               else
                 && u.probe.state == p.state && u.probe.hasVersion == p.hasVersion && u.probe.events == p.events
                 && u.probe.control.reply == p.control.reply && Deadline(u) >= Deadline(th)
  {
    hide ActUntilWait;
    ElapsedIs(th.startUs, tick.checkUs, th.waitMs);
    ElapsedIs(tick.packetUs, tick.checkUs, ENDPOINT_MANAGER_COMPLETION_TIMEOUT_MSEC);
  }

  /** The acknowledgements among the packets sent after so many. */
  predicate NoneAcknowledged(sent: seq<Message>, from: nat) {
    forall k :: from <= k < |sent| ==> sent[k].CommandMessage?
  }

  predicate Acknowledgement(m: Message, command: Message)
    requires command.CommandMessage?
  {
    m.AckMessage? && m.ackCommand == command.command && m.ackNum == command.num
  }

  /** A Reset is acknowledged when the endpoint has been reset, and not before, however long that takes: read a Reset, take any
      number of rounds in which nothing is read, and then read that the endpoint is reset. The first acknowledgement sent since
      is sent in the last of these rounds and is that of the Reset, if the peer knows protocol versions. For an old peer still
      nothing is acknowledged, but the start of the endpoint queued; RxStarted says what follows. */
  lemma {:induction false} ResetAnsweredWhenDone(th: Thread, tick: Tick, m: Message, ths: seq<Thread>, ticks: seq<Tick>, count: nat, last: Tick)
    requires ReadsPacket(th, tick, m) && IsCommand(m, Reset) && th.probe.direction == Receive
    requires tick.e.senderVersion >= 3 || tick.e.versionAccepted
    requires SilentRounds(ths, ticks, count) && ths[0] == Round(th, tick)
    requires ReadsState(ths[|ticks|], last, ResetDone)
    ensures var before, sent := |th.probe.control.sent|, Round(ths[|ticks|], last).probe.control.sent;
            && |sent| >= before && sent[..before] == th.probe.control.sent
            && NoneAcknowledged(ths[|ticks|].probe.control.sent, before)
            && if tick.e.senderVersion >= 3 then
                 && |sent| > before && NoneAcknowledged(sent[..|sent| - 1], before) && Acknowledgement(sent[|sent| - 1], m)
               else
                 && sent == ths[|ticks|].probe.control.sent
                 && Round(ths[|ticks|], last).probe.control.reply == Reply(Reset, m.num, m.serial)
                 && Round(ths[|ticks|], last).probe.state == WaitForStart
  {
    hide Round;
    RxObeysReset(th, tick, m);
    var n := |ticks|;
    ResetsForEver(ths, ticks, count, n);
    ReplyIsKept(ths, ticks, count, n);
    RxResetIsDone(ths[n], last);
    var u := Round(ths[n], last).probe.control.sent;
    assert ths[n].probe.control.sent[..|th.probe.control.sent|] == th.probe.control.sent;
    if tick.e.senderVersion >= 3 {
      assert u[..|u| - 1] == ths[n].probe.control.sent;
      assert u[..|th.probe.control.sent|] == u[..|u| - 1][..|th.probe.control.sent|];
    }
  }
}

/** What carries a connection over a moment of a run of two control threads, such as a reset; and that nothing else does:
    from any other moment the transmitter's application is told Connected only after the receiver's was told anew. */
module ProbeCarried {
  import opened Probe
  import opened ProbeTx
  import opened ProbeRx
  import opened ProbeSystem
  import opened ProbeThread
  import opened ProbeTiming
  import opened ProbeOrder
  import opened ProbeReady
  import opened ProbeContracts
  import opened ProbeRounds
  import opened ProbeMoves

  // ----- Pings and their acknowledgements -----

  predicate IsPing(c: ControlCommand, n: U16) {
    c.RxPacket? && c.message.CommandMessage? && c.message.command == Ping && c.message.num == n
  }

  predicate IsAck(m: Message, n: U16) {
    m.AckMessage? && m.ackCommand == Ping && m.ackNum == n
  }

  /** A command after which the transmitter sends Reset at once: an error, or a Connected packet out of place. */
  predicate Blocks(c: ControlCommand) {
    c == StateChange(EfaReset) || (c.RxPacket? && IsConnected(c.message))
  }

  /** The acknowledgement of Ping n is in the queue, and nothing that blocks is in front of it. */
  predicate AckFirst(fifo: seq<ControlCommand>, n: U16) {
    exists i :: 0 <= i < |fifo| && fifo[i].RxPacket? && IsAck(fifo[i].message, n) && forall j :: 0 <= j < i ==> !Blocks(fifo[j])
  }

  predicate NothingBlocks(fifo: seq<ControlCommand>) {
    forall j :: 0 <= j < |fifo| ==> !Blocks(fifo[j])
  }

  /** Ping n is in the receiver's queue, in front of any move to Connected. */
  predicate PingFirst(fifo: seq<ControlCommand>, n: U16) {
    exists i :: 0 <= i < |fifo| && IsPing(fifo[i], n) && forall j :: 0 <= j < i ==> fifo[j] != StateChange(EfaConnected)
  }

  predicate NothingConnects(fifo: seq<ControlCommand>) {
    forall j :: 0 <= j < |fifo| ==> fifo[j] != StateChange(EfaConnected)
  }

  predicate Answered(sent: seq<Message>, n: U16) {
    exists i :: 0 <= i < |sent| && IsAck(sent[i], n)
  }

  /** The receiver has acknowledged Ping n, or can do so before its application is told Connected. */
  predicate Answers(r: Probe, n: U16) {
    Answered(r.control.sent, n) || PingFirst(r.fifo, n) || NothingConnects(r.fifo)
  }

  /** The transmitter can read an acknowledgement of Ping n before anything that blocks. */
  predicate AckComes(fifo: seq<ControlCommand>, r: Probe, n: U16) {
    AckFirst(fifo, n) || (NothingBlocks(fifo) && Answers(r, n))
  }

  /** How often a Ping can still be repeated. */
  function Resends(t: Probe): nat {
    if t.state == EfaConnectedPing && t.tx.retries < TX_COMMAND_MAX_RETRIES then TX_COMMAND_MAX_RETRIES - t.tx.retries else 0
  }

  predicate PingPends(t: Probe) {
    t.control.pending.Pending? && t.control.pending.command == Ping
  }

  predicate HasNum(t: Probe, k: nat, n: U16) {
    PingPends(t) && k <= Resends(t) && n == (t.control.pending.num + k) % 0x1_0000
  }

  /** The transmitter is on its way to Connected: by its state, by a queued state change, or by a pending Ping, repeated
      or not, whose acknowledgement it can read. */
  ghost predicate Carried(s: System) {
    || s.tx.state == EfaConnected || s.tx.state == EfaTxProbeAcks
    || (exists i :: 0 <= i < |s.tx.fifo| && s.tx.fifo[i] == StateChange(EfaConnected))
    || (exists k: nat, n: U16 :: HasNum(s.tx, k, n) && AckComes(s.tx.fifo, s.rx, n))
  }

  // ----- A transmitter that is not on its way -----

  predicate CalmCommand(c: ControlCommand, stale: seq<Message>) {
    match c
    case StateChange(s) => s == ResetDone || s == EfaStart || s == EfaReset
    case RxPacket(m) => FromRx(m) && (IsConnected(m) ==> m in stale)
  }

  predicate CalmQueue(fifo: seq<ControlCommand>, stale: seq<Message>) {
    forall i :: 0 <= i < |fifo| ==> CalmCommand(fifo[i], stale)
  }

  /** No acknowledgement of a pending Ping can come. */
  ghost predicate Hopeless(t: Probe, r: Probe) {
    forall k: nat, n: U16 :: HasNum(t, k, n) ==> !AckComes(t.fifo, r, n)
  }

  predicate NumOk(c: Control) {
    c.reply.NoReply? && (c.pending.Pending? ==> c.pending.num == c.num)
  }

  ghost predicate Calm(t: Probe, r: Probe, stale: seq<Message>) {
    && t.direction == Send && t.state != EfaConnected && t.state != EfaTxProbeAcks
    && (t.state == EfaConnectedPing ==> PingPends(t))
    && CalmQueue(t.fifo, stale) && NumOk(t.control) && Hopeless(t, r)
  }

  lemma {:induction false} CalmTail(fifo: seq<ControlCommand>, stale: seq<Message>)
    requires CalmQueue(fifo, stale) && fifo != []
    ensures CalmCommand(fifo[0], stale) && CalmQueue(fifo[1..], stale)
  {
  }

  /** What no longer is or can be pending. */
  lemma {:induction false} NoPingIsHopeless(t: Probe, r: Probe)
    requires !PingPends(t)
    ensures Hopeless(t, r)
  {
  }

  /** The same Ping with the same queue, and no more repetitions than before. */
  lemma {:induction false} SamePingIsHopeless(t: Probe, u: Probe, r: Probe)
    requires Hopeless(t, r) && PingPends(t) && u.control.pending == t.control.pending && u.fifo == t.fifo && Resends(u) <= Resends(t)
    ensures Hopeless(u, r)
  {
    hide AckComes, Resends;
    forall k: nat, n: U16 | HasNum(u, k, n)
      ensures !AckComes(u.fifo, r, n)
    {
      assert HasNum(t, k, n);
    }
  }

  /** The next Ping. */
  lemma {:induction false} NextPingIsHopeless(t: Probe, u: Probe, r: Probe)
    requires Hopeless(t, r) && PingPends(t) && PingPends(u) && u.fifo == t.fifo && Resends(u) + 1 <= Resends(t)
    requires u.control.pending.num == (t.control.pending.num + 1) % 0x1_0000
    ensures Hopeless(u, r)
  {
    hide AckComes, Resends;
    forall k: nat, n: U16 | HasNum(u, k, n)
      ensures !AckComes(u.fifo, r, n)
    {
      NextNum(t.control.pending.num, k);
      assert HasNum(t, k + 1, n);
    }
  }

  lemma {:induction false} NextNum(num: U16, k: nat)
    ensures ((num + 1) % 0x1_0000 + k) % 0x1_0000 == (num + (k + 1)) % 0x1_0000
  {
  }

  // ----- Actions -----

  lemma {:induction false} CalmRetry(t: Probe, r: Probe, stale: seq<Message>)
    requires Calm(t, r, stale)
    ensures t.state == EfaConnectedPing ==> Calm(SendCommandRetry(t, Ping).probe, r, stale)
    ensures t.state == SendProtocolVersion ==> Calm(SendCommandRetry(t, ProtocolVersion).probe, r, stale)
  {
    hide CalmQueue, Hopeless, AckComes;
    if t.state == EfaConnectedPing {
      var u := SendCommandRetry(t, Ping).probe;
      if t.tx.retries < TX_COMMAND_MAX_RETRIES {
        NextPingIsHopeless(t, u, r);
      } else {
        SamePingIsHopeless(t, u, r);
      }
    } else if t.state == SendProtocolVersion {
      var u := SendCommandRetry(t, ProtocolVersion).probe;
      if PingPends(u) {
        SamePingIsHopeless(t, u, r);
      } else {
        NoPingIsHopeless(u, r);
      }
    }
  }

  lemma {:induction false} CalmReset(t: Probe, r: Probe, next: ProbeState, wait: nat, stale: seq<Message>)
    requires t.direction == Send && CalmQueue(t.fifo, stale) && NumOk(t.control) && !Late(next)
    ensures Calm(SendResetCommand(t, next, wait).probe, r, stale) && SendResetCommand(t, next, wait).wait == wait
  {
    hide CalmQueue, Hopeless;
    NoPingIsHopeless(SendResetCommand(t, next, wait).probe, r);
  }

  /** Another state, with the same Ping pending or none. */
  lemma {:induction false} CalmMove(t: Probe, u: Probe, r: Probe, stale: seq<Message>)
    requires Calm(t, r, stale) && u.direction == Send && !Late(u.state)
    requires u.fifo == t.fifo && u.control == t.control
    ensures Calm(u, r, stale)
  {
    hide CalmQueue, Hopeless;
    if PingPends(t) {
      SamePingIsHopeless(t, u, r);
    } else {
      NoPingIsHopeless(u, r);
    }
  }

  lemma {:induction false} CalmAct(t: Probe, r: Probe, e: Env, stale: seq<Message>)
    requires Calm(t, r, stale)
    ensures Calm(TxAct(t, e).probe, r, stale) && Silent(t.events, TxAct(t, e).probe.events)
  {
    hide CalmQueue, Hopeless, SendResetCommand, SendCommandRetry, StartBurst;
    SilentAct(t, e);
    match t.state
    case Resetting => CalmReset(t, r, Resetting, SEND_RESET_COMMAND_FREQUENCY_MSEC, stale);
    case WaitForStart => CalmReset(t, r, WaitForStart, SEND_RESET_COMMAND_FREQUENCY_MSEC, stale);
    case EfaReset => CalmReset(t.QueueReset(), r, Resetting, ENDPOINT_MANAGER_COMPLETION_TIMEOUT_MSEC, stale);
    case Idle => CalmReset(t.Tell(false), r, SendReset, SEND_RESET_COMMAND_FREQUENCY_MSEC, stale);
    case SendReset => CalmReset(t.Tell(false), r, SendReset, SEND_RESET_COMMAND_FREQUENCY_MSEC, stale);
    case SendProtocolVersion => CalmRetry(t, r, stale);
    case EfaConnectedPing => CalmRetry(t, r, stale);
    case EfaStart =>
      BurstControl(t, e);
      CalmMove(t, StartBurst(t, e).probe, r, stale);
    case _ => CalmMove(t, TxAct(t, e).probe, r, stale);
  }

  lemma {:induction false} BurstControl(t: Probe, e: Env)
    ensures var u := StartBurst(t, e).probe;
            u.direction == t.direction && !Late(u.state) && u.fifo == t.fifo && u.control == t.control
  {
  }

  lemma {:induction false} SilentAct(t: Probe, e: Env)
    requires t.state != EfaConnected
    ensures Silent(t.events, TxAct(t, e).probe.events)
  {
    hide SendResetCommand, SendCommandRetry, AwaitProbeAcks, StartBurst, Silent;
    SilentTxParts(t, e);
    SilentSelf(t.events);
    SilentAppend(t.events, [TellDisconnected]);
    SilentAppend(t.events, [TellDisconnected, QueueEndpointReset]);
  }

  lemma {:induction false} SilentTxParts(t: Probe, e: Env)
    ensures forall q: Probe, next, w :: SendResetCommand(q, next, w).probe.events == q.events
    ensures forall c :: SendCommandRetry(t, c).probe.events == t.events
    ensures AwaitProbeAcks(t, e).probe.events == t.events && Silent(t.events, StartBurst(t, e).probe.events)
  {
    hide Silent;
    var queued := EfaPacketQueued(0, 1 == EFA_PROBE_PACKET_COUNT);
    SilentAppend(t.events, [EfaStarted]);
    SilentAppend(t.events, [EfaStarted, queued]);
    assert t.events + [EfaStarted] + [queued] == t.events + [EfaStarted, queued];
  }

  lemma {:induction false} CalmActs(t: Probe, r: Probe, e: Env, stale: seq<Message>)
    requires Calm(t, r, stale)
    ensures Calm(ActUntilWait(t, e).probe, r, stale) && Silent(t.events, ActUntilWait(t, e).probe.events)
    decreases Rank(t)
  {
    hide Calm, TxAct, Rank, Silent;
    SendsCalmly(t, r, stale);
    RankFalls(t, e);
    CalmAct(t, r, e, stale);
    UnfoldActs(t, e);
    if Act(t, e).wait == 0 {
      CalmActs(TxAct(t, e).probe, r, e, stale);
      SilentTrans(t.events, TxAct(t, e).probe.events, ActUntilWait(t, e).probe.events);
    }
  }

  lemma {:induction false} SendsCalmly(t: Probe, r: Probe, stale: seq<Message>)
    requires Calm(t, r, stale)
    ensures t.direction == Send
  {
  }

  // ----- Reading a command -----

  /** Without a command that does not block, no acknowledgement comes that did not come before. */
  lemma {:induction false} ComesBefore(c: ControlCommand, fifo: seq<ControlCommand>, r: Probe, n: U16)
    requires !Blocks(c) && AckComes(fifo, r, n)
    ensures AckComes([c] + fifo, r, n)
  {
    var all := [c] + fifo;
    if AckFirst(fifo, n) {
      var i :| 0 <= i < |fifo| && fifo[i].RxPacket? && IsAck(fifo[i].message, n) && forall j :: 0 <= j < i ==> !Blocks(fifo[j]);
      assert all[i + 1] == fifo[i];
      assert forall j :: 0 < j < i + 1 ==> all[j] == fifo[j - 1];
    } else {
      assert forall j :: 0 < j < |all| ==> all[j] == fifo[j - 1];
    }
  }

  /** Reading a command that does not block, while the same Ping is pending or none. */
  lemma {:induction false} ReadIsHopeless(t: Probe, u: Probe, r: Probe)
    requires Hopeless(t, r) && t.fifo != [] && !Blocks(t.fifo[0]) && u.fifo == t.fifo[1..]
    requires PingPends(u) ==> u.control.pending == t.control.pending && Resends(u) <= Resends(t)
    ensures Hopeless(u, r)
  {
    hide AckComes, Resends, Blocks;
    assert t.fifo == [t.fifo[0]] + u.fifo;
    forall k: nat, n: U16 | HasNum(u, k, n)
      ensures !AckComes(u.fifo, r, n)
    {
      assert HasNum(t, k, n);
      if AckComes(u.fifo, r, n) {
        ComesBefore(t.fifo[0], u.fifo, r, n);
      }
    }
  }

  /** The acknowledgement of the pending Ping is not at the head of the queue. */
  lemma {:induction false} NotAccepted(t: Probe, r: Probe)
    requires Hopeless(t, r) && t.fifo != [] && t.fifo[0].RxPacket? && Accepts(t, t.fifo[0].message)
    ensures !PingPends(t)
  {
    hide Hopeless, AckComes;
    var n := t.control.pending.num;
    assert PingPends(t) ==> IsAck(t.fifo[0].message, n);
    assert PingPends(t) ==> AckFirst(t.fifo, n);
    assert PingPends(t) ==> HasNum(t, 0, n);
    if AckFirst(t.fifo, n) {
      ComesFirst(t, r, n);
    }
  }

  lemma {:induction false} ComesFirst(t: Probe, r: Probe, n: U16)
    requires Hopeless(t, r) && AckFirst(t.fifo, n)
    ensures !HasNum(t, 0, n)
  {
  }

  predicate MayRead(t: Probe, stale: seq<Message>)
    requires t.fifo != []
  {
    t.state == EfaProbe && t.fifo[0].RxPacket? && IsConnected(t.fifo[0].message) ==> t.fifo[0].message !in stale
  }

  lemma {:induction false} CalmTake(t: Probe, r: Probe, e: Env, wait: nat, stale: seq<Message>)
    requires Calm(t, r, stale) && t.fifo != [] && !Blocks(t.fifo[0])
    ensures Calm(TxTake(t, e, wait).probe, r, stale) && Silent(t.events, TxTake(t, e, wait).probe.events)
  {
    hide CalmQueue, Hopeless, ProbeTx.HandleReset, HandleAck;
    CalmTail(t.fifo, stale);
    var q := t.(fifo := t.fifo[1..]);
    var u := TxTake(t, e, wait).probe;
    HandledCalmly(q, e, wait);
    if t.fifo[0].RxPacket? && Accepts(t, t.fifo[0].message) {
      NotAccepted(t, r);
      NoPingIsHopeless(u, r);
    } else {
      ReadIsHopeless(t, u, r);
    }
  }

  lemma {:induction false} HandledCalmly(q: Probe, e: Env, wait: nat)
    ensures var u := ProbeTx.HandleReset(q, e, wait).probe;
            && u.direction == q.direction && u.fifo == q.fifo && u.control == q.control && Silent(q.events, u.events)
            && (u.state == q.state || u.state == Resetting) && u.tx == q.tx
    ensures q.control.pending.Pending? ==>
              var u := HandleAck(q, e, wait).probe;
              && u.direction == q.direction && u.fifo == q.fifo && u.control == q.control.Accept() && Silent(q.events, u.events)
              && (q.control.pending.command != Ping ==> u.state == q.state || u.state == SendProtocolVersion || u.state == WaitForStart)
  {
    hide ProbeTx.HandleReset, HandleAck, Silent;
    ResetCalmly(q, e, wait);
    if q.control.pending.Pending? {
      AckCalmly(q, e, wait);
    }
  }

  lemma {:induction false} ResetCalmly(q: Probe, e: Env, wait: nat)
    ensures var u := ProbeTx.HandleReset(q, e, wait).probe;
            && u.direction == q.direction && u.fifo == q.fifo && u.control == q.control && Silent(q.events, u.events)
            && (u.state == q.state || u.state == Resetting) && u.tx == q.tx
  {
    hide Silent;
    SilentAppend(q.events, [TellDisconnected, QueueEndpointReset]);
  }

  lemma {:induction false} AckCalmly(q: Probe, e: Env, wait: nat)
    requires q.control.pending.Pending?
    ensures var u := HandleAck(q, e, wait).probe;
            && u.direction == q.direction && u.fifo == q.fifo && u.control == q.control.Accept() && Silent(q.events, u.events)
            && (q.control.pending.command != Ping ==> u.state == q.state || u.state == SendProtocolVersion || u.state == WaitForStart)
  {
    hide Silent;
    SilentSelf(q.events);
    SilentAppend(q.events, [QueueEndpointStart]);
  }

  /** A command that blocks makes the transmitter send Reset at once. */
  lemma {:induction false} BlockedTake(t: Probe, r: Probe, e: Env, wait: nat, stale: seq<Message>)
    requires Calm(t, r, stale) && t.fifo != [] && Blocks(t.fifo[0]) && MayRead(t, stale)
    ensures var h := TxTake(t, e, wait);
            && h.wait == 0 && TxAct(h.probe, e).wait > 0
            && Calm(TxAct(h.probe, e).probe, r, stale) && Silent(t.events, TxAct(h.probe, e).probe.events)
  {
    hide CalmQueue, Hopeless, TxAct, Silent;
    CalmTail(t.fifo, stale);
    var p := TxTake(t, e, wait).probe;
    BlockedActs(p, r, e, stale);
  }

  lemma {:induction false} BlockedActs(p: Probe, r: Probe, e: Env, stale: seq<Message>)
    requires (p.state == SendReset || p.state == EfaReset) && p.direction == Send && CalmQueue(p.fifo, stale) && NumOk(p.control)
    ensures TxAct(p, e).wait > 0 && Calm(TxAct(p, e).probe, r, stale) && Silent(p.events, TxAct(p, e).probe.events)
  {
    hide CalmQueue, Hopeless, SendResetCommand, Silent;
    CalmReset(p.QueueReset(), r, Resetting, ENDPOINT_MANAGER_COMPLETION_TIMEOUT_MSEC, stale);
    CalmReset(p.Tell(false), r, SendReset, SEND_RESET_COMMAND_FREQUENCY_MSEC, stale);
    SilentAct(p, e);
  }

  // ----- A round of the transmitter -----

  lemma {:induction false} ArrivedBefore(fifo: seq<ControlCommand>, cs: seq<ControlCommand>, r: Probe, n: U16)
    requires AckComes(fifo + cs, r, n)
    requires forall i :: 0 <= i < |cs| && cs[i].RxPacket? ==> cs[i].message in r.control.sent
    ensures AckComes(fifo, r, n)
  {
    var all := fifo + cs;
    if AckFirst(all, n) {
      var i :| 0 <= i < |all| && all[i].RxPacket? && IsAck(all[i].message, n) && forall j :: 0 <= j < i ==> !Blocks(all[j]);
      if i < |fifo| {
        assert fifo[i] == all[i] && forall j :: 0 <= j < i ==> fifo[j] == all[j];
      } else {
        assert forall j :: 0 <= j < |fifo| ==> fifo[j] == all[j];
        var k :| 0 <= k < |r.control.sent| && r.control.sent[k] == cs[i - |fifo|].message;
        assert Answered(r.control.sent, n);
      }
    } else {
      assert forall j :: 0 <= j < |fifo| ==> fifo[j] == all[j];
    }
  }

  lemma {:induction false} CalmArrivals(t: Probe, r: Probe, cs: seq<ControlCommand>, stale: seq<Message>)
    requires Calm(t, r, stale) && AllMayArrive(t, r.control.sent, cs)
    requires forall m :: m in r.control.sent ==> FromRx(m) && (IsConnected(m) ==> m in stale)
    ensures Calm(t.(fifo := t.fifo + cs), r, stale)
  {
    hide AckComes;
    var u := t.(fifo := t.fifo + cs);
    forall i | 0 <= i < |cs|
      ensures CalmCommand(cs[i], stale) && (cs[i].RxPacket? ==> cs[i].message in r.control.sent)
    {
      assert MayArrive(t, r.control.sent, cs[i]);
    }
    forall k: nat, n: U16 | HasNum(u, k, n)
      ensures !AckComes(u.fifo, r, n)
    {
      assert HasNum(t, k, n);
      if AckComes(u.fifo, r, n) {
        ArrivedBefore(t.fifo, cs, r, n);
      }
    }
  }

  lemma {:induction false} CalmRound(th: Thread, tick: Tick, r: Probe, stale: seq<Message>)
    requires Calm(th.probe, r, stale) && CanTick(th, tick) && AllMayArrive(th.probe, r.control.sent, tick.arrivals)
    requires forall m :: m in r.control.sent ==> FromRx(m) && (IsConnected(m) ==> m in stale)
    requires tick.read ==> MayRead(Queue(th, tick), stale)
    ensures Calm(Round(th, tick).probe, r, stale) && Silent(th.probe.events, Round(th, tick).probe.events)
  {
    hide Calm, Silent, ActUntilWait, TxTake, Blocks, TxAct;
    SendsCalmly(th.probe, r, stale);
    var q := Queue(th, tick);
    CalmArrivals(th.probe, r, tick.arrivals, stale);
    SilentSelf(q.events);
    if !tick.read {
      CalmActs(q, r, tick.e, stale);
    } else if Blocks(q.fifo[0]) {
      BlockedTake(q, r, tick.e, th.waitMs, stale);
      var p := TxTake(q, tick.e, th.waitMs).probe;
      TxTakeKeepsDirection(q, tick.e, th.waitMs);
      UnfoldActs(p, tick.e);
    } else {
      CalmTake(q, r, tick.e, th.waitMs, stale);
      var p := TxTake(q, tick.e, th.waitMs).probe;
      CalmActs(p, r, tick.e, stale);
      SilentTrans(q.events, p.events, ActUntilWait(p, tick.e).probe.events);
    }
  }

  lemma {:induction false} TxTakeKeepsDirection(t: Probe, e: Env, wait: nat)
    requires t.fifo != []
    ensures TxTake(t, e, wait).probe.direction == t.direction
  {
    hide ProbeTx.HandleReset, HandleAck;
    HandledCalmly(t.(fifo := t.fifo[1..]), e, wait);
  }

  lemma {:induction false} SilentSelf(es: seq<Event>)
    ensures Silent(es, es)
  {
  }

  // ----- The receiver -----

  /** No saved command is a Ping: Pings are acknowledged at once. */
  predicate ReplyOk(r: Probe) {
    r.control.reply.Reply? ==> r.control.reply.command != Ping
  }

  ghost predicate AnswersNoMore(r: Probe, u: Probe) {
    forall n: U16 :: Answers(u, n) ==> Answers(r, n)
  }

  /** What the receiver does without telling its application Connected: it says no Connected, and answers no Ping that
      it could not answer before. */
  ghost predicate Goes(r: Probe, u: Probe) {
    ReplyOk(u) && SaysOnlyIfTold(r, u) && (Silent(r.events, u.events) ==> AnswersNoMore(r, u))
  }

  lemma {:induction false} GoesOn(r: Probe, u: Probe, v: Probe)
    requires Goes(r, u) && Goes(u, v)
    ensures Goes(r, v)
  {
    hide Answers;
    Prefixes(r.events, u.events, v.events);
    Prefixes(r.control.sent, u.control.sent, v.control.sent);
    if Silent(r.events, v.events) {
      assert Silent(r.events, u.events) && Silent(u.events, v.events);
      forall i | |r.control.sent| <= i < |v.control.sent|
        ensures !IsConnected(v.control.sent[i])
      {
        assert i < |u.control.sent| ==> v.control.sent[i] == u.control.sent[i];
      }
    }
  }

  /** Nothing but the rest of the queue changes, or a packet is sent that acknowledges no Ping. */
  lemma {:induction false} AnswersSame(r: Probe, u: Probe)
    requires u.fifo == r.fifo
    requires u.control.sent == r.control.sent || exists m :: u.control.sent == r.control.sent + [m] && (m.AckMessage? ==> m.ackCommand != Ping)
    ensures AnswersNoMore(r, u)
  {
    forall n: U16 | Answers(u, n)
      ensures Answers(r, n)
    {
      if Answered(u.control.sent, n) {
        var i :| 0 <= i < |u.control.sent| && IsAck(u.control.sent[i], n);
        assert i < |r.control.sent| && r.control.sent[i] == u.control.sent[i];
      }
    }
  }

  predicate SendsNoPingAck(r: Probe, u: Probe) {
    u.control.sent == r.control.sent
    || (r.control.sent <= u.control.sent && |u.control.sent| == |r.control.sent| + 1
        && var m := u.control.sent[|r.control.sent|]; m.AckMessage? ==> m.ackCommand != Ping)
  }

  lemma {:induction false} PartsSendNoPingAck(r: Probe, e: Env)
    requires ReplyOk(r)
    ensures SendsNoPingAck(r, ResetRemote(r, e).probe) && SendsNoPingAck(r, StartAndReply(r).probe)
    ensures SendsNoPingAck(r, ResetIsDone(r).probe) && SendsNoPingAck(r, BecomeConnected(r, e).probe)
    ensures SendsNoPingAck(r, PingMissed(r, e).probe)
  {
  }

  lemma {:induction false} QueueOfParts(r: Probe, e: Env)
    ensures ResetRemote(r, e).probe.fifo == r.fifo && StartAndReply(r).probe.fifo == r.fifo
    ensures ResetIsDone(r).probe.fifo == r.fifo && BecomeConnected(r, e).probe.fifo == r.fifo
    ensures PingMissed(r, e).probe.fifo == r.fifo
  {
  }

  lemma {:induction false} ReplyOfParts(r: Probe, e: Env)
    requires ReplyOk(r)
    ensures ReplyOk(ResetRemote(r, e).probe) && ReplyOk(StartAndReply(r).probe) && ReplyOk(ResetIsDone(r).probe)
    ensures ReplyOk(BecomeConnected(r, e).probe) && ReplyOk(PingMissed(r, e).probe)
  {
  }

  lemma {:induction false} RxActSends(r: Probe, e: Env)
    requires ReplyOk(r)
    ensures var u := RxAct(r, e).probe;
            ReplyOk(u) && u.fifo == r.fifo && SendsNoPingAck(r, u)
  {
    hide ResetRemote, StartAndReply, ResetIsDone, BecomeConnected, PingMissed, SendsNoPingAck;
    PartsSendNoPingAck(r, e);
    QueueOfParts(r, e);
    ReplyOfParts(r, e);
    ResetIsNoPingAck(r);
  }

  lemma {:induction false} ResetIsNoPingAck(r: Probe)
    ensures SendsNoPingAck(r, r.(control := r.control.SendExpectingAck(Reset)))
    ensures forall u: Probe :: u.control == r.control ==> SendsNoPingAck(r, u)
  {
  }

  lemma {:induction false} RxActGoes(r: Probe, e: Env)
    requires ReplyOk(r)
    ensures Goes(r, RxAct(r, e).probe)
  {
    hide RxAct, SaysOnlyIfTold, Silent;
    var u := RxAct(r, e).probe;
    RxActSays(r, e);
    RxActSends(r, e);
    if u.control.sent != r.control.sent {
      assert u.control.sent == r.control.sent + [u.control.sent[|r.control.sent|]];
    }
    AnswersSame(r, u);
  }

  lemma {:induction false} RxActsGo(r: Probe, e: Env)
    requires ReplyOk(r) && r.direction == Receive
    ensures Goes(r, ActUntilWait(r, e).probe)
    decreases Rank(r)
  {
    hide RxAct, Rank, SaysOnlyIfTold, Silent, AnswersNoMore;
    RankFalls(r, e);
    DirectionKept(r, e);
    RxActGoes(r, e);
    UnfoldActs(r, e);
    if Act(r, e).wait == 0 {
      RxActsGo(RxAct(r, e).probe, e);
      GoesOn(r, RxAct(r, e).probe, ActUntilWait(r, e).probe);
    }
  }

  lemma {:induction false} RxPacketSends(r: Probe, m: Message, e: Env, wait: nat)
    requires ReplyOk(r)
    ensures var u := RxPacketHandled(r, m, e, wait).probe;
            && ReplyOk(u) && u.fifo == r.fifo
            && (u.control.sent == r.control.sent
                || (m.CommandMessage? && m.command == Ping
                    && exists a :: u.control.sent == r.control.sent + [a] && a.AckMessage? && a.ackNum == m.num))
  {
    hide ProbeRx.HandleReset, HandleProtocolVersion;
    if m.CommandMessage? {
      var q := r.(control := r.control.Process(m));
      RxHandlersReply(q, m, e, wait);
      var ack := AckMessage(r.control.Next(), |r.control.sent|, m.command, m.num, m.serial);
      assert m.command == Ping ==> RxPacketHandled(r, m, e, wait).probe.control.sent == r.control.sent + [ack];
    }
  }

  lemma {:induction false} RxHandlersReply(r: Probe, m: Message, e: Env, wait: nat)
    requires m.CommandMessage? && ReplyOk(r)
    ensures var u := ProbeRx.HandleReset(r, m, e).probe;
            u.fifo == r.fifo && u.control.sent == r.control.sent && (m.command != Ping ==> ReplyOk(u))
    ensures var u := HandleProtocolVersion(r, m, e, wait).probe;
            u.fifo == r.fifo && u.control.sent == r.control.sent && (m.command != Ping ==> ReplyOk(u))
  {
  }

  /** Reading a command other than the move to Connected. */
  lemma {:induction false} RxTakeAnswers(r: Probe, e: Env, wait: nat)
    requires ReplyOk(r) && r.fifo != [] && r.fifo[0] != StateChange(EfaConnected)
    ensures Goes(r, RxTake(r, e, wait).probe)
  {
    hide SaysOnlyIfTold, Silent, RxPacketHandled;
    var q := r.(fifo := r.fifo[1..]);
    var u := RxTake(r, e, wait).probe;
    RxTakeSays(r, e, wait);
    if r.fifo[0].RxPacket? {
      RxPacketSends(q, r.fifo[0].message, e, wait);
    }
    assert r.fifo == [r.fifo[0]] + u.fifo;
    forall n: U16 | Answers(u, n)
      ensures Answers(r, n)
    {
      PoppedAnswers(r, u, n);
    }
  }

  lemma {:induction false} PoppedAnswers(r: Probe, u: Probe, n: U16)
    requires r.fifo != [] && u.fifo == r.fifo[1..] && r.fifo[0] != StateChange(EfaConnected) && Answers(u, n)
    requires u.control.sent == r.control.sent
             || exists a :: u.control.sent == r.control.sent + [a] && (IsAck(a, n) ==> IsPing(r.fifo[0], n))
    ensures Answers(r, n)
  {
    assert forall j :: 0 < j < |r.fifo| ==> r.fifo[j] == u.fifo[j - 1];
    if Answered(u.control.sent, n) {
      var i :| 0 <= i < |u.control.sent| && IsAck(u.control.sent[i], n);
      if i < |r.control.sent| {
        assert r.control.sent[i] == u.control.sent[i];
      } else {
        assert IsPing(r.fifo[0], n);
        assert PingFirst(r.fifo, n);
      }
    } else if PingFirst(u.fifo, n) {
      var i :| 0 <= i < |u.fifo| && IsPing(u.fifo[i], n) && forall j :: 0 <= j < i ==> u.fifo[j] != StateChange(EfaConnected);
      assert IsPing(r.fifo[i + 1], n);
      assert PingFirst(r.fifo, n);
    } else {
      assert NothingConnects(r.fifo);
    }
  }

  /** Commands at the end of the queue, no move to Connected among them unless they are nothing else. */
  lemma {:induction false} LaterAnswers(r: Probe, u: Probe, cs: seq<ControlCommand>)
    requires ReplyOk(r) && u.fifo == r.fifo + cs && u.control == r.control && r.events <= u.events
    requires NothingConnects(cs) || cs == [StateChange(EfaConnected)]
    ensures Goes(r, u)
  {
    forall n: U16 | Answers(u, n)
      ensures Answers(r, n)
    {
      if PingFirst(u.fifo, n) {
        var i :| 0 <= i < |u.fifo| && IsPing(u.fifo[i], n) && forall j :: 0 <= j < i ==> u.fifo[j] != StateChange(EfaConnected);
        assert forall j :: 0 <= j < |r.fifo| ==> r.fifo[j] == u.fifo[j];
        if i < |r.fifo| {
          assert PingFirst(r.fifo, n);
        } else {
          assert NothingConnects(r.fifo);
        }
      } else if NothingConnects(u.fifo) {
        assert forall j :: 0 <= j < |r.fifo| ==> r.fifo[j] == u.fifo[j];
      }
    }
  }

  /** Reading the move to Connected tells the application. */
  lemma {:induction false} ConnectsTells(r: Probe, e: Env, wait: nat)
    requires ReplyOk(r) && r.direction == Receive && r.fifo != [] && r.fifo[0] == StateChange(EfaConnected)
    ensures var p := RxTake(r, e, wait).probe;
            RxTake(r, e, wait).wait == 0 && Goes(r, ActUntilWait(p, e).probe)
  {
    hide Answers, ActUntilWait;
    var p := RxTake(r, e, wait).probe;
    var u := RxAct(p, e).probe;
    RxTakeSays(r, e, wait);
    UnfoldActs(p, e);
    assert u.events[|r.events|] == TellConnected;
    BecomesAndSays(r, p, u, e);
  }

  lemma {:induction false} BecomesAndSays(r: Probe, p: Probe, u: Probe, e: Env)
    requires ReplyOk(r) && p == r.(fifo := p.fifo, state := EfaConnected) && u == BecomeConnected(p, e).probe
    ensures ReplyOk(u) && SaysOnlyIfTold(r, u) && !Silent(r.events, u.events)
  {
    BecomeConnectedSays(p, e);
    assert u.events[|r.events|] == TellConnected;
  }

  lemma {:induction false} RxRoundGoes(th: Thread, tick: Tick, sent: seq<Message>)
    requires ReplyOk(th.probe) && th.probe.direction == Receive && CanTick(th, tick) && AllMayArrive(th.probe, sent, tick.arrivals)
    ensures Goes(th.probe, Round(th, tick).probe) && Round(th, tick).probe.direction == Receive
  {
    hide Goes, ActUntilWait, RxTake, Answers;
    var q := Queue(th, tick);
    forall i | 0 <= i < |tick.arrivals|
      ensures tick.arrivals[i] != StateChange(EfaConnected)
    {
      assert MayArrive(th.probe, sent, tick.arrivals[i]);
    }
    LaterAnswers(th.probe, q, tick.arrivals);
    ActsKeepDirection(q, tick.e);
    if !tick.read {
      RxActsGo(q, tick.e);
      GoesOn(th.probe, q, ActUntilWait(q, tick.e).probe);
    } else {
      var p := RxTake(q, tick.e, th.waitMs).probe;
      RxTakeDirection(q, tick.e, th.waitMs);
      ActsKeepDirection(p, tick.e);
      if q.fifo[0] == StateChange(EfaConnected) {
        ConnectsTells(q, tick.e, th.waitMs);
        GoesOn(th.probe, q, ActUntilWait(p, tick.e).probe);
      } else {
        RxTakeAnswers(q, tick.e, th.waitMs);
        GoesOn(th.probe, q, p);
        StillReplyOk(th.probe, p);
        RxActsGo(p, tick.e);
        GoesOn(th.probe, p, ActUntilWait(p, tick.e).probe);
      }
    }
  }

  lemma {:induction false} StillReplyOk(r: Probe, u: Probe)
    requires Goes(r, u)
    ensures ReplyOk(u)
  {
  }

  lemma {:induction false} RxTakeDirection(r: Probe, e: Env, wait: nat)
    requires r.fifo != []
    ensures RxTake(r, e, wait).probe.direction == r.direction
  {
  }

  lemma {:induction false} ActsKeepDirection(p: Probe, e: Env)
    ensures ActUntilWait(p, e).probe.direction == p.direction
    decreases Rank(p)
  {
    hide Act, Rank;
    RankFalls(p, e);
    DirectionKept(p, e);
    UnfoldActs(p, e);
    if Act(p, e).wait == 0 {
      ActsKeepDirection(Act(p, e).probe, e);
    }
  }

  // ----- Runs of two threads -----

  /** Nothing more can be answered, so nothing more comes. */
  lemma {:induction false} CalmStill(t: Probe, r: Probe, u: Probe, stale: seq<Message>)
    requires Calm(t, r, stale) && AnswersNoMore(r, u)
    ensures Calm(t, u, stale)
  {
    hide Answers, HasNum, AckFirst, NothingBlocks;
    forall k: nat, n: U16 | HasNum(t, k, n)
      ensures !AckComes(t.fifo, u, n)
    {
      assert !AckComes(t.fifo, r, n);
    }
  }

  lemma {:induction false} BlockAtEnd(t: Probe, u: Probe, r: Probe, stale: seq<Message>)
    requires Calm(t, r, stale) && u.direction == Send && u.state == t.state && u.control == t.control && Resends(u) <= Resends(t)
    requires u.fifo == t.fifo || u.fifo == t.fifo + [StateChange(EfaReset)]
    ensures Calm(u, r, stale)
  {
    hide AckComes, Resends;
    forall k: nat, n: U16 | HasNum(u, k, n)
      ensures !AckComes(u.fifo, r, n)
    {
      assert HasNum(t, k, n);
      if u.fifo != t.fifo && AckComes(u.fifo, r, n) {
        ArrivedBefore(t.fifo, [StateChange(EfaReset)], r, n);
      }
    }
  }

  /** Between two moments of a run the records grow; and as long as the receiver's application has not been told anew, it
      has sent no new Connected packet, and the transmitter is calm and its application has not been told anew. */
  ghost predicate StaysInOrder(b: Threads, t: Threads) {
    var p, q := b.tx.probe, b.rx.probe;
    var tx, rx := t.tx.probe, t.rx.probe;
    && tx.direction == Send && rx.direction == Receive && ReplyOk(rx)
    && p.events <= tx.events && q.events <= rx.events && q.control.sent <= rx.control.sent
    && (!Silent(q.events, rx.events) || (Calm(tx, rx, q.control.sent) && Silent(p.events, tx.events) && SaysNoConnected(q, rx)))
  }

  predicate SaysNoConnected(q: Probe, r: Probe) {
    forall i :: |q.control.sent| <= i < |r.control.sent| ==> !IsConnected(r.control.sent[i])
  }

  lemma {:induction false} ActsGrow(t: Probe, e: Env)
    requires t.direction == Send
    ensures t.events <= ActUntilWait(t, e).probe.events
    decreases Rank(t)
  {
    hide TxAct, Rank, ToldAfter;
    RankFalls(t, e);
    DirectionKept(t, e);
    TxActTells(t, e);
    UnfoldActs(t, e);
    if Act(t, e).wait == 0 {
      ActsGrow(TxAct(t, e).probe, e);
      Prefixes(t.events, TxAct(t, e).probe.events, ActUntilWait(t, e).probe.events);
    }
  }

  lemma {:induction false} TxRoundGrows(th: Thread, tick: Tick)
    requires th.probe.direction == Send && CanTick(th, tick)
    ensures th.probe.events <= Round(th, tick).probe.events && Round(th, tick).probe.direction == Send
  {
    hide ActUntilWait, TxTake, ToldAfter;
    var q := Queue(th, tick);
    var p := if tick.read then TxTake(q, tick.e, th.waitMs).probe else q;
    if tick.read {
      TxTakeTells(q, tick.e, th.waitMs);
      TxTakeKeepsDirection(q, tick.e, th.waitMs);
    }
    ActsGrow(p, tick.e);
    ActsKeepDirection(p, tick.e);
    Prefixes(th.probe.events, p.events, ActUntilWait(p, tick.e).probe.events);
  }

  lemma {:induction false} OldConnected(q: Probe, r: Probe, s: System)
    requires ProbeSystem.Inv(s) && s.rx == r && q.control.sent <= r.control.sent && SaysNoConnected(q, r)
    ensures forall m :: m in r.control.sent ==> FromRx(m) && (IsConnected(m) ==> m in q.control.sent)
  {
    forall m | m in r.control.sent
      ensures FromRx(m) && (IsConnected(m) ==> m in q.control.sent)
    {
      SentByRx(r, m);
      var i :| 0 <= i < |r.control.sent| && r.control.sent[i] == m;
      assert i < |q.control.sent| ==> q.control.sent[i] == m;
    }
  }

  lemma {:induction false} TxRoundInOrder(b: Threads, t: Threads, tick: Tick)
    requires StaysInOrder(b, t) && ProbeSystem.Inv(t.System()) && CanMove(t, TxRound(tick))
    requires !RoundReadsOld(t, TxRound(tick), b.rx.probe.control.sent)
    ensures StaysInOrder(b, Moved(t, TxRound(tick)))
  {
    hide Calm, Silent, SaysNoConnected, ReplyOk, Round, ProbeSystem.Inv;
    var th, q := t.tx, b.rx.probe;
    TxRoundGrows(th, tick);
    Prefixes(b.tx.probe.events, th.probe.events, Round(th, tick).probe.events);
    if Silent(q.events, t.rx.probe.events) {
      OldConnected(q, t.rx.probe, t.System());
      assert tick.read ==> MayRead(Queue(th, tick), q.control.sent);
      CalmRound(th, tick, t.rx.probe, q.control.sent);
      SilentTrans(b.tx.probe.events, th.probe.events, Round(th, tick).probe.events);
    }
  }

  /** A move of the receiver. */
  lemma {:induction false} RxMoveInOrder(b: Threads, t: Threads, u: Threads)
    requires StaysInOrder(b, t) && u.tx == t.tx && Goes(t.rx.probe, u.rx.probe) && u.rx.probe.direction == Receive
    ensures StaysInOrder(b, u)
  {
    hide Calm, AnswersNoMore, ReplyOk;
    var q, r, v := b.rx.probe, t.rx.probe, u.rx.probe;
    Prefixes(q.events, r.events, v.events);
    Prefixes(q.control.sent, r.control.sent, v.control.sent);
    if Silent(q.events, v.events) {
      assert Silent(q.events, r.events) && Silent(r.events, v.events);
      CalmStill(t.tx.probe, r, v, q.control.sent);
      forall i | |q.control.sent| <= i < |v.control.sent|
        ensures !IsConnected(v.control.sent[i])
      {
        assert i < |r.control.sent| ==> v.control.sent[i] == r.control.sent[i];
      }
    }
  }

  /** What happens to the transmitter between its rounds. */
  lemma {:induction false} TxMessageInOrder(b: Threads, t: Threads, u: Probe)
    requires StaysInOrder(b, t) && u.direction == Send && u.state == t.tx.probe.state && u.control == t.tx.probe.control
    requires u.tx.retries == t.tx.probe.tx.retries
    requires u.fifo == t.tx.probe.fifo || u.fifo == t.tx.probe.fifo + [StateChange(EfaReset)]
    requires Silent(t.tx.probe.events, u.events)
    ensures StaysInOrder(b, t.(tx := t.tx.(probe := u)))
  {
    hide Calm, SaysNoConnected, ReplyOk;
    var q := b.rx.probe;
    Prefixes(b.tx.probe.events, t.tx.probe.events, u.events);
    if Silent(q.events, t.rx.probe.events) {
      BlockAtEnd(t.tx.probe, u, t.rx.probe, q.control.sent);
      SilentTrans(b.tx.probe.events, t.tx.probe.events, u.events);
    }
  }

  /** What an endpoint error or a message of the data path leaves as it is. */
  predicate OnlyMessage(p: Probe, u: Probe, x: ProbeState) {
    && u.direction == p.direction && u.state == p.state && u.control == p.control && u.tx.retries == p.tx.retries
    && (u.fifo == p.fifo || u.fifo == p.fifo + [StateChange(x)]) && Silent(p.events, u.events)
  }

  lemma {:induction false} ErrorIs(p: Probe)
    ensures OnlyMessage(p, p.EndpointError(), EfaReset)
  {
  }

  lemma {:induction false} TxMessageIs(p: Probe, success: bool, last: bool)
    ensures OnlyMessage(p, TxEfaMessage(p, success, last), EfaReset)
  {
    hide Silent;
    var d := if success then p else p.EndpointError();
    ErrorIs(p);
    SilentSelf(p.events);
    var u := TxEfaMessage(p, success, last);
    SilentAppend(d.events, u.events[|d.events|..]);
    assert u.events == d.events + u.events[|d.events|..];
    SilentTrans(p.events, d.events, u.events);
  }

  lemma {:induction false} RxMessageIs(p: Probe, success: bool)
    ensures OnlyMessage(p, RxEfaMessage(p, success), EfaConnected)
  {
    hide Silent;
    SilentSelf(p.events);
    SilentAppend(p.events, [EfaPacketReceived]);
  }

  lemma {:induction false} MessageGoes(r: Probe, u: Probe)
    requires ReplyOk(r) && u.control == r.control && r.events <= u.events
    requires u.fifo == r.fifo || u.fifo == r.fifo + [StateChange(EfaReset)] || u.fifo == r.fifo + [StateChange(EfaConnected)]
    ensures Goes(r, u)
  {
    hide Goes;
    assert r.fifo + [] == r.fifo;
    LaterAnswers(r, u, u.fifo[|r.fifo|..]);
  }

  lemma {:induction false} MoveInOrder(b: Threads, t: Threads, move: Move)
    requires StaysInOrder(b, t) && ProbeSystem.Inv(t.System()) && CanMove(t, move) && !RoundReadsOld(t, move, b.rx.probe.control.sent)
    ensures StaysInOrder(b, Moved(t, move))
  {
    hide ProbeSystem.Inv, Round, CanTick, Goes, Calm, Silent, SaysNoConnected, ReplyOk;
    hide TxEfaMessage, RxEfaMessage;
    var r := t.rx.probe;
    match move {
      case TxRound(tick) => TxRoundInOrder(b, t, tick);
      case RxRound(tick) =>
        RxRoundGoes(t.rx, tick, t.tx.probe.control.sent);
        RxMoveInOrder(b, t, Moved(t, move));
      case Between(step) => BetweenInOrder(b, t, step);
    }
  }

  lemma {:induction false} BetweenInOrder(b: Threads, t: Threads, step: Step)
    requires StaysInOrder(b, t) && CanMove(t, Between(step))
    ensures StaysInOrder(b, Moved(t, Between(step)))
  {
    hide Goes, Calm, Silent, SaysNoConnected, ReplyOk, TxEfaMessage, RxEfaMessage;
    var tx, rx := t.tx.probe, t.rx.probe;
    var u := Moved(t, Between(step));
    assert ReplyOk(rx);
    match step {
      case TxAcked(success, last) =>
        TxMessageIs(tx, success, last);
        TxMessageInOrder(b, t, u.tx.probe);
      case TxError =>
        ErrorIs(tx);
        TxMessageInOrder(b, t, u.tx.probe);
      case RxPacketArrives(success) =>
        RxMessageIs(rx, success);
        SilentGrows(rx.events, u.rx.probe.events);
        MessageGoes(rx, u.rx.probe);
        RxMoveInOrder(b, t, u);
      case RxError =>
        ErrorIs(rx);
        SilentGrows(rx.events, u.rx.probe.events);
        MessageGoes(rx, u.rx.probe);
        RxMoveInOrder(b, t, u);
    }
  }

  lemma {:induction false} SilentGrows(a: seq<Event>, b: seq<Event>)
    requires Silent(a, b)
    ensures a <= b
  {
  }

  lemma {:induction false} MovesInOrder(b: Threads, t: Threads, moves: seq<Move>)
    requires StaysInOrder(b, t) && Reachable(t.System()) && CanRun(t, moves)
    requires NeverReadsOld(t, moves, b.rx.probe.control.sent)
    ensures StaysInOrder(b, RunThreads(t, moves))
    decreases |moves|
  {
    hide StaysInOrder, Reachable, CanMove, Moved, RoundReadsOld, ProbeSystem.Inv;
    if moves != [] {
      InvReached(t.System());
      MoveInOrder(b, t, moves[0]);
      MoveReaches(t, moves[0]);
      MovesInOrder(b, Moved(t, moves[0]), moves[1..]);
    }
  }
}

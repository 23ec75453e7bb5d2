/** Runs of two control threads, from their start, in which the protocol does what one might not expect. */
module ProbeExamples {
  import opened Probe
  import opened ProbeTx
  import opened ProbeRx
  import opened ProbeSystem
  import opened ProbeThread
  import opened ProbeTiming
  import opened ProbeBurst
  import opened ProbeRounds
  import opened ProbeMoves

  /** The threads get here, on a data path that invents nothing. */
  ghost predicate Reached(t: Threads) {
    Leads(NewThreads(), [], t)
  }

  // ----- An acknowledgement that is 2^16 packets old -----

  const FIRST := CommandMessage(Reset, 1, 0)

  /** The transmitter repeats its Reset command n times. */
  lemma {:induction false} ResetsSent(n: nat) returns (t: Threads)
    requires n > 0
    ensures Reached(t) && t.rx == Thread(NewProbe(Receive), 0, 0) && t.tx.waitMs > 0
    ensures t.tx.probe.direction == Send && t.tx.probe.fifo == [] && t.tx.probe.state == SendReset && !t.tx.probe.connected
    ensures var c := t.tx.probe.control;
            && |c.sent| == n && c.sent[0] == FIRST && c.num == n % 0x1_0000
            && c.pending == Pending(Reset, c.num, n - 1) && c.reply == NoReply
    ensures n == 1 ==> t.tx.probe.events == [TellDisconnected]
  {
    hide Leads, ActUntilWait;
    if n == 1 {
      LeadsNowhere(NewThreads(), []);
      ActsOnce(NewProbe(Send));
      t := TxLater(NewThreads(), [], NewThreads());
    } else {
      var s := ResetsSent(n - 1);
      ActsOnce(s.tx.probe);
      t := TxLater(NewThreads(), [], s);
    }
  }

  /** The receiver gets the first Reset command, resets itself, and acknowledges the command when that is done. */
  lemma {:induction false} FirstAcknowledged(s: Threads) returns (t: Threads, ack: Message)
    requires Reached(s) && s.rx == Thread(NewProbe(Receive), 0, 0) && FIRST in s.tx.probe.control.sent
    ensures Reached(t) && t.tx == s.tx && t.rx.waitMs > 0
    ensures ack == AckMessage(1, 0, Reset, 1, 0) && t.rx.probe.control.sent == [ack] && t.rx.probe.control.num == 1
    ensures t.rx.probe.direction == Receive && t.rx.probe.fifo == [] && !t.rx.probe.hasVersion
    ensures t.rx.probe.control.reply == NoReply && t.rx.probe.events == [TellDisconnected, QueueEndpointReset]
  {
    hide Leads, ActUntilWait;
    var a := RxGets(NewThreads(), [], s, FIRST);
    ActsOnce(RxPacketHandled(s.rx.probe, FIRST, ENV, 0).probe);
    assert a.rx.probe.fifo == [] && a.rx.probe.control.reply == Reply(Reset, 1, 0);
    t := RxIsPosted(NewThreads(), [], a, ResetDone);
    ActsOnce(a.rx.probe.(state := ResetDone));
    ack := AckMessage(1, 0, Reset, 1, 0);
  }

  /** The threads get to a state in which the transmitter accepts an acknowledgement that is 2^16 packets old: the bound
      of AckFresh cannot be raised. */
  lemma {:induction false} StaleAckAccepted()
    ensures exists moves: seq<Move>, m: Message ::
              && CanRun(NewThreads(), moves) && GenuineRun(NewThreads(), moves)
              && var t := RunThreads(NewThreads(), moves).tx.probe;
                 && t.fifo == [RxPacket(m)] && m.AckMessage? && Accepts(t, m)
                 && |t.control.sent| - m.ackSerial == 0x1_0001 && t.control.pending.serial == m.ackSerial + 0x1_0000
  {
    hide Leads, CanRun, GenuineRun, RunThreads;
    var s := ResetsSent(0x1_0001);
    var t, m := FirstAcknowledged(s);
    var u := TxArrives(NewThreads(), [], t, [RxPacket(m)]);
    assert u.tx.probe.fifo == [RxPacket(m)];
    var moves := MovesTo(u);
  }

  lemma {:induction false} MovesTo(t: Threads) returns (moves: seq<Move>)
    requires Reached(t)
    ensures CanRun(NewThreads(), moves) && GenuineRun(NewThreads(), moves) && RunThreads(NewThreads(), moves) == t
  {
    hide CanMove, GenuineMove, RoundReadsOld;
    moves :| Passes(NewThreads(), moves, []) && RunThreads(NewThreads(), moves) == t;
  }

  // ----- A connection that is carried over a reset -----

  const VERSION := CommandMessage(ProtocolVersion, 2, 1)

  /** The Reset command is acknowledged, and the transmitter sends its version. */
  lemma {:induction false} VersionSent() returns (t: Threads)
    ensures Reached(t) && t.tx.probe.direction == Send && t.rx.probe.direction == Receive
    ensures t.tx.probe.fifo == [] && t.tx.probe.events == [TellDisconnected] && !t.tx.probe.connected
    ensures t.tx.probe.control.pending == Pending(ProtocolVersion, 2, 1) && t.tx.probe.control.reply == NoReply
    ensures VERSION in t.tx.probe.control.sent
    ensures t.rx.probe.fifo == [] && t.rx.probe.events == [TellDisconnected, QueueEndpointReset]
    ensures |t.rx.probe.control.sent| == 1
  {
    hide Leads, ActUntilWait;
    var a := ResetsSent(1);
    var b, ackReset := FirstAcknowledged(a);
    t := TxGets(NewThreads(), [], b, ackReset);
    ActsOnce(TxPacket(b.tx.probe, ackReset, ENV, b.tx.waitMs).probe);
    assert t.tx.probe.control.sent[1] == VERSION;
  }

  /** The receiver is started and acknowledges the version. */
  lemma {:induction false} VersionsExchanged() returns (t: Threads, ack: Message)
    ensures Reached(t) && t.tx.probe.direction == Send && t.rx.probe.direction == Receive
    ensures t.tx.probe.fifo == [] && t.tx.probe.events == [TellDisconnected] && !t.tx.probe.connected
    ensures t.tx.probe.control.pending == Pending(ProtocolVersion, 2, 1) && t.tx.probe.control.reply == NoReply
    ensures t.rx.probe.fifo == [] && t.rx.probe.probing && t.rx.probe.rx.received == 0 && t.rx.probe.control.reply == NoReply
    ensures t.rx.probe.events == [TellDisconnected, QueueEndpointReset, QueueEndpointStart, EfaStarted]
    ensures ack in t.rx.probe.control.sent && ack.AckMessage? && ack.ackCommand == ProtocolVersion && ack.ackNum == 2
  {
    hide Leads, ActUntilWait;
    var d := VersionSent();
    var e := RxGets(NewThreads(), [], d, VERSION);
    t := RxIsPosted(NewThreads(), [], e, EfaStart);
    ActsOnce(e.rx.probe.(state := EfaStart));
    ack := t.rx.probe.control.sent[1];
  }

  /** In the middle of a burst: k packets have arrived and been acknowledged, and the next one is outstanding. */
  predicate InBurst(t: Threads, k: nat) {
    var tx, rx := t.tx.probe, t.rx.probe;
    && tx.direction == Send && rx.direction == Receive && tx.fifo == [] && rx.fifo == []
    && tx.state == EfaProbe && tx.probing && !tx.connected && tx.tx.acked == k && tx.tx.enqueued == k + 1
    && rx.probing && rx.rx.received == k
    && Queued(tx.events) == k + 1 && Sendings(tx.events) == k + 1 && Arrivals(rx.events) == k
  }

  lemma {:induction false} BurstStarts() returns (t: Threads)
    ensures Reached(t) && InBurst(t, 0)
  {
    hide Leads, ActUntilWait, Queued, Sendings, Arrivals;
    var a, ack := VersionsExchanged();
    var b := TxGets(NewThreads(), [], a, ack);
    t := TxIsPosted(NewThreads(), [], b, EfaStart);
    ActsOnce(b.tx.probe.(state := EfaStart));
    CountedAtStart();
    assert t.tx.probe.events == [TellDisconnected, QueueEndpointStart, EfaStarted, EfaPacketQueued(0, 1 == EFA_PROBE_PACKET_COUNT)];
  }

  lemma {:induction false} CountedAtStart()
    ensures var es := [TellDisconnected, QueueEndpointStart, EfaStarted, EfaPacketQueued(0, 1 == EFA_PROBE_PACKET_COUNT)];
            Queued(es) == 1 && Sendings(es) == 1
    ensures Arrivals([TellDisconnected, QueueEndpointReset, QueueEndpointStart, EfaStarted]) == 0
  {
    hide Queued, Sendings, Arrivals;
    var queued := EfaPacketQueued(0, 1 == EFA_PROBE_PACKET_COUNT);
    assert [] + [TellDisconnected] == [TellDisconnected];
    assert [TellDisconnected] + [QueueEndpointStart] == [TellDisconnected, QueueEndpointStart];
    assert [TellDisconnected, QueueEndpointStart] + [EfaStarted] == [TellDisconnected, QueueEndpointStart, EfaStarted];
    assert [TellDisconnected, QueueEndpointStart, EfaStarted] + [queued]
           == [TellDisconnected, QueueEndpointStart, EfaStarted, queued];
    assert [TellDisconnected] + [QueueEndpointReset] == [TellDisconnected, QueueEndpointReset];
    assert [TellDisconnected, QueueEndpointReset] + [QueueEndpointStart]
           == [TellDisconnected, QueueEndpointReset, QueueEndpointStart];
    assert [TellDisconnected, QueueEndpointReset, QueueEndpointStart] + [EfaStarted]
           == [TellDisconnected, QueueEndpointReset, QueueEndpointStart, EfaStarted];
    CountsNothing();
    CountedSnoc([], TellDisconnected);
    CountedSnoc([TellDisconnected], QueueEndpointStart);
    CountedSnoc([TellDisconnected, QueueEndpointStart], EfaStarted);
    CountedSnoc([TellDisconnected, QueueEndpointStart, EfaStarted], queued);
    QueuedSnoc([TellDisconnected, QueueEndpointStart], EfaStarted);
    QueuedSnoc([TellDisconnected, QueueEndpointStart, EfaStarted], queued);
    CountedSnoc([TellDisconnected], QueueEndpointReset);
    CountedSnoc([TellDisconnected, QueueEndpointReset], QueueEndpointStart);
    CountedSnoc([TellDisconnected, QueueEndpointReset, QueueEndpointStart], EfaStarted);
  }

  lemma {:induction false} CountsNothing()
    ensures Sendings([]) == 0 && Arrivals([]) == 0
  {
  }

  /** The outstanding packet arrives and is acknowledged. */
  lemma {:induction false} OnePacket(s: Threads, k: nat) returns (t: Threads)
    requires Reached(s) && InBurst(s, k) && k < EFA_PROBE_PACKET_COUNT
    ensures Reached(t)
    ensures if k + 1 < EFA_PROBE_PACKET_COUNT then InBurst(t, k + 1) else BurstDone(t)
  {
    hide Leads, Queued, Sendings, Arrivals;
    var move := Between(RxPacketArrives(true));
    LeadsOn(NewThreads(), [], s, move);
    var a := Moved(s, move);
    t := Acknowledged(NewThreads(), [], a);
    CountedSnoc(s.rx.probe.events, EfaPacketReceived);
    var queued := EfaPacketQueued(k + 1, k + 2 == EFA_PROBE_PACKET_COUNT);
    CountedSnoc(s.tx.probe.events, queued);
    QueuedSnoc(s.tx.probe.events, queued);
  }

  predicate BurstDone(t: Threads) {
    var tx, rx := t.tx.probe, t.rx.probe;
    && tx.direction == Send && rx.direction == Receive && tx.fifo == [] && rx.fifo == [StateChange(EfaConnected)]
    && tx.state == EfaProbe && tx.tx.acked == EFA_PROBE_PACKET_COUNT
  }

  lemma {:induction false} WholeBurst(s: Threads, k: nat) returns (t: Threads)
    requires Reached(s) && InBurst(s, k) && k < EFA_PROBE_PACKET_COUNT
    ensures Reached(t) && BurstDone(t)
    decreases EFA_PROBE_PACKET_COUNT - k
  {
    hide Reached, InBurst, BurstDone;
    t := OnePacket(s, k);
    if k + 1 < EFA_PROBE_PACKET_COUNT {
      t := WholeBurst(t, k + 1);
    }
  }

  /** The receiver's application is told Connected, then the transmitter's, which sends a Ping. */
  lemma {:induction false} BothConnect() returns (t: Threads, ping: Message)
    ensures Reached(t) && t.tx.probe.direction == Send && t.rx.probe.direction == Receive
    ensures t.tx.probe.fifo == [] && t.rx.probe.fifo == [] && t.rx.probe.connected
    ensures ping in t.tx.probe.control.sent && ping.CommandMessage? && ping.command == Ping
    ensures t.tx.probe.control.pending == Pending(Ping, ping.num, ping.serial)
  {
    hide Leads, ActUntilWait;
    var d := ProbeIsOver();
    t := TxReads(NewThreads(), [], d, []);
    var q := d.tx.probe.(fifo := [], state := EfaConnected);
    assert d.tx.probe.fifo + [] == d.tx.probe.fifo && d.tx.probe.fifo[1..] == [];
    assert d.tx.probe.(fifo := d.tx.probe.fifo + []) == d.tx.probe;
    assert Take(d.tx.probe, ENV, d.tx.waitMs) == Handled(q, true, 0);
    ActsTwice(q);
    ping := t.tx.probe.control.sent[|d.tx.probe.control.sent|];
  }

  /** The receiver is connected, and the transmitter is about to be. */
  lemma {:induction false} ProbeIsOver() returns (t: Threads)
    ensures Reached(t) && t.tx.probe.direction == Send && t.rx.probe.direction == Receive
    ensures t.tx.probe.fifo == [StateChange(EfaConnected)] && t.rx.probe.fifo == [] && t.rx.probe.connected
  {
    hide Leads, ActUntilWait;
    var a := BurstStarts();
    var b := WholeBurst(a, 0);
    var c, m := ReceiverConnects(b);
    t := TxGets(NewThreads(), [], c, m);
    var p := TxPacket(c.tx.probe, m, ENV, c.tx.waitMs).probe;
    assert p.state == EfaTxProbeAcks;
    ActsOnce(p);
  }

  lemma {:induction false} ReceiverConnects(s: Threads) returns (t: Threads, m: Message)
    requires Reached(s) && BurstDone(s)
    ensures Reached(t) && t.tx == s.tx && t.rx.probe.direction == Receive && t.rx.probe.fifo == [] && t.rx.probe.connected
    ensures m in t.rx.probe.control.sent && IsConnected(m)
  {
    hide Leads, ActUntilWait;
    var p := s.rx.probe;
    t := RxReads(NewThreads(), [], s, []);
    var q := p.(fifo := [], state := EfaConnected);
    assert p.(fifo := p.fifo + []) == p && p.fifo[1..] == [];
    assert Take(p, ENV, s.rx.waitMs) == Handled(q, true, 0);
    ActsOnce(q);
    m := t.rx.probe.control.sent[|p.control.sent|];
  }

  /** The receiver acknowledges the Ping, has an error, and resets the connection. */
  lemma {:induction false} ReceiverResets(s: Threads, ping: Message) returns (t: Threads, ack: Message, reset: Message)
    requires Reached(s) && s.rx.probe.direction == Receive && s.rx.probe.fifo == [] && s.rx.probe.connected
    requires ping in s.tx.probe.control.sent && ping.CommandMessage? && ping.command == Ping
    ensures Reached(t) && t.tx == s.tx
    ensures t.rx.probe.events == s.rx.probe.events + [TellDisconnected, TellDisconnected, QueueEndpointReset]
    ensures ack in t.rx.probe.control.sent && ack.AckMessage? && ack.ackCommand == Ping && ack.ackNum == ping.num
    ensures reset in t.rx.probe.control.sent && reset.CommandMessage? && reset.command == Reset
  {
    hide Leads, ActUntilWait;
    var a := RxGets(NewThreads(), [], s, ping);
    ack := a.rx.probe.control.sent[|s.rx.probe.control.sent|];
    var move := Between(RxError);
    LeadsOn(NewThreads(), [], a, move);
    var b := Moved(a, move);
    assert b.rx.probe.events == s.rx.probe.events + [TellDisconnected] && b.rx.probe.fifo == [StateChange(EfaReset)];
    var c := ErrorRead(b);
    assert c.rx.probe.events == s.rx.probe.events + [TellDisconnected, TellDisconnected, QueueEndpointReset];
    t := RxLater(NewThreads(), [], c);
    ActsOnce(c.rx.probe);
    assert t.rx.probe.control.sent[|s.rx.probe.control.sent|] == ack;
    reset := t.rx.probe.control.sent[|c.rx.probe.control.sent|];
  }

  lemma {:induction false} ErrorRead(s: Threads) returns (t: Threads)
    requires Reached(s) && s.rx.probe.direction == Receive && s.rx.probe.fifo == [StateChange(EfaReset)]
    ensures Reached(t) && t.tx == s.tx && t.rx.probe.direction == Receive && t.rx.probe.state == Resetting
    ensures t.rx.probe.events == s.rx.probe.events + [TellDisconnected, QueueEndpointReset]
    ensures t.rx.probe.control == s.rx.probe.control
  {
    hide Leads, ActUntilWait;
    var p := s.rx.probe;
    t := RxReads(NewThreads(), [], s, []);
    assert p.(fifo := p.fifo + []) == p;
    var q := p.(fifo := p.fifo[1..], state := EfaReset);
    assert Take(p, ENV, s.rx.waitMs) == Handled(q, true, 0);
    ActsOnce(q);
  }

  /** A run of two threads in which both sides are reset and then the transmitter's application alone is told Connected
      again: the acknowledgement of a Ping that was sent before the reset is read after it. */
  lemma {:induction false} ConnectedAfterResetAlone()
    ensures exists moves: seq<Move>, tx: seq<Event>, rx: seq<Event> ::
              && CanRun(NewThreads(), moves) && GenuineRun(NewThreads(), moves)
              && var t := RunThreads(NewThreads(), moves);
                 && t.tx.probe.events == tx + [TellDisconnected, QueueEndpointReset, TellConnected]
                 && t.rx.probe.events == rx + [TellDisconnected, TellDisconnected, QueueEndpointReset]
  {
    hide ActUntilWait, Leads, CanRun, GenuineRun, RunThreads;
    var a, ping := BothConnect();
    var b, ack, reset := ReceiverResets(a, ping);
    var c := TxGets(NewThreads(), [], b, reset);
    assert c.tx.probe.fifo == [] && c.tx.probe.events == a.tx.probe.events + [TellDisconnected, QueueEndpointReset];
    var d := TxGets(NewThreads(), [], c, ack);
    assert d.tx.probe.state == EfaConnected;
    var e := TxLater(NewThreads(), [], d);
    ActsTwice(d.tx.probe);
    assert e.tx.probe.events == a.tx.probe.events + [TellDisconnected, QueueEndpointReset, TellConnected];
    var moves := MovesTo(e);
    assert e.rx.probe.events == a.rx.probe.events + [TellDisconnected, TellDisconnected, QueueEndpointReset];
  }
}

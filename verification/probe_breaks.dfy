/** Runs of two control threads that break the order of the Connected notifications after a moment at which something
    carries a connection over. */
module ProbeBreaks {
  import opened Probe
  import opened ProbeTx
  import opened ProbeRx
  import opened ProbeSystem
  import opened ProbeAck
  import opened ProbeThread
  import opened ProbeTiming
  import opened ProbeBurst
  import opened ProbeOrder
  import opened ProbeReady
  import opened ProbeContracts
  import opened ProbeRounds
  import opened ProbeMoves
  import opened ProbeCarried
  import opened ProbeDisorder

  /** What such a run has to keep until the order is broken. */
  predicate NotYet(b: Threads, t: Threads) {
    b.tx.probe.events <= t.tx.probe.events && Silent(b.rx.probe.events, t.rx.probe.events)
  }

  /** The transmitter's application has been told Connected since, and the receiver's has not. */
  predicate Broken(b: Threads, t: Threads) {
    OutOfOrder(b.System(), t.System())
  }

  lemma {:induction false} LedMoves(t: Threads, moves: seq<Move>)
    requires Bounds(t) && Reachable(t.System()) && CanRun(t, moves)
    ensures Bounds(RunThreads(t, moves)) && Reachable(RunThreads(t, moves).System())
  {
    MovesBounds(t, moves);
  }

  /** What is known of the states that are led to. */
  lemma {:induction false} LedTo(b: Threads, stale: seq<Message>, t: Threads)
    requires ThreadsReach(b) && Leads(b, stale, t)
    ensures Bounds(t) && TxReady(t.tx.probe) && HasSaid(t.rx.probe) && AckInv(t.System())
    ensures t.tx.probe.direction == Send && t.rx.probe.direction == Receive && NumOk(t.tx.probe.control)
  {
    hide Bounds, Reachable, CanMove, Moved, RoundReadsOld, GenuineMove, ThreadsReach, ProbeSystem.Inv, TxReady, HasSaid, AcksOk;
    BoundsReached(b);
    var moves :| Passes(b, moves, stale) && RunThreads(b, moves) == t;
    LedMoves(b, moves);
    ReadyReached(t.System());
    DirectionsReached(t.System());
    NoReplyOfTx(t.System());
  }

  lemma {:induction false} NoReplyOfTx(s: System)
    requires ProbeSystem.Inv(s)
    ensures s.tx.control.reply.NoReply?
  {
  }

  /** A state in Connected tells it when its time is up. */
  lemma {:induction false} TellNow(b: Threads, stale: seq<Message>, t: Threads) returns (u: Threads)
    requires Leads(b, stale, t) && NotYet(b, t) && t.tx.probe.direction == Send && t.tx.probe.state == EfaConnected
    ensures Leads(b, stale, u) && Broken(b, u)
  {
    hide Leads, ActUntilWait, Silent, ToldSince;
    u := TxLater(b, stale, t);
    ActTells(b.tx.probe, t.tx.probe);
    NotTold(b.rx.probe, u.rx.probe);
  }

  lemma {:induction false} NotTold(q: Probe, r: Probe)
    requires Silent(q.events, r.events)
    ensures !ToldSince(r, q)
  {
    ToldIff(r, q);
  }

  lemma {:induction false} ActTells(q: Probe, t: Probe)
    requires q.events <= t.events && t.direction == Send && t.state == EfaConnected
    ensures ToldSince(ActUntilWait(t, ENV).probe, q)
  {
    hide ActUntilWait;
    UnfoldActs(t, ENV);
    var a := TxAct(t, ENV).probe;
    ActsGrow(a, ENV);
    var u := ActUntilWait(t, ENV).probe;
    assert a.events[|t.events|] == TellConnected;
    assert u.events[|t.events|] == TellConnected;
    assert u.events[|q.events|..][|t.events| - |q.events|] == TellConnected;
  }

  // ----- Probe packets that are awaited -----

  lemma {:induction false} AckAll(b: Threads, stale: seq<Message>, t: Threads) returns (u: Threads)
    requires Leads(b, stale, t) && AcksReady(t.tx.probe) && (t.tx.probe.state == EfaProbe || t.tx.probe.state == EfaTxProbeAcks)
    ensures Leads(b, stale, u) && u.rx == t.rx && t.tx.probe.events <= u.tx.probe.events
    ensures u.tx.probe.tx.acked >= EFA_PROBE_PACKET_COUNT && u.tx.probe.state == t.tx.probe.state
    ensures u.tx.probe.direction == t.tx.probe.direction && u.tx.probe.fifo == t.tx.probe.fifo
    decreases EFA_PROBE_PACKET_COUNT - t.tx.probe.tx.acked
  {
    hide Leads, Queued, LatestIsLast;
    u := t;
    if t.tx.probe.tx.acked < EFA_PROBE_PACKET_COUNT {
      var v := Acknowledged(b, stale, t);
      AckedReady(t.tx.probe, LatestIsLast(t.tx.probe.events));
      u := AckAll(b, stale, v);
      Prefixes(t.tx.probe.events, v.tx.probe.events, u.tx.probe.events);
    }
  }

  lemma {:induction false} AckedReady(t: Probe, last: bool)
    requires AcksReady(t)
    ensures var u := TxEfaMessage(t, true, last);
            AcksReady(u) && u.fifo == t.fifo && u.state == t.state && u.direction == t.direction && t.events <= u.events
  {
    hide Queued, LatestIsLast;
    QueuedSnoc(t.events, EfaPacketQueued(t.tx.enqueued, t.tx.enqueued + 1 == EFA_PROBE_PACKET_COUNT));
  }

  lemma {:induction false} FromAcks(b: Threads, stale: seq<Message>, t: Threads) returns (u: Threads)
    requires Leads(b, stale, t) && NotYet(b, t) && AcksReady(t.tx.probe) && t.tx.probe.direction == Send
    requires t.tx.probe.state == EfaTxProbeAcks
    ensures Leads(b, stale, u) && Broken(b, u)
  {
    hide Leads, ActUntilWait, AcksReady, Silent;
    var v := AckAll(b, stale, t);
    var w := TxLater(b, stale, v);
    ActsOnce(v.tx.probe);
    Prefixes(b.tx.probe.events, t.tx.probe.events, w.tx.probe.events);
    u := TellNow(b, stale, w);
  }

  // ----- Reading the queue -----

  lemma {:induction false} ActsKeepQueue(t: Probe, e: Env)
    requires t.direction == Send && t.state != EfaTxProbeAcks
    ensures ActUntilWait(t, e).probe.fifo == t.fifo && t.events <= ActUntilWait(t, e).probe.events
    decreases Rank(t)
  {
    hide TxAct, Rank;
    RankFalls(t, e);
    DirectionKept(t, e);
    ActKeepsQueue(t, e);
    UnfoldActs(t, e);
    ActsGrow(t, e);
    if Act(t, e).wait == 0 {
      ActsKeepQueue(TxAct(t, e).probe, e);
    }
  }

  lemma {:induction false} ActKeepsQueue(t: Probe, e: Env)
    requires t.state != EfaTxProbeAcks
    ensures TxAct(t, e).probe.fifo == t.fifo && TxAct(t, e).probe.state != EfaTxProbeAcks
  {
    hide SendResetCommand, StartBurst;
    QueueOfTxParts(t, e);
  }

  lemma {:induction false} QueueOfTxParts(t: Probe, e: Env)
    ensures forall q: Probe, next, w :: var u := SendResetCommand(q, next, w).probe; u.fifo == q.fifo && u.state == next
    ensures StartBurst(t, e).probe.fifo == t.fifo && StartBurst(t, e).probe.state != EfaTxProbeAcks
  {
  }

  /** Reading leaves the rest of the queue. */
  lemma {:induction false} ReadKeepsQueue(p: Probe, wait: nat, after: Thread)
    requires p.fifo != [] && p.direction == Send && Postable(p.fifo[0]) && HasRead(p, wait, after)
    requires p.state != EfaProbe && p.state != EfaTxProbeAcks
    ensures after.probe.fifo == p.fifo[1..] && p.events <= after.probe.events
  {
    hide ActUntilWait, TxTake, Queued, ToldAfter;
    var h := TxTake(p, ENV, wait);
    TxTakeTells(p, ENV, wait);
    TakenStates(p, ENV, wait);
    TxTakeKeepsDirection(p, ENV, wait);
    TxTakesHead(p, wait);
    ActsKeepQueue(h.probe, ENV);
    Prefixes(p.events, h.probe.events, ActUntilWait(h.probe, ENV).probe.events);
  }

  lemma {:induction false} TxTakesHead(p: Probe, wait: nat)
    requires p.fifo != []
    ensures TxTake(p, ENV, wait).probe.fifo == p.fifo[1..]
  {
    hide ProbeTx.HandleReset, HandleAck;
    HandledCalmly(p.(fifo := p.fifo[1..]), ENV, wait);
  }

  /** A transmitter that waits for Connected gives up waiting. */
  lemma {:induction false} StopWaiting(b: Threads, stale: seq<Message>, t: Threads) returns (u: Threads)
    requires Leads(b, stale, t) && t.tx.probe.direction == Send && t.tx.probe.state == EfaProbe
    ensures Leads(b, stale, u) && u.rx == t.rx && u.tx.probe.state == Resetting && u.tx.probe.fifo == t.tx.probe.fifo
    ensures u.tx.probe.direction == Send && t.tx.probe.events <= u.tx.probe.events
  {
    hide Leads, ActUntilWait;
    u := TxLater(b, stale, t);
    ActsTwice(t.tx.probe);
  }

  /** The transmitter reads the command at the head of its queue, and is not waiting for Connected. */
  lemma {:induction false} ReadOne(b: Threads, stale: seq<Message>, t: Threads) returns (u: Threads)
    requires Leads(b, stale, t) && t.tx.probe.direction == Send && t.tx.probe.fifo != [] && Postable(t.tx.probe.fifo[0])
    requires t.tx.probe.state != EfaProbe && t.tx.probe.state != EfaTxProbeAcks
    ensures Leads(b, stale, u) && u.rx == t.rx && HasRead(t.tx.probe, t.tx.waitMs, u.tx)
    ensures u.tx.probe.fifo == t.tx.probe.fifo[1..] && t.tx.probe.events <= u.tx.probe.events
  {
    hide Leads, ActUntilWait, Take;
    u := TxReads(b, stale, t, []);
    assert t.tx.probe.(fifo := t.tx.probe.fifo + []) == t.tx.probe;
    ReadKeepsQueue(t.tx.probe, t.tx.waitMs, u.tx);
  }

  lemma {:induction false} ConnectsNow(b: Threads, t: Threads, u: Threads)
    requires NotYet(b, t) && t.tx.probe.direction == Send && t.tx.probe.fifo != [] && t.tx.probe.fifo[0] == StateChange(EfaConnected)
    requires HasRead(t.tx.probe, t.tx.waitMs, u.tx) && u.rx == t.rx
    ensures Broken(b, u)
  {
    hide ActUntilWait, Silent, ToldSince;
    var p := t.tx.probe.(fifo := t.tx.probe.fifo[1..], state := EfaConnected);
    assert Take(t.tx.probe, ENV, t.tx.waitMs) == Handled(p, true, 0);
    ActTells(b.tx.probe, p);
    NotTold(b.rx.probe, u.rx.probe);
  }

  /** A queued move to Connected is read. */
  lemma {:induction false} FromQueue(b: Threads, stale: seq<Message>, t: Threads, i: nat) returns (u: Threads)
    requires ThreadsReach(b) && Leads(b, stale, t) && NotYet(b, t)
    requires i < |t.tx.probe.fifo| && t.tx.probe.fifo[i] == StateChange(EfaConnected)
    ensures Leads(b, stale, u) && Broken(b, u)
    decreases i, if t.tx.probe.state == EfaProbe then 1 else 0
  {
    hide Leads, HasRead, Silent, ThreadsReach, AcksReady, Broken, AckInv;
    LedTo(b, stale, t);
    if t.tx.probe.state == EfaTxProbeAcks {
      u := FromAcks(b, stale, t);
    } else if t.tx.probe.state == EfaProbe {
      var v := StopWaiting(b, stale, t);
      Prefixes(b.tx.probe.events, t.tx.probe.events, v.tx.probe.events);
      u := FromQueue(b, stale, v, i);
    } else {
      u := ReadOne(b, stale, t);
      Prefixes(b.tx.probe.events, t.tx.probe.events, u.tx.probe.events);
      if i == 0 {
        ConnectsNow(b, t, u);
      } else {
        u := FromQueue(b, stale, u, i - 1);
      }
    }
  }

  // ----- A pending Ping -----

  /** Reading a command that neither blocks, nor connects, nor is the acknowledgement, leaves the Ping pending. */
  lemma {:induction false} PingStays(p: Probe, wait: nat, after: Thread)
    requires p.fifo != [] && p.direction == Send && Postable(p.fifo[0]) && HasRead(p, wait, after) && wait > 0
    requires p.control.reply.NoReply? && !Blocks(p.fifo[0]) && p.fifo[0] != StateChange(EfaConnected)
    requires p.fifo[0].RxPacket? ==> !Accepts(p, p.fifo[0].message)
    ensures after.probe.control == p.control && after.waitMs > 0
  {
    hide ActUntilWait, TxPacket;
    var q := p.(fifo := p.fifo[1..]);
    match p.fifo[0] {
      case StateChange(x) =>
        PostedStays(q.(state := x));
      case RxPacket(m) =>
        PacketStays(q, m, wait);
    }
  }

  lemma {:induction false} PostedStays(p: Probe)
    requires p.direction == Send && p.control.reply.NoReply? && (p.state == ResetDone || p.state == EfaStart)
    ensures ActUntilWait(p, ENV).probe.control == p.control
  {
    hide ActUntilWait, StartBurst;
    ActsOnce(p);
  }

  lemma {:induction false} PacketStays(p: Probe, m: Message, wait: nat)
    requires !Accepts(p, m) && wait > 0 && !IsConnected(m)
    ensures var h := TxPacket(p, m, ENV, wait);
            h.wait > 0 && h.probe.control == p.control
  {
  }

  /** Reading the acknowledgement leads to Connected. */
  lemma {:induction false} AckConnects(p: Probe, wait: nat, after: Thread)
    requires p.fifo != [] && p.direction == Send && HasRead(p, wait, after)
    requires p.fifo[0].RxPacket? && Accepts(p, p.fifo[0].message) && PingPends(p)
    ensures after.probe.state == EfaConnected && after.probe.direction == Send
  {
    hide ActUntilWait;
  }

  lemma {:induction false} ReadAck(b: Threads, stale: seq<Message>, t: Threads, n: U16, i: nat) returns (u: Threads)
    requires ThreadsReach(b) && Leads(b, stale, t) && NotYet(b, t) && t.tx.waitMs > 0
    requires PingPends(t.tx.probe) && t.tx.probe.control.pending.num == n
    requires i < |t.tx.probe.fifo| && t.tx.probe.fifo[i].RxPacket? && IsAck(t.tx.probe.fifo[i].message, n)
    requires forall j :: 0 <= j < i ==> !Blocks(t.tx.probe.fifo[j])
    ensures Leads(b, stale, u) && Broken(b, u)
    decreases i
  {
    hide Leads, HasRead, Silent, ThreadsReach, AcksReady, Broken, AckInv;
    LedTo(b, stale, t);
    var p := t.tx.probe;
    if p.state == EfaTxProbeAcks {
      u := FromAcks(b, stale, t);
    } else {
      assert !Blocks(p.fifo[0]);
      u := TxReads(b, stale, t, []);
      assert p.(fifo := p.fifo + []) == p;
      ReadOn(p, t.tx.waitMs, u.tx);
      Prefixes(b.tx.probe.events, p.events, u.tx.probe.events);
      if p.fifo[0] == StateChange(EfaConnected) {
        ConnectsNow(b, t, u);
      } else if p.fifo[0].RxPacket? && Accepts(p, p.fifo[0].message) {
        AckConnects(p, t.tx.waitMs, u.tx);
        u := TellNow(b, stale, u);
      } else {
        PingStays(p, t.tx.waitMs, u.tx);
        u := ReadAck(b, stale, u, n, i - 1);
      }
    }
  }

  /** Reading what does not block leaves the rest of the queue, also while waiting for Connected. */
  lemma {:induction false} ReadOn(p: Probe, wait: nat, after: Thread)
    requires p.fifo != [] && p.direction == Send && Postable(p.fifo[0]) && HasRead(p, wait, after)
    requires !Blocks(p.fifo[0]) && p.state != EfaTxProbeAcks
    ensures after.probe.fifo == p.fifo[1..] && p.events <= after.probe.events
  {
    hide ActUntilWait, TxTake, ToldAfter;
    var h := TxTake(p, ENV, wait);
    TxTakeTells(p, ENV, wait);
    TxTakeKeepsDirection(p, ENV, wait);
    TxTakesHead(p, wait);
    NoBurstEnds(p, wait);
    ActsKeepQueue(h.probe, ENV);
    Prefixes(p.events, h.probe.events, ActUntilWait(h.probe, ENV).probe.events);
  }

  lemma {:induction false} NoBurstEnds(p: Probe, wait: nat)
    requires p.fifo != [] && Postable(p.fifo[0]) && !Blocks(p.fifo[0]) && p.state != EfaTxProbeAcks
    ensures TxTake(p, ENV, wait).probe.state != EfaTxProbeAcks
  {
    hide ProbeTx.HandleReset, HandleAck;
    HandledStates(p.(fifo := p.fifo[1..]), ENV, wait);
  }

  /** The acknowledgement has been sent: it arrives behind a queue in which nothing blocks. */
  lemma {:induction false} FromAnswer(b: Threads, stale: seq<Message>, t: Threads, n: U16) returns (u: Threads)
    requires ThreadsReach(b) && Leads(b, stale, t) && NotYet(b, t) && t.tx.waitMs > 0
    requires PingPends(t.tx.probe) && t.tx.probe.control.pending.num == n
    requires NothingBlocks(t.tx.probe.fifo) && Answered(t.rx.probe.control.sent, n)
    ensures Leads(b, stale, u) && Broken(b, u)
  {
    hide Leads, Silent, ThreadsReach, Broken;
    var k :| 0 <= k < |t.rx.probe.control.sent| && IsAck(t.rx.probe.control.sent[k], n);
    var m := t.rx.probe.control.sent[k];
    var v := TxArrives(b, stale, t, [RxPacket(m)]);
    assert v.tx.probe.fifo == t.tx.probe.fifo + [RxPacket(m)];
    u := ReadAck(b, stale, v, n, |t.tx.probe.fifo|);
  }

  lemma {:induction false} RxActsQuiet(r: Probe, e: Env)
    requires r.direction == Receive && r.state != EfaConnected
    ensures Silent(r.events, ActUntilWait(r, e).probe.events) && ActUntilWait(r, e).probe.fifo == r.fifo
    decreases Rank(r)
  {
    hide RxAct, Rank, Silent;
    RankFalls(r, e);
    DirectionKept(r, e);
    RxActQuiet(r, e);
    RxActEnds(r, e);
    UnfoldActs(r, e);
    if Act(r, e).wait == 0 {
      RxActsQuiet(RxAct(r, e).probe, e);
      SilentTrans(r.events, RxAct(r, e).probe.events, ActUntilWait(r, e).probe.events);
    }
  }

  lemma {:induction false} RxActQuiet(r: Probe, e: Env)
    requires r.state != EfaConnected
    ensures Silent(r.events, RxAct(r, e).probe.events) && RxAct(r, e).probe.fifo == r.fifo
  {
    hide ResetRemote, StartAndReply, ResetIsDone, BecomeConnected, PingMissed;
    SilentParts(r, e);
    QueueOfParts(r, e);
  }

  /** The receiver reads a command other than the move to Connected. */
  lemma {:induction false} RxReadsQuietly(p: Probe, wait: nat, after: Thread)
    requires p.fifo != [] && p.direction == Receive && HasRead(p, wait, after)
    requires p.state != EfaConnected && p.fifo[0] != StateChange(EfaConnected)
    ensures after.probe.fifo == p.fifo[1..] && Silent(p.events, after.probe.events)
  {
    hide ActUntilWait, RxTake, Silent;
    var h := RxTake(p, ENV, wait);
    RxTakeSays(p, ENV, wait);
    RxTakeEnds(p, wait);
    RxActsQuiet(h.probe, ENV);
    SilentTrans(p.events, h.probe.events, ActUntilWait(h.probe, ENV).probe.events);
  }

  lemma {:induction false} RxTakeEnds(p: Probe, wait: nat)
    requires p.fifo != [] && p.state != EfaConnected && p.fifo[0] != StateChange(EfaConnected)
    ensures var u := RxTake(p, ENV, wait).probe;
            u.direction == p.direction && u.state != EfaConnected && u.fifo == p.fifo[1..]
  {
    hide RxPacketHandled;
    var q := p.(fifo := p.fifo[1..]);
    if p.fifo[0].RxPacket? {
      RxPacketStates(q, p.fifo[0].message, ENV, wait);
      RxPacketQueue(q, p.fifo[0].message, wait);
    }
  }

  lemma {:induction false} RxPacketQueue(r: Probe, m: Message, wait: nat)
    ensures RxPacketHandled(r, m, ENV, wait).probe.fifo == r.fifo
  {
  }

  /** Reading a Ping answers it. */
  lemma {:induction false} PingAnswered(p: Probe, wait: nat, after: Thread, n: U16)
    requires p.fifo != [] && p.direction == Receive && HasRead(p, wait, after) && IsPing(p.fifo[0], n)
    ensures Answered(after.probe.control.sent, n)
  {
    hide ActUntilWait;
    var h := RxTake(p, ENV, wait);
    assert h.wait > 0;
    assert IsAck(h.probe.control.sent[|p.control.sent|], n);
  }

  /** The receiver reads its queue, with what arrives, up to the Ping and answers it. */
  lemma {:induction false} FromReading(b: Threads, stale: seq<Message>, t: Threads, cs: seq<ControlCommand>, n: U16, i: nat)
    returns (u: Threads)
    requires ThreadsReach(b) && Leads(b, stale, t) && NotYet(b, t) && t.tx.waitMs > 0
    requires PingPends(t.tx.probe) && t.tx.probe.control.pending.num == n && NothingBlocks(t.tx.probe.fifo)
    requires AllMayArrive(t.rx.probe, t.tx.probe.control.sent, cs)
    requires i < |t.rx.probe.fifo + cs| && IsPing((t.rx.probe.fifo + cs)[i], n)
    requires forall j :: 0 <= j < i ==> (t.rx.probe.fifo + cs)[j] != StateChange(EfaConnected)
    ensures Leads(b, stale, u) && Broken(b, u)
    decreases i
  {
    hide Leads, Silent, ThreadsReach, Broken, AckInv, HasRead;
    LedTo(b, stale, t);
    var q := t.rx.probe.(fifo := t.rx.probe.fifo + cs);
    assert q.fifo[0] != StateChange(EfaConnected);
    u := RxReads(b, stale, t, cs);
    RxReadsQuietly(q, t.rx.waitMs, u.rx);
    SilentTrans(b.rx.probe.events, q.events, u.rx.probe.events);
    if i == 0 {
      PingAnswered(q, t.rx.waitMs, u.rx, n);
      u := FromAnswer(b, stale, u, n);
    } else {
      assert u.rx.probe.fifo + [] == q.fifo[1..];
      u := FromReading(b, stale, u, [], n, i - 1);
    }
  }

  /** The pending Ping itself arrives. */
  lemma {:induction false} FromSending(b: Threads, stale: seq<Message>, t: Threads, n: U16) returns (u: Threads)
    requires ThreadsReach(b) && Leads(b, stale, t) && NotYet(b, t) && t.tx.waitMs > 0
    requires PingPends(t.tx.probe) && t.tx.probe.control.pending.num == n && NothingBlocks(t.tx.probe.fifo)
    requires NothingConnects(t.rx.probe.fifo)
    ensures Leads(b, stale, u) && Broken(b, u)
  {
    hide Leads, Silent, ThreadsReach, Broken, ProbeSystem.Inv, Numbered, AcksOk;
    LedTo(b, stale, t);
    var pending := t.tx.probe.control.pending;
    var ping := CommandMessage(Ping, n, pending.serial);
    assert t.tx.probe.control.sent[pending.serial] == ping;
    u := FromReading(b, stale, t, [RxPacket(ping)], n, |t.rx.probe.fifo|);
  }

  lemma {:induction false} FromComing(b: Threads, stale: seq<Message>, t: Threads, n: U16) returns (u: Threads)
    requires ThreadsReach(b) && Leads(b, stale, t) && NotYet(b, t) && t.tx.waitMs > 0
    requires PingPends(t.tx.probe) && t.tx.probe.control.pending.num == n && AckComes(t.tx.probe.fifo, t.rx.probe, n)
    ensures Leads(b, stale, u) && Broken(b, u)
  {
    hide Leads, Silent, ThreadsReach, Broken;
    var fifo := t.tx.probe.fifo;
    if AckFirst(fifo, n) {
      var i :| 0 <= i < |fifo| && fifo[i].RxPacket? && IsAck(fifo[i].message, n) && forall j :: 0 <= j < i ==> !Blocks(fifo[j]);
      u := ReadAck(b, stale, t, n, i);
    } else if Answered(t.rx.probe.control.sent, n) {
      u := FromAnswer(b, stale, t, n);
    } else if PingFirst(t.rx.probe.fifo, n) {
      var rs := t.rx.probe.fifo;
      var i :| 0 <= i < |rs| && IsPing(rs[i], n) && forall j :: 0 <= j < i ==> rs[j] != StateChange(EfaConnected);
      assert rs + [] == rs;
      u := FromReading(b, stale, t, [], n, i);
    } else {
      u := FromSending(b, stale, t, n);
    }
  }

  /** The Ping is repeated k times. */
  lemma {:induction false} FromPing(b: Threads, stale: seq<Message>, t: Threads, k: nat, n: U16) returns (u: Threads)
    requires ThreadsReach(b) && Leads(b, stale, t) && NotYet(b, t)
    requires HasNum(t.tx.probe, k, n) && AckComes(t.tx.probe.fifo, t.rx.probe, n)
    ensures Leads(b, stale, u) && Broken(b, u)
    decreases k
  {
    hide Leads, Silent, ThreadsReach, Broken, AckComes, AckInv, ActUntilWait;
    LedTo(b, stale, t);
    if k == 0 {
      u := FromComing(b, stale, t, n);
    } else {
      ActsOnce(t.tx.probe);
      u := TxLater(b, stale, t);
      NextNum(t.tx.probe.control.pending.num, k - 1);
      u := FromPing(b, stale, u, k - 1, n);
    }
  }

  // ----- Exactly then -----

  lemma {:induction false} CarriedBreaks(b: Threads) returns (u: Threads)
    requires ThreadsReach(b) && Carried(b.System())
    ensures Leads(b, b.rx.probe.control.sent, u) && Broken(b, u)
  {
    hide Leads, ThreadsReach, Broken, AckComes, HasNum, AckInv, AcksReady;
    var stale := b.rx.probe.control.sent;
    var t := b.tx.probe;
    LeadsNowhere(b, stale);
    LedTo(b, stale, b);
    if t.state == EfaConnected {
      u := TellNow(b, stale, b);
    } else if t.state == EfaTxProbeAcks {
      u := FromAcks(b, stale, b);
    } else if i :| 0 <= i < |t.fifo| && t.fifo[i] == StateChange(EfaConnected) {
      u := FromQueue(b, stale, b, i);
    } else {
      var k: nat, n: U16 :| HasNum(t, k, n) && AckComes(t.fifo, b.rx.probe, n);
      u := FromPing(b, stale, b, k, n);
    }
  }

  /** Exactly the moments at which the transmitter is on its way to Connected are followed by a run of the two threads, on a
      data path that invents nothing, in which the order of the notifications is broken without the help of a Connected
      packet that is older than the moment. After any other moment the order holds, whatever the data path does. */
  lemma {:induction false} OrderBreaksIff(t: Threads)
    requires ThreadsReach(t)
    ensures Carried(t.System()) <==>
              exists moves: seq<Move> :: Passes(t, moves, t.rx.probe.control.sent) && Broken(t, RunThreads(t, moves))
    ensures !Carried(t.System()) ==>
              forall moves: seq<Move> :: CanRun(t, moves) && NeverReadsOld(t, moves, t.rx.probe.control.sent) ==>
                                           !Broken(t, RunThreads(t, moves))
  {
    hide ThreadsReach, Carried, OutOfOrder, GenuineRun, NeverReadsOld, CanRun, RunThreads;
    var stale := t.rx.probe.control.sent;
    if Carried(t.System()) {
      var u := CarriedBreaks(t);
      var moves :| Passes(t, moves, stale) && RunThreads(t, moves) == u;
    } else {
      forall moves: seq<Move> | CanRun(t, moves) && NeverReadsOld(t, moves, stale)
        ensures !Broken(t, RunThreads(t, moves))
      {
        ThreadsStayInOrder(t, moves);
      }
    }
  }

  // ----- Old packets -----

  /** The transmitter empties its queue, unless the order is broken before that. */
  lemma {:induction false} Drain(b: Threads, t: Threads) returns (u: Threads)
    requires ThreadsReach(b) && Leads(b, [], t) && NotYet(b, t)
    ensures Leads(b, [], u) && (Broken(b, u) || (NotYet(b, u) && u.tx.probe.fifo == [] && u.rx == t.rx))
    decreases |t.tx.probe.fifo|, if t.tx.probe.state == EfaProbe then 1 else 0
  {
    hide Leads, HasRead, Silent, ThreadsReach, AcksReady, Broken, AckInv;
    LedTo(b, [], t);
    u := t;
    if t.tx.probe.fifo != [] {
      if t.tx.probe.state == EfaTxProbeAcks {
        u := FromAcks(b, [], t);
      } else {
        if t.tx.probe.state == EfaProbe {
          u := StopWaiting(b, [], t);
        } else {
          u := ReadOne(b, [], t);
        }
        Prefixes(b.tx.probe.events, t.tx.probe.events, u.tx.probe.events);
        u := Drain(b, u);
      }
    }
  }

  /** A transmitter with an empty queue can be started, so that it waits for Connected. */
  lemma {:induction false} Restart(b: Threads, t: Threads) returns (u: Threads)
    requires ThreadsReach(b) && Leads(b, [], t) && NotYet(b, t) && t.tx.probe.fifo == []
    ensures Leads(b, [], u) && NotYet(b, u) && u.rx == t.rx
    ensures u.tx.probe.state == EfaProbe && u.tx.probe.fifo == [] && u.tx.probe.direction == Send
  {
    hide Leads, ActUntilWait, Silent, ThreadsReach, AckInv;
    LedTo(b, [], t);
    var v := TxIsPosted(b, [], t, ResetDone);
    ActsOnce(t.tx.probe.(state := ResetDone));
    assert v.tx.probe.state == WaitForStart && v.tx.probe.fifo == [] && v.tx.probe.events == t.tx.probe.events;
    u := TxIsPosted(b, [], v, EfaStart);
    ActsOnce(v.tx.probe.(state := EfaStart));
    Prefixes(b.tx.probe.events, t.tx.probe.events, u.tx.probe.events);
  }

  lemma {:induction false} OldPacketBreaks(b: Threads) returns (u: Threads)
    requires ThreadsReach(b) && Told(b.rx.probe)
    ensures Leads(b, [], u) && Broken(b, u)
  {
    hide Leads, Silent, ThreadsReach, Broken, AckInv, ActUntilWait, AcksReady;
    LeadsNowhere(b, []);
    LedTo(b, [], b);
    SilentSelf(b.rx.probe.events);
    var i :| 0 <= i < |b.rx.probe.control.sent| && IsConnected(b.rx.probe.control.sent[i]);
    var m := b.rx.probe.control.sent[i];
    u := Drain(b, b);
    if !Broken(b, u) {
      u := Restart(b, u);
      LedTo(b, [], u);
      var v := AckAll(b, [], u);
      var w := TxGets(b, [], v, m);
      var p := v.tx.probe.(state := EfaTxProbeAcks);
      ActsOnce(p);
      Prefixes(b.tx.probe.events, u.tx.probe.events, v.tx.probe.events);
      u := TellNow(b, [], w);
    }
  }

  lemma {:induction false} MoveGrows(t: Threads, move: Move)
    requires Bounds(t) && Reachable(t.System()) && CanMove(t, move)
    ensures t.tx.probe.events <= Moved(t, move).tx.probe.events && t.rx.probe.events <= Moved(t, move).rx.probe.events
  {
    hide Round, CanTick, Answers, TxEfaMessage, RxEfaMessage, Reachable;
    DirectionsReached(t.System());
    match move {
      case TxRound(tick) => TxRoundGrows(t.tx, tick);
      case RxRound(tick) => RxRoundGoes(t.rx, tick, t.tx.probe.control.sent);
      case Between(step) =>
        var success := if step.TxAcked? || step.RxPacketArrives? then step.success else true;
        var last := if step.TxAcked? then step.last else true;
        TxMessageIs(t.tx.probe, success, last);
        RxMessageIs(t.rx.probe, success);
        ErrorIs(t.tx.probe);
        ErrorIs(t.rx.probe);
    }
  }

  lemma {:induction false} MovesGrow(t: Threads, moves: seq<Move>)
    requires Bounds(t) && Reachable(t.System()) && CanRun(t, moves)
    ensures var u := RunThreads(t, moves);
            t.tx.probe.events <= u.tx.probe.events && t.rx.probe.events <= u.rx.probe.events
    decreases |moves|
  {
    hide Bounds, Reachable, CanMove, Moved;
    if moves != [] {
      var v, u := Moved(t, moves[0]), RunThreads(t, moves);
      MoveGrows(t, moves[0]);
      MovesBounds(t, [moves[0]]);
      OneMove(t, moves[0]);
      MovesGrow(v, moves[1..]);
      Prefixes(t.tx.probe.events, v.tx.probe.events, u.tx.probe.events);
      Prefixes(t.rx.probe.events, v.rx.probe.events, u.rx.probe.events);
    }
  }

  lemma {:induction false} OneMove(t: Threads, move: Move)
    requires CanMove(t, move)
    ensures CanRun(t, [move]) && RunThreads(t, [move]) == Moved(t, move)
  {
    hide CanMove, Moved;
    assert [move][1..] == [];
    assert CanRun(Moved(t, move), []);
  }

  lemma {:induction false} FirstTimeInOrder(t: Threads, moves: seq<Move>)
    requires ThreadsReach(t) && !Told(t.rx.probe) && CanRun(t, moves)
    ensures !Broken(t, RunThreads(t, moves))
  {
    hide ThreadsReach, Bounds, Reachable, RxSafe, CanRun, RunThreads;
    BoundsReached(t);
    MovesGrow(t, moves);
    MovesReach(t, moves);
    var u := RunThreads(t, moves);
    InvReached(u.System());
    if ToldSince(u.tx.probe, t.tx.probe) {
      assert u.tx.probe.events == t.tx.probe.events + u.tx.probe.events[|t.tx.probe.events|..];
      assert Told(u.rx.probe);
      assert u.rx.probe.events == t.rx.probe.events + u.rx.probe.events[|t.rx.probe.events|..];
    }
  }

  /** With no limit on the age of packets, the order can be broken after any moment at which the receiver's application has
      ever been told Connected before, and after no other. */
  lemma {:induction false} OldPacketsBreakIff(t: Threads)
    requires ThreadsReach(t)
    ensures Told(t.rx.probe) <==>
              exists moves: seq<Move> :: CanRun(t, moves) && GenuineRun(t, moves) && Broken(t, RunThreads(t, moves))
    ensures !Told(t.rx.probe) ==> forall moves: seq<Move> :: CanRun(t, moves) ==> !Broken(t, RunThreads(t, moves))
  {
    hide ThreadsReach, Broken, GenuineRun, NeverReadsOld, CanRun, RunThreads, Told;
    if Told(t.rx.probe) {
      var u := OldPacketBreaks(t);
      var moves :| Passes(t, moves, []) && RunThreads(t, moves) == u;
      assert CanRun(t, moves) && GenuineRun(t, moves) && Broken(t, RunThreads(t, moves));
    } else {
      forall moves: seq<Move> | CanRun(t, moves)
        ensures !Broken(t, RunThreads(t, moves))
      {
        FirstTimeInOrder(t, moves);
      }
    }
  }
}

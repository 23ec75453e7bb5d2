/** The order of the Connected notifications after any moment of a run of two control threads: it can be broken exactly if
    something carries a connection over that moment. */
module ProbeDisorder {
  import opened Probe
  import opened ProbeTx
  import opened ProbeRx
  import opened ProbeSystem
  import opened ProbeThread
  import opened ProbeTiming
  import opened ProbeOrder
  import opened ProbeReady
  import opened ProbeRounds
  import opened ProbeMoves
  import opened ProbeCarried

  // ----- Between rounds -----

  /** The threads get here from their start. */
  ghost predicate ThreadsReach(t: Threads) {
    exists start: Threads, moves: seq<Move> :: Init(start.System()) && CanRun(start, moves) && RunThreads(start, moves) == t
  }

  /** What holds between rounds: the states that ask for another action immediately have been left. */
  predicate Bounds(t: Threads) {
    && ReplyOk(t.rx.probe) && t.rx.probe.state != EfaConnected
    && (t.tx.probe.state == EfaConnectedPing ==> t.tx.probe.tx.retries > 0)
    && (t.tx.waitMs > 0 || (t.tx.probe.state == Idle && t.tx.probe.control.pending == NotPending))
  }

  lemma {:induction false} ActEnds(t: Probe, e: Env)
    ensures var a := TxAct(t, e);
            a.wait > 0 && a.probe.state == EfaConnectedPing ==> a.probe.tx.retries > 0
  {
    hide SendResetCommand, StartBurst, AwaitProbeAcks;
    EndsOfParts(t, e);
  }

  lemma {:induction false} EndsOfParts(t: Probe, e: Env)
    ensures forall q: Probe, next, w :: SendResetCommand(q, next, w).probe.state == next
    ensures StartBurst(t, e).probe.state != EfaConnectedPing
    ensures t.state == EfaTxProbeAcks ==> AwaitProbeAcks(t, e).probe.state != EfaConnectedPing
  {
  }

  lemma {:induction false} TxActsEnd(t: Probe, e: Env)
    requires t.direction == Send
    ensures var u := ActUntilWait(t, e).probe;
            u.state == EfaConnectedPing ==> u.tx.retries > 0
    decreases Rank(t)
  {
    hide TxAct, Rank;
    RankFalls(t, e);
    DirectionKept(t, e);
    ActEnds(t, e);
    UnfoldActs(t, e);
    if Act(t, e).wait == 0 {
      TxActsEnd(TxAct(t, e).probe, e);
    }
  }

  lemma {:induction false} TxPacketStates(t: Probe, m: Message, e: Env, wait: nat)
    ensures var u := TxPacket(t, m, e, wait).probe;
            u.direction == t.direction
            && (u.state == EfaConnectedPing ==> t.state == EfaConnectedPing && (u.tx == t.tx || TxPacket(t, m, e, wait).wait == 0))
  {
    hide ProbeTx.HandleReset, HandleAck;
    HandledCalmly(t, e, wait);
    if t.control.pending.Pending? {
      AckStates(t, e, wait);
    }
  }

  lemma {:induction false} AckStates(t: Probe, e: Env, wait: nat)
    requires t.control.pending.Pending?
    ensures var u := HandleAck(t, e, wait).probe;
            u.state == EfaConnectedPing ==> t.state == EfaConnectedPing && u.tx == t.tx
  {
  }

  lemma {:induction false} TxRoundBounds(th: Thread, tick: Tick)
    requires th.probe.direction == Send && CanTick(th, tick)
    requires th.probe.state == EfaConnectedPing ==> th.probe.tx.retries > 0
    ensures var u := Round(th, tick);
            u.waitMs > 0 && (u.probe.state == EfaConnectedPing ==> u.probe.tx.retries > 0)
  {
    hide ActUntilWait, TxPacket;
    var q := Queue(th, tick);
    if !tick.read {
      TxActsEnd(q, tick.e);
    } else {
      var p := q.(fifo := q.fifo[1..]);
      match q.fifo[0] {
        case StateChange(x) => TxActsEnd(p.(state := x), tick.e);
        case RxPacket(m) =>
          TxPacketStates(p, m, tick.e, th.waitMs);
          TxActsEnd(TxPacket(p, m, tick.e, th.waitMs).probe, tick.e);
      }
    }
  }

  lemma {:induction false} RxActEnds(r: Probe, e: Env)
    requires r.direction == Receive
    ensures RxAct(r, e).probe.state != EfaConnected
  {
    hide ResetRemote, StartAndReply, ResetIsDone, BecomeConnected, PingMissed;
    RxPartsEnd(r, e);
  }

  lemma {:induction false} RxPartsEnd(r: Probe, e: Env)
    ensures ResetRemote(r, e).probe.state != EfaConnected && StartAndReply(r).probe.state != EfaConnected
    ensures ResetIsDone(r).probe.state != EfaConnected && BecomeConnected(r, e).probe.state != EfaConnected
    ensures r.state == EfaConnectedPing ==> PingMissed(r, e).probe.state != EfaConnected
  {
  }

  lemma {:induction false} RxActsEnd(r: Probe, e: Env)
    requires r.direction == Receive
    ensures ActUntilWait(r, e).probe.state != EfaConnected
    decreases Rank(r)
  {
    hide RxAct, Rank;
    RankFalls(r, e);
    DirectionKept(r, e);
    RxActEnds(r, e);
    UnfoldActs(r, e);
    if Act(r, e).wait == 0 {
      RxActsEnd(RxAct(r, e).probe, e);
    }
  }

  lemma {:induction false} RxPacketStates(r: Probe, m: Message, e: Env, wait: nat)
    ensures var u := RxPacketHandled(r, m, e, wait).probe;
            u.direction == r.direction && (u.state == EfaConnected ==> r.state == EfaConnected)
  {
    hide ProbeRx.HandleReset, HandleProtocolVersion;
    if m.CommandMessage? {
      RxHandlersEnd(r.(control := r.control.Process(m)), m, e, wait);
    }
  }

  lemma {:induction false} RxHandlersEnd(r: Probe, m: Message, e: Env, wait: nat)
    requires m.CommandMessage?
    ensures var u := ProbeRx.HandleReset(r, m, e).probe;
            u.direction == r.direction && u.state != EfaConnected
    ensures var u := HandleProtocolVersion(r, m, e, wait).probe;
            u.direction == r.direction && (u.state == r.state || u.state == WaitForStart)
  {
  }

  lemma {:induction false} RxRoundBounds(th: Thread, tick: Tick)
    requires th.probe.direction == Receive && CanTick(th, tick) && th.probe.state != EfaConnected
    ensures Round(th, tick).probe.state != EfaConnected
  {
    hide ActUntilWait, RxPacketHandled;
    var q := Queue(th, tick);
    if !tick.read {
      RxActsEnd(q, tick.e);
    } else {
      var p := q.(fifo := q.fifo[1..]);
      match q.fifo[0] {
        case StateChange(x) => RxActsEnd(p.(state := x), tick.e);
        case RxPacket(m) =>
          RxPacketStates(p, m, tick.e, th.waitMs);
          RxActsEnd(RxPacketHandled(p, m, tick.e, th.waitMs).probe, tick.e);
      }
    }
  }

  lemma {:induction false} MoveBounds(t: Threads, move: Move)
    requires Bounds(t) && CanMove(t, move) && t.tx.probe.direction == Send && t.rx.probe.direction == Receive
    ensures Bounds(Moved(t, move))
  {
    hide Round, CanTick, Answers, TxEfaMessage, RxEfaMessage;
    match move {
      case TxRound(tick) => TxRoundBounds(t.tx, tick);
      case RxRound(tick) =>
        RxRoundBounds(t.rx, tick);
        RxRoundGoes(t.rx, tick, t.tx.probe.control.sent);
      case Between(step) =>
        var success := if step.TxAcked? || step.RxPacketArrives? then step.success else true;
        var last := if step.TxAcked? then step.last else true;
        TxMessageIs(t.tx.probe, success, last);
        RxMessageIs(t.rx.probe, success);
        ErrorIs(t.tx.probe);
        ErrorIs(t.rx.probe);
    }
  }

  lemma {:induction false} MovesBounds(t: Threads, moves: seq<Move>)
    requires Bounds(t) && Reachable(t.System()) && CanRun(t, moves)
    ensures Bounds(RunThreads(t, moves)) && Reachable(RunThreads(t, moves).System())
    decreases |moves|
  {
    hide Bounds, Reachable, CanMove, Moved;
    if moves != [] {
      DirectionsReached(t.System());
      MoveBounds(t, moves[0]);
      MoveReaches(t, moves[0]);
      MovesBounds(Moved(t, moves[0]), moves[1..]);
    }
  }

  lemma {:induction false} BoundsReached(t: Threads)
    requires ThreadsReach(t)
    ensures Bounds(t) && Reachable(t.System())
  {
    var start: Threads, moves :| Init(start.System()) && CanRun(start, moves) && RunThreads(start, moves) == t;
    assert Run([start.System()], []);
    MovesBounds(start, moves);
  }

  // ----- Nothing else breaks the order -----

  lemma {:induction false} StartsInOrder(t: Threads)
    requires ThreadsReach(t) && !Carried(t.System())
    ensures StaysInOrder(t, t)
  {
    hide AckComes, Answers, RxSafe, Run;
    BoundsReached(t);
    ReadyReached(t.System());
    var stale := t.rx.probe.control.sent;
    assert CalmQueue(t.tx.probe.fifo, stale) by {
      forall i | 0 <= i < |t.tx.probe.fifo|
        ensures CalmCommand(t.tx.probe.fifo[i], stale)
      {
        assert Postable(t.tx.probe.fifo[i]) && TxCommandOk(t.tx.probe.fifo[i], Told(t.rx.probe));
      }
    }
    assert NumOk(t.tx.probe.control);
    assert t.rx.probe.direction == Receive by {
      DirectionsReached(t.System());
    }
  }

  /** From a moment at which the transmitter is not on its way to Connected, as long as it acts on no Connected packet that
      is older, its application is told Connected only after the receiver's application was told anew. */
  lemma {:induction false} ThreadsStayInOrder(t: Threads, moves: seq<Move>)
    requires ThreadsReach(t) && !Carried(t.System()) && CanRun(t, moves)
    requires NeverReadsOld(t, moves, t.rx.probe.control.sent)
    ensures !OutOfOrder(t.System(), RunThreads(t, moves).System())
  {
    hide ThreadsReach, Carried, Calm, Reachable, ReplyOk;
    StartsInOrder(t);
    BoundsReached(t);
    MovesInOrder(t, t, moves);
    var u := RunThreads(t, moves);
    ToldIff(u.tx.probe, t.tx.probe);
    ToldIff(u.rx.probe, t.rx.probe);
  }
}

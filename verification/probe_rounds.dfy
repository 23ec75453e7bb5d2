/** The control threads against the transition system: every round of a thread is a sequence of the system's steps,
    so what holds in all of the system's runs holds while two threads run. */
module ProbeRounds {
  import opened Probe
  import opened ProbeTx
  import opened ProbeRx
  import opened ProbeSystem
  import opened ProbeThread
  import opened ProbeTiming

  // ----- Rounds -----

  /** A command that others put in the queue of a probe: a state change that may be posted, or a packet that the
      other side has sent. */
  predicate MayArrive(p: Probe, sent: seq<Message>, c: ControlCommand) {
    match c
    case StateChange(s) => MayPost(p, s)
    case RxPacket(m) => m in sent
  }

  predicate AllMayArrive(p: Probe, sent: seq<Message>, cs: seq<ControlCommand>) {
    forall i :: 0 <= i < |cs| ==> MayArrive(p, sent, cs[i])
  }

  lemma {:induction false} TxArrivalsReach(s: System, cs: seq<ControlCommand>)
    requires Reachable(s) && AllMayArrive(s.tx, s.rx.control.sent, cs)
    ensures Reachable(s.(tx := s.tx.(fifo := s.tx.fifo + cs)))
  {
    hide Reachable;
    if cs == [] {
      assert s.tx.fifo + cs == s.tx.fifo;
    } else {
      var n := |cs| - 1;
      TxArrivalsReach(s, cs[..n]);
      var t := s.(tx := s.tx.(fifo := s.tx.fifo + cs[..n]));
      var step := match cs[n] case StateChange(x) => TxPosted(x) case RxPacket(m) => TxDelivered(m);
      assert MayArrive(s.tx, s.rx.control.sent, cs[n]);
      StepReaches(t, step);
      assert s.tx.fifo + cs == s.tx.fifo + cs[..n] + [cs[n]];
    }
  }

  lemma {:induction false} RxArrivalsReach(s: System, cs: seq<ControlCommand>)
    requires Reachable(s) && AllMayArrive(s.rx, s.tx.control.sent, cs)
    ensures Reachable(s.(rx := s.rx.(fifo := s.rx.fifo + cs)))
  {
    hide Reachable;
    if cs == [] {
      assert s.rx.fifo + cs == s.rx.fifo;
    } else {
      var n := |cs| - 1;
      RxArrivalsReach(s, cs[..n]);
      var t := s.(rx := s.rx.(fifo := s.rx.fifo + cs[..n]));
      var step := match cs[n] case StateChange(x) => RxPosted(x) case RxPacket(m) => RxDelivered(m);
      assert MayArrive(s.rx, s.tx.control.sent, cs[n]);
      StepReaches(t, step);
      assert s.rx.fifo + cs == s.rx.fifo + cs[..n] + [cs[n]];
    }
  }

  lemma {:induction false} TxActsReach(s: System, e: Env)
    requires Reachable(s) && s.tx.direction == Send
    ensures Reachable(s.(tx := ActUntilWait(s.tx, e).probe))
    decreases Rank(s.tx)
  {
    hide Reachable, TxAct, Rank, ActUntilWait;
    RankFalls(s.tx, e);
    DirectionKept(s.tx, e);
    StepReaches(s, TxActs(e));
    UnfoldActs(s.tx, e);
    if Act(s.tx, e).wait == 0 {
      TxActsReach(s.(tx := TxAct(s.tx, e).probe), e);
    }
  }

  lemma {:induction false} RxActsReach(s: System, e: Env)
    requires Reachable(s) && s.rx.direction == Receive
    ensures Reachable(s.(rx := ActUntilWait(s.rx, e).probe))
    decreases Rank(s.rx)
  {
    hide Reachable, RxAct, Rank, ActUntilWait;
    RankFalls(s.rx, e);
    DirectionKept(s.rx, e);
    StepReaches(s, RxActs(e));
    UnfoldActs(s.rx, e);
    if Act(s.rx, e).wait == 0 {
      RxActsReach(s.(rx := RxAct(s.rx, e).probe), e);
    }
  }

  lemma {:induction false} DirectionsReached(s: System)
    requires Reachable(s)
    ensures s.tx.direction == Send && s.rx.direction == Receive
  {
    InvReached(s);
  }

  lemma {:induction false} TxRoundReaches(s: System, th: Thread, tick: Tick)
    requires Reachable(s) && th.probe == s.tx && CanTick(th, tick)
    requires AllMayArrive(s.tx, s.rx.control.sent, tick.arrivals)
    ensures Reachable(s.(tx := Round(th, tick).probe))
  {
    hide Reachable, ActUntilWait, TxTake;
    TxArrivalsReach(s, tick.arrivals);
    var t := s.(tx := Queue(th, tick));
    DirectionsReached(t);
    var u := if tick.read then s.(tx := TxTake(t.tx, tick.e, th.waitMs).probe) else t;
    if tick.read {
      StepReaches(t, TxTakes(tick.e, th.waitMs));
    }
    DirectionsReached(u);
    TxActsReach(u, tick.e);
  }

  lemma {:induction false} RxRoundReaches(s: System, th: Thread, tick: Tick)
    requires Reachable(s) && th.probe == s.rx && CanTick(th, tick)
    requires AllMayArrive(s.rx, s.tx.control.sent, tick.arrivals)
    ensures Reachable(s.(rx := Round(th, tick).probe))
  {
    hide Reachable, ActUntilWait, RxTake;
    RxArrivalsReach(s, tick.arrivals);
    var t := s.(rx := Queue(th, tick));
    DirectionsReached(t);
    var u := if tick.read then s.(rx := RxTake(t.rx, tick.e, th.waitMs).probe) else t;
    if tick.read {
      StepReaches(t, RxTakes(tick.e, th.waitMs));
    }
    DirectionsReached(u);
    RxActsReach(u, tick.e);
  }

  // ----- Two threads -----

  datatype Threads = Threads(tx: Thread, rx: Thread)
  {
    function System(): System {
      ProbeSystem.System(tx.probe, rx.probe)
    }
  }

  /** A round of a thread, or what happens to a probe between its rounds. */
  datatype Move = TxRound(tick: Tick) | RxRound(tick: Tick) | Between(step: Step)

  predicate CanMove(t: Threads, move: Move) {
    match move
    case TxRound(tick) => CanTick(t.tx, tick) && AllMayArrive(t.tx.probe, t.rx.probe.control.sent, tick.arrivals)
    case RxRound(tick) => CanTick(t.rx, tick) && AllMayArrive(t.rx.probe, t.tx.probe.control.sent, tick.arrivals)
    case Between(step) => (step.TxAcked? || step.TxError? || step.RxPacketArrives? || step.RxError?) && Enabled(t.System(), step)
  }

  function Moved(t: Threads, move: Move): Threads
    requires CanMove(t, move)
  {
    match move
    case TxRound(tick) => t.(tx := Round(t.tx, tick))
    case RxRound(tick) => t.(rx := Round(t.rx, tick))
    case Between(step) =>
      var s := After(t.System(), step);
      Threads(t.tx.(probe := s.tx), t.rx.(probe := s.rx))
  }

  predicate CanRun(t: Threads, moves: seq<Move>)
    decreases |moves|
  {
    moves == [] || (CanMove(t, moves[0]) && CanRun(Moved(t, moves[0]), moves[1..]))
  }

  function RunThreads(t: Threads, moves: seq<Move>): Threads
    requires CanRun(t, moves)
    decreases |moves|
  {
    if moves == [] then t else RunThreads(Moved(t, moves[0]), moves[1..])
  }

  lemma {:induction false} MoveReaches(t: Threads, move: Move)
    requires Reachable(t.System()) && CanMove(t, move)
    ensures Reachable(Moved(t, move).System())
  {
    hide Reachable, Round, After, Enabled, CanTick;
    match move {
      case TxRound(tick) => TxRoundReaches(t.System(), t.tx, tick);
      case RxRound(tick) => RxRoundReaches(t.System(), t.rx, tick);
      case Between(step) => StepReaches(t.System(), step);
    }
  }

  lemma {:induction false} MovesReach(t: Threads, moves: seq<Move>)
    requires Reachable(t.System()) && CanRun(t, moves)
    ensures Reachable(RunThreads(t, moves).System())
    decreases |moves|
  {
    hide Reachable, CanMove, Moved;
    if moves != [] {
      MoveReaches(t, moves[0]);
      MovesReach(Moved(t, moves[0]), moves[1..]);
    }
  }

  /** Whatever two control threads do from their start, whole rounds with the wait times and the clocks of the
      threads, the state of their probes is one that the transition system reaches. So the transmitter's application
      is told Connected only if the receiver's application was, and that only after a burst of probe packets, and no
      assertion fails. */
  lemma {:induction false} ThreadsRefineSystem(t: Threads, moves: seq<Move>)
    requires Init(t.System()) && CanRun(t, moves)
    ensures var s := RunThreads(t, moves).System();
            && Reachable(s) && (Told(s.tx) ==> Told(s.rx)) && TellsAfterBurst(s.rx.events)
            && !s.tx.failed && !s.rx.failed
  {
    assert Run([t.System()], []);
    MovesReach(t, moves);
    InvReached(RunThreads(t, moves).System());
  }
}

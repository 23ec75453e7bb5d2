/** Runs of two control threads, step by step. */
module ProbeMoves {
  import opened Probe
  import opened ProbeTx
  import opened ProbeRx
  import opened ProbeSystem
  import opened ProbeThread
  import opened ProbeTiming
  import opened ProbeBurst
  import opened ProbeRounds

  /** The data path invents nothing. */
  predicate GenuineMove(t: Threads, move: Move) {
    move.Between? ==> Genuine(t.System(), move.step)
  }

  predicate GenuineRun(t: Threads, moves: seq<Move>)
    requires CanRun(t, moves)
    decreases |moves|
  {
    moves == [] || (GenuineMove(t, moves[0]) && GenuineRun(Moved(t, moves[0]), moves[1..]))
  }

  /** The transmitter, waiting for a Connected packet, reads one of these old ones. */
  predicate RoundReadsOld(t: Threads, move: Move, stale: seq<Message>) {
    && move.TxRound? && move.tick.read && t.tx.probe.state == EfaProbe
    && var fifo := t.tx.probe.fifo + move.tick.arrivals;
       fifo != [] && fifo[0].RxPacket? && IsConnected(fifo[0].message) && fifo[0].message in stale
  }

  predicate NeverReadsOld(t: Threads, moves: seq<Move>, stale: seq<Message>)
    requires CanRun(t, moves)
    decreases |moves|
  {
    moves == [] || (!RoundReadsOld(t, moves[0], stale) && NeverReadsOld(Moved(t, moves[0]), moves[1..], stale))
  }

  /** A run of the threads, on a data path that invents nothing, that never acts on one of these packets. */
  predicate Passes(t: Threads, moves: seq<Move>, stale: seq<Message>) {
    CanRun(t, moves) && GenuineRun(t, moves) && NeverReadsOld(t, moves, stale)
  }

  ghost predicate Leads(t: Threads, stale: seq<Message>, u: Threads) {
    exists moves: seq<Move> :: Passes(t, moves, stale) && RunThreads(t, moves) == u
  }

  lemma {:induction false} LeadsNowhere(t: Threads, stale: seq<Message>)
    ensures Leads(t, stale, t)
  {
    assert Passes(t, [], stale) && RunThreads(t, []) == t;
  }

  lemma {:induction false} OneMore(t: Threads, moves: seq<Move>, move: Move, stale: seq<Message>)
    requires Passes(t, moves, stale)
    requires var u := RunThreads(t, moves); CanMove(u, move) && GenuineMove(u, move) && !RoundReadsOld(u, move, stale)
    ensures Passes(t, moves + [move], stale) && RunThreads(t, moves + [move]) == Moved(RunThreads(t, moves), move)
    decreases |moves|
  {
    hide CanMove, Moved, GenuineMove, RoundReadsOld;
    var all := moves + [move];
    if moves == [] {
      assert all == [move] && all[1..] == [];
      var v := Moved(t, move);
      assert CanRun(v, []) && GenuineRun(v, []) && NeverReadsOld(v, [], stale) && RunThreads(v, []) == v;
    } else {
      assert all[0] == moves[0] && all[1..] == moves[1..] + [move];
      OneMore(Moved(t, moves[0]), moves[1..], move, stale);
    }
  }

  lemma {:induction false} LeadsOn(t: Threads, stale: seq<Message>, u: Threads, move: Move)
    requires Leads(t, stale, u) && CanMove(u, move) && GenuineMove(u, move) && !RoundReadsOld(u, move, stale)
    ensures Leads(t, stale, Moved(u, move))
  {
    hide CanMove, Moved, GenuineMove, RoundReadsOld;
    var moves :| Passes(t, moves, stale) && RunThreads(t, moves) == u;
    OneMore(t, moves, move, stale);
    assert Passes(t, moves + [move], stale);
  }

  // ----- Rounds -----

  function NewThreads(): Threads {
    Threads(Thread(NewProbe(Send), 0, 0), Thread(NewProbe(Receive), 0, 0))
  }

  /** Answers under which every start and every version succeeds. */
  const ENV := Env(3, true, true, 5, 0, true)

  /** A round that takes no time. */
  function Now(th: Thread, arrivals: seq<ControlCommand>, read: bool): Tick {
    Tick(arrivals, read, th.startUs, th.startUs, th.startUs, ENV)
  }

  /** A round in which the wait is over. */
  function Later(th: Thread): Tick {
    var end := Deadline(th);
    Tick([], false, end, end, end, ENV)
  }

  lemma {:induction false} LaterActs(th: Thread)
    ensures CanTick(th, Later(th))
    ensures Round(th, Later(th)).probe == ActUntilWait(th.probe, ENV).probe
    ensures Round(th, Later(th)).waitMs == ActUntilWait(th.probe, ENV).wait
  {
    hide ActUntilWait;
    ElapsedIs(th.startUs, Deadline(th), th.waitMs);
    assert th.probe.fifo + [] == th.probe.fifo;
  }

  lemma {:induction false} NowArrives(th: Thread, cs: seq<ControlCommand>)
    requires th.waitMs > 0
    ensures CanTick(th, Now(th, cs, false))
    ensures Round(th, Now(th, cs, false)) == th.(probe := th.probe.(fifo := th.probe.fifo + cs))
  {
    hide ActUntilWait;
  }

  lemma {:induction false} NowReads(th: Thread, cs: seq<ControlCommand>)
    requires th.probe.fifo + cs != []
    ensures CanTick(th, Now(th, cs, true))
    ensures var q := th.probe.(fifo := th.probe.fifo + cs);
            var h := Take(q, ENV, th.waitMs);
            var r := Round(th, Now(th, cs, true));
            if h.wait > 0 then r.probe == h.probe && r.waitMs == h.wait
            else r.probe == ActUntilWait(h.probe, ENV).probe && r.waitMs == ActUntilWait(h.probe, ENV).wait
  {
    hide ActUntilWait, Take;
  }

  // ----- Moves that lead on -----

  lemma {:induction false} TxLater(s: Threads, stale: seq<Message>, t: Threads) returns (u: Threads)
    requires Leads(s, stale, t)
    ensures Leads(s, stale, u) && u.rx == t.rx
    ensures u.tx.probe == ActUntilWait(t.tx.probe, ENV).probe && u.tx.waitMs == ActUntilWait(t.tx.probe, ENV).wait
  {
    hide Leads, Round, CanTick;
    LaterActs(t.tx);
    var move := TxRound(Later(t.tx));
    LeadsOn(s, stale, t, move);
    u := Moved(t, move);
  }

  lemma {:induction false} RxLater(s: Threads, stale: seq<Message>, t: Threads) returns (u: Threads)
    requires Leads(s, stale, t)
    ensures Leads(s, stale, u) && u.tx == t.tx
    ensures u.rx.probe == ActUntilWait(t.rx.probe, ENV).probe && u.rx.waitMs == ActUntilWait(t.rx.probe, ENV).wait
  {
    hide Leads, Round, CanTick;
    LaterActs(t.rx);
    var move := RxRound(Later(t.rx));
    LeadsOn(s, stale, t, move);
    u := Moved(t, move);
  }

  /** Commands arrive for the transmitter, which goes on waiting. */
  lemma {:induction false} TxArrives(s: Threads, stale: seq<Message>, t: Threads, cs: seq<ControlCommand>) returns (u: Threads)
    requires Leads(s, stale, t) && AllMayArrive(t.tx.probe, t.rx.probe.control.sent, cs) && t.tx.waitMs > 0
    ensures Leads(s, stale, u) && u.rx == t.rx && u.tx == t.tx.(probe := t.tx.probe.(fifo := t.tx.probe.fifo + cs))
  {
    hide Leads, Round, CanTick;
    NowArrives(t.tx, cs);
    var move := TxRound(Now(t.tx, cs, false));
    LeadsOn(s, stale, t, move);
    u := Moved(t, move);
  }

  /** The thread of a probe after it has read a command, without time having passed. */
  predicate HasRead(p: Probe, wait: nat, after: Thread)
    requires p.fifo != []
  {
    var h := Take(p, ENV, wait);
    if h.wait > 0 then after.probe == h.probe && after.waitMs == h.wait
    else after.probe == ActUntilWait(h.probe, ENV).probe && after.waitMs == ActUntilWait(h.probe, ENV).wait
  }

  /** Commands arrive for the transmitter, which reads the first one in its queue. */
  lemma {:induction false} TxReads(s: Threads, stale: seq<Message>, t: Threads, cs: seq<ControlCommand>) returns (u: Threads)
    requires Leads(s, stale, t) && AllMayArrive(t.tx.probe, t.rx.probe.control.sent, cs) && t.tx.probe.fifo + cs != []
    requires t.tx.probe.state == EfaProbe ==>
               var c := (t.tx.probe.fifo + cs)[0]; c.RxPacket? && IsConnected(c.message) ==> c.message !in stale
    ensures Leads(s, stale, u) && u.rx == t.rx
    ensures HasRead(t.tx.probe.(fifo := t.tx.probe.fifo + cs), t.tx.waitMs, u.tx)
  {
    hide Leads, Round, CanTick, Take, ActUntilWait;
    NowReads(t.tx, cs);
    var move := TxRound(Now(t.tx, cs, true));
    LeadsOn(s, stale, t, move);
    u := Moved(t, move);
  }

  lemma {:induction false} RxReads(s: Threads, stale: seq<Message>, t: Threads, cs: seq<ControlCommand>) returns (u: Threads)
    requires Leads(s, stale, t) && AllMayArrive(t.rx.probe, t.tx.probe.control.sent, cs) && t.rx.probe.fifo + cs != []
    ensures Leads(s, stale, u) && u.tx == t.tx
    ensures HasRead(t.rx.probe.(fifo := t.rx.probe.fifo + cs), t.rx.waitMs, u.rx)
  {
    hide Leads, Round, CanTick, Take, ActUntilWait;
    NowReads(t.rx, cs);
    var move := RxRound(Now(t.rx, cs, true));
    LeadsOn(s, stale, t, move);
    u := Moved(t, move);
  }

  /** A thread after it has handled a packet. */
  predicate Went(h: Handled, after: Thread) {
    if h.wait > 0 then after.probe == h.probe && after.waitMs == h.wait
    else after.probe == ActUntilWait(h.probe, ENV).probe && after.waitMs == ActUntilWait(h.probe, ENV).wait
  }

  /** A packet arrives at an empty queue and is read. */
  lemma {:induction false} TxGets(s: Threads, stale: seq<Message>, t: Threads, m: Message) returns (u: Threads)
    requires Leads(s, stale, t) && t.tx.probe.fifo == [] && t.tx.probe.direction == Send && m in t.rx.probe.control.sent
    requires t.tx.probe.state == EfaProbe && IsConnected(m) ==> m !in stale
    ensures Leads(s, stale, u) && u.rx == t.rx && Went(TxPacket(t.tx.probe, m, ENV, t.tx.waitMs), u.tx)
  {
    hide Leads, TxPacket, ActUntilWait;
    u := TxReads(s, stale, t, [RxPacket(m)]);
    var q := t.tx.probe.(fifo := t.tx.probe.fifo + [RxPacket(m)]);
    assert q.fifo == [RxPacket(m)] && q.(fifo := q.fifo[1..]) == t.tx.probe;
  }

  lemma {:induction false} RxGets(s: Threads, stale: seq<Message>, t: Threads, m: Message) returns (u: Threads)
    requires Leads(s, stale, t) && t.rx.probe.fifo == [] && t.rx.probe.direction == Receive && m in t.tx.probe.control.sent
    ensures Leads(s, stale, u) && u.tx == t.tx && Went(RxPacketHandled(t.rx.probe, m, ENV, t.rx.waitMs), u.rx)
  {
    hide Leads, RxPacketHandled, ActUntilWait;
    u := RxReads(s, stale, t, [RxPacket(m)]);
    var q := t.rx.probe.(fifo := t.rx.probe.fifo + [RxPacket(m)]);
    assert q.fifo == [RxPacket(m)] && q.(fifo := q.fifo[1..]) == t.rx.probe;
  }

  /** A state change is posted to an empty queue and read. */
  lemma {:induction false} TxIsPosted(s: Threads, stale: seq<Message>, t: Threads, x: ProbeState) returns (u: Threads)
    requires Leads(s, stale, t) && t.tx.probe.fifo == [] && t.tx.probe.direction == Send && MayPost(t.tx.probe, x)
    ensures Leads(s, stale, u) && u.rx == t.rx && Went(Handled(t.tx.probe.(state := x), true, 0), u.tx)
  {
    hide Leads, ActUntilWait;
    u := TxReads(s, stale, t, [StateChange(x)]);
    var q := t.tx.probe.(fifo := t.tx.probe.fifo + [StateChange(x)]);
    assert q.fifo == [StateChange(x)] && q.(fifo := q.fifo[1..]) == t.tx.probe;
  }

  lemma {:induction false} RxIsPosted(s: Threads, stale: seq<Message>, t: Threads, x: ProbeState) returns (u: Threads)
    requires Leads(s, stale, t) && t.rx.probe.fifo == [] && t.rx.probe.direction == Receive && MayPost(t.rx.probe, x)
    ensures Leads(s, stale, u) && u.tx == t.tx && Went(Handled(t.rx.probe.(state := x), true, 0), u.rx)
  {
    hide Leads, ActUntilWait;
    u := RxReads(s, stale, t, [StateChange(x)]);
    var q := t.rx.probe.(fifo := t.rx.probe.fifo + [StateChange(x)]);
    assert q.fifo == [StateChange(x)] && q.(fifo := q.fifo[1..]) == t.rx.probe;
  }

  /** The outstanding probe packet is acknowledged. */
  lemma {:induction false} Acknowledged(s: Threads, stale: seq<Message>, t: Threads) returns (u: Threads)
    requires Leads(s, stale, t) && t.tx.probe.probing && Outstanding(t.tx.probe) > 0
    ensures Leads(s, stale, u) && u.rx == t.rx
    ensures u.tx == t.tx.(probe := TxEfaMessage(t.tx.probe, true, LatestIsLast(t.tx.probe.events)))
  {
    hide Leads, TxEfaMessage;
    var move := Between(TxAcked(true, LatestIsLast(t.tx.probe.events)));
    LeadsOn(s, stale, t, move);
    u := Moved(t, move);
  }

  /** What the states that are entered do immediately. */
  lemma {:induction false} ActsOnce(p: Probe)
    requires Act(p, ENV).wait > 0
    ensures ActUntilWait(p, ENV) == Act(p, ENV)
  {
    hide Act;
    UnfoldActs(p, ENV);
  }

  lemma {:induction false} ActsTwice(p: Probe)
    requires Act(p, ENV).wait == 0 && Act(Act(p, ENV).probe, ENV).wait > 0
    ensures ActUntilWait(p, ENV) == Act(Act(p, ENV).probe, ENV)
  {
    hide Act;
    UnfoldActs(p, ENV);
    UnfoldActs(Act(p, ENV).probe, ENV);
  }
}

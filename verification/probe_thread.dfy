/** The control thread of a probe: it waits for commands and for the time of the current state to be up. */
module ProbeThread {
  import opened Probe
  import opened ProbeTx
  import opened ProbeRx
  import opened ProbeSystem

  function Act(p: Probe, e: Env): Acted {
    if p.direction == Send then TxAct(p, e) else RxAct(p, e)
  }

  function Take(p: Probe, e: Env, wait: nat): Handled
    requires p.fifo != []
  {
    if p.direction == Send then TxTake(p, e, wait) else RxTake(p, e, wait)
  }

  function Rank(p: Probe): nat {
    if p.direction == Send then TxRank(p.state) else RxRank(p.state)
  }

  lemma {:induction false} DirectionKept(p: Probe, e: Env)
    ensures Act(p, e).probe.direction == p.direction
  {
    hide ResetRemote, StartAndReply, ResetIsDone, BecomeConnected, PingMissed;
    hide SendCommandRetry, SendResetCommand, StartBurst, AwaitProbeAcks;
    TxParts(p, e);
    RxParts(p, e);
  }

  lemma {:induction false} TxParts(p: Probe, e: Env)
    ensures forall c :: SendCommandRetry(p, c).probe.direction == p.direction
    ensures forall q: Probe, s, w :: SendResetCommand(q, s, w).probe.direction == q.direction
    ensures StartBurst(p, e).probe.direction == p.direction && AwaitProbeAcks(p, e).probe.direction == p.direction
  {
  }

  lemma {:induction false} RxParts(p: Probe, e: Env)
    ensures ResetRemote(p, e).probe.direction == p.direction && StartAndReply(p).probe.direction == p.direction
    ensures ResetIsDone(p).probe.direction == p.direction && BecomeConnected(p, e).probe.direction == p.direction
    ensures PingMissed(p, e).probe.direction == p.direction
  {
  }

  lemma {:induction false} RankFalls(p: Probe, e: Env)
    ensures Act(p, e).wait == 0 ==> Rank(Act(p, e).probe) < Rank(p)
  {
    hide TxAct, RxAct, TxRank, RxRank;
    DirectionKept(p, e);
    TxRankFalls(p, e);
    RxRankFalls(p, e);
  }

  /** The state changes that follow each other immediately. They come to an end from every state. */
  function ActUntilWait(p: Probe, e: Env): (a: Acted)
    ensures a.wait > 0
    decreases Rank(p)
  {
    RankFalls(p, e);
    var a := Act(p, e);
    if a.wait == 0 then ActUntilWait(a.probe, e) else a
  }

  lemma {:induction false} UnfoldActs(p: Probe, e: Env)
    ensures ActUntilWait(p, e) == if Act(p, e).wait == 0 then ActUntilWait(Act(p, e).probe, e) else Act(p, e)
  {
    hide Act;
  }
}

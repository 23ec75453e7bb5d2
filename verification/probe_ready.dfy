/** What holds of every transmitter and receiver: they are ready for what they wait for. */
module ProbeReady {
  import opened Probe
  import opened ProbeTx
  import opened ProbeRx
  import opened ProbeSystem
  import opened ProbeAck
  import opened ProbeOrder
  import opened ProbeBurst

  predicate Postable(c: ControlCommand) {
    c.StateChange? ==> c.state == ResetDone || c.state == EfaStart || c.state == EfaReset || c.state == EfaConnected
  }

  predicate AllPostable(fifo: seq<ControlCommand>) {
    forall i :: 0 <= i < |fifo| ==> Postable(fifo[i])
  }

  /** While Pings are repeated one is pending. */
  predicate PingsReady(t: Probe) {
    && AllPostable(t.fifo)
    && (t.state.EfaConnectedPing? && t.tx.retries > 0 ==> t.control.pending.Pending? && t.control.pending.command == Ping)
  }

  /** While acknowledgements of probe packets are awaited, one is outstanding, or all have come. */
  predicate AcksReady(t: Probe) {
    t.state.EfaProbe? || t.state.EfaTxProbeAcks? ==>
      t.tx.acked >= EFA_PROBE_PACKET_COUNT || (t.probing && Outstanding(t) > 0)
  }

  predicate TxReady(t: Probe) {
    PingsReady(t) && AcksReady(t)
  }

  /** A receiver whose application was told Connected has said so. */
  predicate HasSaid(r: Probe) {
    Told(r) ==> exists i :: 0 <= i < |r.control.sent| && IsConnected(r.control.sent[i])
  }

  lemma {:induction false} PostableSnoc(fifo: seq<ControlCommand>, c: ControlCommand)
    requires AllPostable(fifo) && Postable(c)
    ensures AllPostable(fifo + [c])
  {
  }

  lemma {:induction false} PostableTail(fifo: seq<ControlCommand>)
    requires AllPostable(fifo) && fifo != []
    ensures Postable(fifo[0]) && AllPostable(fifo[1..])
  {
  }

  lemma {:induction false} ReadyParts(t: Probe, e: Env)
    requires PingsReady(t)
    ensures forall q: Probe, next: ProbeState, w: nat :: AllPostable(q.fifo) && !Late(next) ==>
              PingsReady(SendResetCommand(q, next, w).probe)
    ensures PingsReady(StartBurst(t, e).probe)
    ensures t.state.EfaTxProbeAcks? ==> PingsReady(AwaitProbeAcks(t, e).probe)
  {
    hide AllPostable;
    PostableSnoc(t.fifo, StateChange(EfaConnected));
  }

  lemma {:induction false} ReadyRetry(t: Probe)
    requires PingsReady(t)
    ensures !t.state.EfaConnectedPing? ==> PingsReady(SendCommandRetry(t, ProtocolVersion).probe)
    ensures t.state.EfaConnectedPing? ==> PingsReady(SendCommandRetry(t, Ping).probe)
  {
    hide AllPostable;
  }

  lemma {:induction false} PingsReadyAct(t: Probe, e: Env)
    requires PingsReady(t)
    ensures PingsReady(TxAct(t, e).probe)
  {
    hide AllPostable, SendResetCommand, SendCommandRetry, StartBurst, AwaitProbeAcks;
    ReadyParts(t, e);
    ReadyRetry(t);
  }

  /** Actions enter the two states only by a start, or keep them; all of the account stays as it is. */
  lemma {:induction false} AwaitingStates(t: Probe, e: Env)
    requires !t.state.EfaStart?
    ensures var u := TxAct(t, e).probe;
            !u.state.EfaProbe? && (u.state.EfaTxProbeAcks? ==> t.state.EfaTxProbeAcks? && u.probing == t.probing)
  {
    hide SendResetCommand, SendCommandRetry;
    assert forall q: Probe, next, w :: SendResetCommand(q, next, w).probe.state == next by {
      StatesOfReset();
    }
  }

  lemma {:induction false} StatesOfReset()
    ensures forall q: Probe, next, w :: SendResetCommand(q, next, w).probe.state == next
  {
  }

  lemma {:induction false} AcksReadyAct(t: Probe, e: Env)
    requires AcksReady(t) && t.direction == Send
    ensures AcksReady(TxAct(t, e).probe)
  {
    hide Queued, LatestIsLast, TxAct;
    if t.state.EfaStart? {
      BurstQueues(t, e);
    } else {
      ActAccount(t, e);
      AwaitingStates(t, e);
    }
  }

  lemma {:induction false} BurstQueues(t: Probe, e: Env)
    requires t.state.EfaStart? && t.direction == Send
    ensures AcksReady(TxAct(t, e).probe)
  {
    hide Queued;
    QueuedSnoc(t.events, EfaStarted);
    QueuedSnoc(t.events + [EfaStarted], EfaPacketQueued(0, 1 == EFA_PROBE_PACKET_COUNT));
  }

  lemma {:induction false} ReadyAct(t: Probe, e: Env)
    requires TxReady(t) && t.direction == Send
    ensures TxReady(TxAct(t, e).probe)
  {
    hide PingsReady, AcksReady, TxAct;
    PingsReadyAct(t, e);
    AcksReadyAct(t, e);
  }

  lemma {:induction false} ReadyReset(t: Probe, e: Env, wait: nat)
    requires PingsReady(t)
    ensures PingsReady(ProbeTx.HandleReset(t, e, wait).probe)
  {
    hide AllPostable;
  }

  lemma {:induction false} ReadyAck(t: Probe, e: Env, wait: nat)
    requires PingsReady(t) && t.control.pending.Pending?
    ensures PingsReady(HandleAck(t, e, wait).probe)
  {
    hide AllPostable;
  }

  lemma {:induction false} PingsReadyTake(t: Probe, e: Env, wait: nat)
    requires PingsReady(t) && t.fifo != []
    ensures PingsReady(TxTake(t, e, wait).probe)
  {
    hide AllPostable, HandleAck, ProbeTx.HandleReset;
    PostableTail(t.fifo);
    var q := t.(fifo := t.fifo[1..]);
    ReadyReset(q, e, wait);
    if q.control.pending.Pending? {
      ReadyAck(q, e, wait);
    }
  }

  lemma {:induction false} TakenStates(t: Probe, e: Env, wait: nat)
    requires t.fifo != [] && Postable(t.fifo[0])
    ensures var u := TxTake(t, e, wait).probe;
            u.probing == t.probing && (u.state.EfaProbe? || u.state.EfaTxProbeAcks? ==> t.state.EfaProbe? || t.state.EfaTxProbeAcks?)
  {
    hide HandleAck, ProbeTx.HandleReset;
    HandledStates(t.(fifo := t.fifo[1..]), e, wait);
  }

  lemma {:induction false} HandledStates(t: Probe, e: Env, wait: nat)
    ensures var u := ProbeTx.HandleReset(t, e, wait).probe;
            u.probing == t.probing && (u.state == t.state || u.state == Resetting)
    ensures t.control.pending.Pending? ==>
              var u := HandleAck(t, e, wait).probe;
              u.probing == t.probing && (u.state == t.state || (!u.state.EfaProbe? && !u.state.EfaTxProbeAcks?))
  {
  }

  lemma {:induction false} ReadyTake(t: Probe, e: Env, wait: nat)
    requires TxReady(t) && t.fifo != []
    ensures TxReady(TxTake(t, e, wait).probe)
  {
    hide Queued, LatestIsLast, TxTake, AllPostable;
    PostableTail(t.fifo);
    PingsReadyTake(t, e, wait);
    TakeAccount(t, e, wait);
    TakenStates(t, e, wait);
  }

  lemma {:induction false} ReadyError(t: Probe)
    requires TxReady(t)
    ensures TxReady(t.EndpointError())
  {
    hide Queued, LatestIsLast, AllPostable;
    ErrorAccount(t);
    PostableSnoc(t.fifo, StateChange(EfaReset));
  }

  lemma {:induction false} ReadyAcked(t: Probe, success: bool, last: bool)
    requires TxReady(t)
    ensures TxReady(TxEfaMessage(t, success, last))
  {
    hide Queued, LatestIsLast, AllPostable;
    var q := if success then t else t.EndpointError();
    if !success {
      ReadyError(t);
      ErrorAccount(t);
    }
    QueuedSnoc(q.events, EfaPacketQueued(q.tx.enqueued, q.tx.enqueued + 1 == EFA_PROBE_PACKET_COUNT));
  }

  lemma {:induction false} SilentHasSaid(r: Probe, u: Probe)
    requires HasSaid(r) && Silent(r.events, u.events) && r.control.sent <= u.control.sent
    ensures HasSaid(u)
  {
    if Told(u) {
      var k :| 0 <= k < |u.events| && u.events[k] == TellConnected;
      assert r.events[k] == TellConnected;
      var i :| 0 <= i < |r.control.sent| && IsConnected(r.control.sent[i]);
      assert u.control.sent[i] == r.control.sent[i];
    }
  }

  lemma {:induction false} SilentParts(r: Probe, e: Env)
    ensures Silent(r.events, ResetRemote(r, e).probe.events) && Silent(r.events, StartAndReply(r).probe.events)
    ensures Silent(r.events, ResetIsDone(r).probe.events) && Silent(r.events, PingMissed(r, e).probe.events)
  {
    hide Silent;
    EventsOfReset(r, e);
    SilentAppend(r.events, [TellDisconnected]);
    SilentAppend(r.events, [TellDisconnected, DestroyEndpoint]);
    SilentAppend(r.events, [EfaStarted]);
    SilentAppend(r.events, [QueueEndpointStart]);
    SilentAppend(r.events, [DestroyEndpoint]);
    SilentAppend(r.events, []);
    assert r.events + [] == r.events;
  }

  lemma {:induction false} EventsOfReset(r: Probe, e: Env)
    ensures var es := ResetRemote(r, e).probe.events;
            es == r.events + [TellDisconnected] || es == r.events + [TellDisconnected, DestroyEndpoint]
  {
  }

  lemma {:induction false} SilentAppend(es: seq<Event>, more: seq<Event>)
    requires TellConnected !in more
    ensures Silent(es, es + more)
  {
  }

  lemma {:induction false} SaidAct(r: Probe, e: Env)
    requires HasSaid(r)
    ensures HasSaid(RxAct(r, e).probe)
  {
    hide ResetRemote, StartAndReply, ResetIsDone, PingMissed, HasSaid;
    var u := RxAct(r, e).probe;
    RxActSays(r, e);
    if r.state.EfaConnected? {
      assert IsConnected(u.control.sent[|r.control.sent|]);
      SaidIs(u, |r.control.sent|);
    } else {
      SilentParts(r, e);
      SilentHasSaid(r, u);
    }
  }

  lemma {:induction false} SaidIs(r: Probe, i: nat)
    requires i < |r.control.sent| && IsConnected(r.control.sent[i])
    ensures HasSaid(r)
  {
  }

  lemma {:induction false} ReadyStep(s: System, step: Step)
    requires TxReady(s.tx) && HasSaid(s.rx) && ProbeSystem.Inv(s) && Enabled(s, step)
    ensures TxReady(After(s, step).tx) && HasSaid(After(s, step).rx)
  {
    hide AllPostable, Queued, TxTake, TxAct, TxEfaMessage, RxTake, RxAct, RxEfaMessage, RxSafe, Linked, HasSaid;
    match step {
      case TxTakes(e, wait) => ReadyTake(s.tx, e, wait);
      case TxActs(e) => ReadyAct(s.tx, e);
      case TxAcked(success, last) => ReadyAcked(s.tx, success, last);
      case TxPosted(x) => PostableSnoc(s.tx.fifo, StateChange(x));
      case TxError => ReadyError(s.tx);
      case TxDelivered(m) => PostableSnoc(s.tx.fifo, RxPacket(m));
      case RxTakes(e, wait) => RxTakeSays(s.rx, e, wait); SilentHasSaid(s.rx, After(s, step).rx);
      case RxActs(e) => SaidAct(s.rx, e);
      case RxPacketArrives(success) => RxOtherSays(s.rx, success); SilentHasSaid(s.rx, After(s, step).rx);
      case RxError => RxOtherSays(s.rx, true); SilentHasSaid(s.rx, After(s, step).rx);
      case RxPosted(_) => SilentHasSaid(s.rx, After(s, step).rx);
      case RxDelivered(_) => SilentHasSaid(s.rx, After(s, step).rx);
    }
  }

  lemma {:induction false} ReadyReached(s: System)
    requires Reachable(s)
    ensures TxReady(s.tx) && HasSaid(s.rx) && AckInv(s)
  {
    var ss, steps :| Run(ss, steps) && ss[|steps|] == s;
    ReadyHolds(ss, steps, |steps|);
    AckInvHolds(ss, steps, |steps|);
  }

  lemma {:induction false} ReadyHolds(ss: seq<System>, steps: seq<Step>, i: nat)
    requires Run(ss, steps) && i < |ss|
    ensures TxReady(ss[i].tx) && HasSaid(ss[i].rx)
  {
    if i > 0 {
      hide TxReady, HasSaid, ProbeSystem.Inv;
      ReadyHolds(ss, steps, i - 1);
      ProbeSystem.InvHolds(ss, steps, i - 1);
      ReadyStep(ss[i - 1], steps[i - 1]);
    }
  }
}

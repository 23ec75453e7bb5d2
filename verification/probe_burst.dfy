/** The probe burst and the in-flight count, whatever else the transmitter does in between. */
module ProbeBurst {
  import opened Probe
  import opened ProbeTx
  import opened ProbeRx
  import opened ProbeSystem

  /** Probe packets queued since the endpoint was last started. */
  function Queued(es: seq<Event>): nat {
    if es == [] then 0
    else
      var last := es[|es| - 1];
      if last.EfaStarted? then 0 else Queued(es[..|es| - 1]) + (if last.EfaPacketQueued? then 1 else 0)
  }

  /** Probe packets of the last start that are queued and not acknowledged. */
  function Outstanding(t: Probe): int {
    Queued(t.events) - t.tx.acked
  }

  /** Whether the packet queued latest is marked as the last one of the burst. */
  function LatestIsLast(es: seq<Event>): bool {
    if es == [] then false
    else
      var last := es[|es| - 1];
      if last.EfaPacketQueued? then last.last else LatestIsLast(es[..|es| - 1])
  }

  /** Probe packets queued, and probe packets received, in all. */
  function Sendings(es: seq<Event>): nat {
    if es == [] then 0 else Sendings(es[..|es| - 1]) + (if es[|es| - 1].EfaPacketQueued? then 1 else 0)
  }

  function Arrivals(es: seq<Event>): nat {
    if es == [] then 0 else Arrivals(es[..|es| - 1]) + (if es[|es| - 1].EfaPacketReceived? then 1 else 0)
  }

  /** The data path invents nothing: a packet is acknowledged only if it is outstanding, and as the one that was queued;
      no more packets arrive than were queued. */
  predicate Genuine(s: System, step: Step) {
    && (step.TxAcked? ==> Outstanding(s.tx) > 0 && step.last == LatestIsLast(s.tx.events))
    && (step.RxPacketArrives? && step.success ==> Arrivals(s.rx.events) < Sendings(s.tx.events))
  }

  /** At most one packet is outstanding; none, once the burst is acknowledged or when no packet was queued. The
      in-flight count is one for the payload, until its last packet is acknowledged, and one for each packet. */
  predicate BurstOk(t: Probe) {
    && !t.tx.inFlight.underflow
    && 0 <= t.tx.acked <= EFA_PROBE_PACKET_COUNT
    && (if EfaStarted !in t.events then Queued(t.events) == t.tx.acked == t.tx.inFlight.value == 0
        else if Queued(t.events) == 0 then t.tx.acked == 0 && t.tx.inFlight.value == 1
        else
          && t.tx.enqueued == Queued(t.events)
          && LatestIsLast(t.events) == (t.tx.enqueued == EFA_PROBE_PACKET_COUNT)
          && Outstanding(t) == (if t.tx.acked < EFA_PROBE_PACKET_COUNT then 1 else 0)
          && t.tx.inFlight.value == if t.tx.acked < EFA_PROBE_PACKET_COUNT then 2 else 0)
  }

  lemma {:induction false} QueuedSnoc(es: seq<Event>, e: Event)
    ensures Queued(es + [e]) == if e.EfaStarted? then 0 else Queued(es) + (if e.EfaPacketQueued? then 1 else 0)
    ensures EfaStarted in es + [e] <==> e == EfaStarted || EfaStarted in es
    ensures LatestIsLast(es + [e]) == if e.EfaPacketQueued? then e.last else LatestIsLast(es)
  {
    assert (es + [e])[..|es|] == es;
  }

  lemma {:induction false} CountedSnoc(es: seq<Event>, e: Event)
    ensures Sendings(es + [e]) == Sendings(es) + (if e.EfaPacketQueued? then 1 else 0)
    ensures Arrivals(es + [e]) == Arrivals(es) + (if e.EfaPacketReceived? then 1 else 0)
  {
    assert (es + [e])[..|es|] == es;
  }

  predicate SameBurst(t: Probe, u: Probe) {
    u.tx.(retries := 0, ackWaits := 0) == t.tx.(retries := 0, ackWaits := 0)
  }

  /** The burst is where it was. */
  predicate SameAccount(t: Probe, u: Probe) {
    && SameBurst(t, u) && Queued(u.events) == Queued(t.events)
    && (EfaStarted in u.events <==> EfaStarted in t.events) && LatestIsLast(u.events) == LatestIsLast(t.events)
  }

  /** Events that are not about the burst change nothing. */
  lemma {:induction false} OtherEvents(t: Probe, u: Probe, es: seq<Event>)
    requires SameBurst(t, u)
    requires u.events == t.events + es && |es| <= 2
    requires forall i :: 0 <= i < |es| ==> !es[i].EfaStarted? && !es[i].EfaPacketQueued?
    ensures SameAccount(t, u)
  {
    hide Queued, LatestIsLast;
    if es == [] {
      assert u.events == t.events;
    } else if |es| == 1 {
      assert es == [es[0]];
      QueuedSnoc(t.events, es[0]);
    } else {
      QueuedSnoc(t.events, es[0]);
      QueuedSnoc(t.events + [es[0]], es[1]);
      assert t.events + es == t.events + [es[0]] + [es[1]];
    }
  }

  lemma {:induction false} Starts(t: Probe, e: Env)
    requires BurstOk(t) && t.direction == Send
    ensures BurstOk(StartBurst(t, e).probe)
  {
    hide Queued, LatestIsLast;
    QueuedSnoc(t.events, EfaStarted);
    QueuedSnoc(t.events + [EfaStarted], EfaPacketQueued(0, 1 == EFA_PROBE_PACKET_COUNT));
  }

  /** The events of every action but the start of a burst. */
  function ActionEvents(s: ProbeState): seq<Event> {
    match s
    case EfaReset => [TellDisconnected, QueueEndpointReset]
    case Idle => [TellDisconnected]
    case SendReset => [TellDisconnected]
    case EfaConnected => [TellConnected]
    case _ => []
  }

  lemma {:induction false} PartsKeepEvents(t: Probe, e: Env)
    ensures forall q: Probe, next, w :: var u := SendResetCommand(q, next, w).probe; u.events == q.events && u.tx == q.tx
    ensures forall c :: var u := SendCommandRetry(t, c).probe; u.events == t.events && SameBurst(t, u)
    ensures var u := AwaitProbeAcks(t, e).probe; u.events == t.events && SameBurst(t, u)
  {
  }

  lemma {:induction false} ActionEventsAre(t: Probe, e: Env)
    requires !t.state.EfaStart?
    ensures var u := TxAct(t, e).probe;
            u.events == t.events + ActionEvents(t.state) && SameBurst(t, u)
  {
    hide SendResetCommand, SendCommandRetry, AwaitProbeAcks;
    PartsKeepEvents(t, e);
    assert t.events + [] == t.events;
  }

  lemma {:induction false} ActAccount(t: Probe, e: Env)
    requires !t.state.EfaStart?
    ensures SameAccount(t, TxAct(t, e).probe)
  {
    hide TxAct, SameAccount;
    ActionEventsAre(t, e);
    OtherEvents(t, TxAct(t, e).probe, ActionEvents(t.state));
  }

  lemma {:induction false} ResetAccount(t: Probe, e: Env, wait: nat)
    ensures SameAccount(t, ProbeTx.HandleReset(t, e, wait).probe)
  {
    hide SameAccount;
    OtherEvents(t, ProbeTx.HandleReset(t, e, wait).probe, [TellDisconnected, QueueEndpointReset]);
  }

  lemma {:induction false} AckAccount(t: Probe, e: Env, wait: nat)
    requires t.control.pending.Pending?
    ensures SameAccount(t, HandleAck(t, e, wait).probe)
  {
    hide SameAccount;
    var u := HandleAck(t, e, wait).probe;
    assert t.events + [] == t.events;
    OtherEvents(t, u, if u.events == t.events then [] else [QueueEndpointStart]);
  }

  lemma {:induction false} TakeAccount(t: Probe, e: Env, wait: nat)
    requires t.fifo != []
    ensures SameAccount(t, TxTake(t, e, wait).probe)
  {
    hide Queued, LatestIsLast, ProbeTx.HandleReset, HandleAck;
    var q := t.(fifo := t.fifo[1..]);
    ResetAccount(q, e, wait);
    if q.control.pending.Pending? {
      AckAccount(q, e, wait);
    }
  }

  lemma {:induction false} ErrorAccount(t: Probe)
    ensures SameAccount(t, t.EndpointError())
  {
    hide SameAccount;
    assert t.events + [] == t.events;
    OtherEvents(t, t.EndpointError(), if t.connected then [TellDisconnected] else []);
  }

  lemma {:induction false} BurstAct(t: Probe, e: Env)
    requires BurstOk(t) && t.direction == Send
    ensures BurstOk(TxAct(t, e).probe)
  {
    hide Queued, LatestIsLast, StartBurst;
    if t.state.EfaStart? {
      Starts(t, e);
    } else {
      ActAccount(t, e);
    }
  }

  lemma {:induction false} BurstTake(t: Probe, e: Env, wait: nat)
    requires BurstOk(t) && t.fifo != []
    ensures BurstOk(TxTake(t, e, wait).probe)
  {
    hide Queued, LatestIsLast, TxTake;
    TakeAccount(t, e, wait);
  }

  lemma {:induction false} BurstError(t: Probe)
    requires BurstOk(t)
    ensures BurstOk(t.EndpointError())
  {
    hide Queued, LatestIsLast;
    ErrorAccount(t);
  }

  /** While a packet is outstanding, the one queued latest is the one outstanding, so it is marked as the last one of the
      burst exactly when it is the last one. */
  lemma {:induction false} LatestIsOutstanding(t: Probe)
    requires BurstOk(t) && Outstanding(t) > 0
    ensures LatestIsLast(t.events) == (t.tx.acked + 1 == EFA_PROBE_PACKET_COUNT)
  {
    hide LatestIsLast;
  }

  lemma {:induction false} BurstAcked(t: Probe, success: bool)
    requires BurstOk(t) && Outstanding(t) > 0
    ensures BurstOk(TxEfaMessage(t, success, LatestIsLast(t.events)))
  {
    hide Queued, LatestIsLast;
    LatestIsOutstanding(t);
    var q := if success then t else t.EndpointError();
    if !success {
      BurstError(t);
    }
    QueuedSnoc(q.events, EfaPacketQueued(q.tx.enqueued, q.tx.enqueued + 1 == EFA_PROBE_PACKET_COUNT));
  }

  lemma {:induction false} BurstKept(s: System, step: Step)
    requires BurstOk(s.tx) && s.tx.direction == Send && Enabled(s, step) && Genuine(s, step)
    ensures BurstOk(After(s, step).tx)
  {
    hide Queued, LatestIsLast, TxTake, TxAct, TxEfaMessage, RxTake, RxAct, RxEfaMessage;
    match step {
      case TxTakes(e, wait) => BurstTake(s.tx, e, wait);
      case TxActs(e) => BurstAct(s.tx, e);
      case TxAcked(success, _) => BurstAcked(s.tx, success);
      case TxError => BurstError(s.tx);
      case _ =>
    }
  }

  /** In every run whose data path invents nothing, while the control thread, the network and the Endpoint Manager do
      whatever they do: at most one probe packet is outstanding; and once a packet of the last
      start has been queued, the in-flight count is zero exactly when the whole burst is acknowledged. No assertion on
      the count fails. */
  lemma {:induction false} BurstCount(ss: seq<System>, steps: seq<Step>, i: nat)
    requires Run(ss, steps) && i < |ss| && forall j :: 0 <= j < |steps| ==> Genuine(ss[j], steps[j])
    ensures var t := ss[i].tx;
            && !t.tx.inFlight.underflow && 0 <= Outstanding(t) <= 1
            && (Queued(t.events) > 0 ==> (t.tx.inFlight.value == 0 <==> t.tx.acked == EFA_PROBE_PACKET_COUNT))
            && (Queued(t.events) > 0 ==> t.tx.inFlight.value == 2 * Outstanding(t))
  {
    BurstHolds(ss, steps, i);
  }

  lemma {:induction false} BurstHolds(ss: seq<System>, steps: seq<Step>, i: nat)
    requires Run(ss, steps) && i < |ss| && forall j :: 0 <= j < |steps| ==> Genuine(ss[j], steps[j])
    ensures BurstOk(ss[i].tx)
  {
    if i > 0 {
      hide BurstOk, After, Enabled, ProbeSystem.Inv, Genuine;
      BurstHolds(ss, steps, i - 1);
      InvHolds(ss, steps, i - 1);
      SendsAlways(ss[i - 1]);
      BurstKept(ss[i - 1], steps[i - 1]);
    }
  }

  lemma {:induction false} SendsAlways(s: System)
    requires ProbeSystem.Inv(s)
    ensures s.tx.direction == Send
  {
  }

  // ----- What the acknowledgements are for -----

  /** The whole burst since the last start is acknowledged, and nothing is in flight. */
  predicate BurstIsAcked(t: Probe) {
    Queued(t.events) == EFA_PROBE_PACKET_COUNT && Outstanding(t) == 0 && t.tx.inFlight.value == 0
  }

  lemma {:induction false} AllAcked(t: Probe)
    requires BurstOk(t) && t.tx.acked >= EFA_PROBE_PACKET_COUNT
    ensures BurstIsAcked(t)
  {
    hide Queued, LatestIsLast;
  }

  /** An action queues the move to Connected, or makes it, only when the burst is acknowledged. */
  lemma {:induction false} ActEnables(t: Probe, e: Env)
    ensures var u := TxAct(t, e).probe;
            u.fifo != t.fifo || (u.state == EfaConnected && t.state != EfaConnected) ==>
              t.state == EfaTxProbeAcks && t.tx.acked >= EFA_PROBE_PACKET_COUNT
  {
    hide SendResetCommand, SendCommandRetry, StartBurst, AwaitProbeAcks;
    PartsEnableNothing(t, e);
    AwaitEnables(t, e);
  }

  lemma {:induction false} AwaitEnables(t: Probe, e: Env)
    ensures var u := AwaitProbeAcks(t, e).probe;
            u.fifo != t.fifo || (u.state == EfaConnected && t.state != EfaConnected) ==> t.tx.acked >= EFA_PROBE_PACKET_COUNT
  {
  }

  lemma {:induction false} PartsEnableNothing(t: Probe, e: Env)
    ensures forall q: Probe, next, w :: var u := SendResetCommand(q, next, w).probe; u.fifo == q.fifo && u.state == next
    ensures forall c :: var u := SendCommandRetry(t, c).probe; u.fifo == t.fifo && (u.state == t.state || u.state == EfaReset)
    ensures var u := StartBurst(t, e).probe; u.fifo == t.fifo && u.state != EfaConnected
  {
  }

  lemma {:induction false} TakeEnters(t: Probe, e: Env, wait: nat)
    requires t.fifo != []
    ensures var u := TxTake(t, e, wait).probe;
            && u.fifo == t.fifo[1..]
            && (u.state == EfaConnected && t.state != EfaConnected ==>
                  t.fifo[0] == StateChange(EfaConnected)
                  || (t.fifo[0].RxPacket? && Accepts(t, t.fifo[0].message) && t.fifo[0].message.ackCommand == Ping))
  {
    hide HandleAck, ProbeTx.HandleReset;
    HandlersEnter(t.(fifo := t.fifo[1..]), e, wait);
  }

  lemma {:induction false} HandlersEnter(t: Probe, e: Env, wait: nat)
    ensures var u := ProbeTx.HandleReset(t, e, wait).probe;
            u.fifo == t.fifo && (u.state == t.state || u.state == Resetting)
    ensures t.control.pending.Pending? ==>
              var u := HandleAck(t, e, wait).probe;
              u.fifo == t.fifo && (u.state == EfaConnected && t.state != EfaConnected ==> t.control.pending.command == Ping)
  {
  }

  lemma {:induction false} MessagesEnableNothing(t: Probe, success: bool, last: bool)
    ensures var u := TxEfaMessage(t, success, last);
            u.state == t.state && (u.fifo == t.fifo || u.fifo == t.fifo + [StateChange(EfaReset)])
  {
  }

  /** In every run whose data path invents nothing: the transmitter queues the move to Connected only when every packet of the
      burst since its last start is acknowledged and nothing is in flight; and it gets to Connected only then, or by
      reading such a move, or by the acknowledgement of a Ping. */
  lemma {:induction false} ConnectsWhenAcked(ss: seq<System>, steps: seq<Step>, i: nat)
    requires Run(ss, steps) && i < |steps| && forall j :: 0 <= j < |steps| ==> Genuine(ss[j], steps[j])
    ensures var t, u := ss[i].tx, ss[i + 1].tx;
            && (u.fifo == t.fifo + [StateChange(EfaConnected)] ==> BurstIsAcked(t))
            && (u.state == EfaConnected && t.state != EfaConnected ==>
                  || BurstIsAcked(t)
                  || (t.fifo != [] && t.fifo[0] == StateChange(EfaConnected))
                  || (t.fifo != [] && t.fifo[0].RxPacket? && Accepts(t, t.fifo[0].message) && t.fifo[0].message.ackCommand == Ping))
  {
    hide BurstOk, BurstIsAcked, TxAct, TxTake, TxEfaMessage, RxTake, RxAct, RxEfaMessage, Genuine, Accepts;
    BurstHolds(ss, steps, i);
    var s, t := ss[i], ss[i].tx;
    assert ss[i + 1] == After(s, steps[i]);
    var connects := t.fifo + [StateChange(EfaConnected)];
    assert |connects| == |t.fifo| + 1 && connects[|t.fifo|] == StateChange(EfaConnected);
    match steps[i] {
      case TxTakes(e, wait) => TakeEnters(t, e, wait);
      case TxActs(e) =>
        ActEnables(t, e);
        if t.tx.acked >= EFA_PROBE_PACKET_COUNT {
          AllAcked(t);
        }
      case TxAcked(success, last) => MessagesEnableNothing(t, success, last);
      case _ =>
    }
  }
}

/** Each burst of probe packets is good for one notification: the receiver's application is told Connected at most as
    often as a burst has been completed. */
module ProbeTellings {
  import opened Probe
  import opened ProbeRx
  import opened ProbeSystem

  /** How often the application was told Connected. */
  function Tellings(es: seq<Event>): nat {
    if es == [] then 0 else Tellings(es[..|es| - 1]) + (if es[|es| - 1].TellConnected? then 1 else 0)
  }

  /** How often a probe packet completed a burst: as packet number EFA_PROBE_PACKET_COUNT since a start. */
  function Bursts(es: seq<Event>): nat {
    if es == [] then 0
    else
      Bursts(es[..|es| - 1])
      + (if es[|es| - 1].EfaPacketReceived? && PacketsSinceStart(es) == EFA_PROBE_PACKET_COUNT then 1 else 0)
  }

  function Moves(fifo: seq<ControlCommand>): nat {
    if fifo == [] then 0 else (if fifo[0] == StateChange(EfaConnected) then 1 else 0) + Moves(fifo[1..])
  }

  /** Notifications that are still to come: moves to Connected that are queued or made. */
  function Due(r: Probe): nat {
    Moves(r.fifo) + if r.state == EfaConnected then 1 else 0
  }

  predicate Owed(r: Probe) {
    Tellings(r.events) + Due(r) <= Bursts(r.events) && (r.probing ==> r.rx.received < EFA_PROBE_PACKET_COUNT)
  }

  predicate Plain(e: Event) {
    !e.TellConnected? && !e.EfaPacketReceived?
  }

  lemma {:induction false} CountSnoc(es: seq<Event>, e: Event)
    ensures Tellings(es + [e]) == Tellings(es) + (if e.TellConnected? then 1 else 0)
    ensures Bursts(es + [e]) == Bursts(es)
              + (if e.EfaPacketReceived? && PacketsSinceStart(es) + 1 == EFA_PROBE_PACKET_COUNT then 1 else 0)
  {
    hide PacketsSinceStart;
    PacketsSnoc(es, e);
    assert (es + [e])[..|es|] == es;
  }

  lemma {:induction false} MovesSnoc(fifo: seq<ControlCommand>, c: ControlCommand)
    ensures Moves(fifo + [c]) == Moves(fifo) + (if c == StateChange(EfaConnected) then 1 else 0)
  {
    if fifo == [] {
      assert [c][1..] == [];
    } else {
      MovesSnoc(fifo[1..], c);
      assert (fifo + [c])[1..] == fifo[1..] + [c];
    }
  }

  /** Other events, with no more due than before. */
  lemma {:induction false} PlainStep(r: Probe, u: Probe, es: seq<Event>)
    requires Owed(r) && u.events == r.events + es && |es| <= 2 && Due(u) <= Due(r)
    requires forall i :: 0 <= i < |es| ==> Plain(es[i])
    requires u.probing ==> u.rx.received < EFA_PROBE_PACKET_COUNT
    ensures Owed(u)
  {
    hide Tellings, Bursts, Due;
    if es == [] {
      assert u.events == r.events;
    } else if |es| == 1 {
      assert es == [es[0]];
      CountSnoc(r.events, es[0]);
    } else {
      CountSnoc(r.events, es[0]);
      CountSnoc(r.events + [es[0]], es[1]);
      assert r.events + es == r.events + [es[0]] + [es[1]];
    }
  }

  lemma {:induction false} OwedStart(r: Probe)
    requires Owed(r) && r.direction == Receive && r.state != EfaConnected
    ensures Owed(StartAndReply(r).probe)
  {
    hide Owed, Moves;
    PlainStep(r, StartAndReply(r).probe, [EfaStarted]);
  }

  lemma {:induction false} OwedResetRemote(r: Probe, e: Env)
    requires Owed(r) && r.state != EfaConnected
    ensures Owed(ResetRemote(r, e).probe)
  {
    hide Tellings, Bursts, Moves;
    var u := ResetRemote(r, e).probe;
    PlainStep(r, u, if u.state == Destroy then [TellDisconnected, DestroyEndpoint] else [TellDisconnected]);
  }

  lemma {:induction false} OwedOthers(r: Probe, e: Env)
    requires Owed(r) && r.state != EfaConnected
    ensures Owed(ResetIsDone(r).probe) && (r.state == EfaConnectedPing ==> Owed(PingMissed(r, e).probe))
  {
    hide Tellings, Bursts, Moves;
    assert r.events + [] == r.events;
    PlainStep(r, ResetIsDone(r).probe, if r.hasVersion then [QueueEndpointStart] else []);
    PlainStep(r, PingMissed(r, e).probe, if r.rx.snapshot != e.totalPackets then [] else [DestroyEndpoint]);
  }

  lemma {:induction false} OwedConnected(r: Probe, e: Env)
    requires Owed(r) && r.state == EfaConnected
    ensures Owed(BecomeConnected(r, e).probe)
  {
    hide Tellings, Bursts, Moves;
    CountSnoc(r.events, TellConnected);
  }

  lemma {:induction false} OwedAct(r: Probe, e: Env)
    requires Owed(r) && r.direction == Receive
    ensures Owed(RxAct(r, e).probe)
  {
    hide Owed, Moves, ResetRemote, StartAndReply, ResetIsDone, BecomeConnected, PingMissed;
    assert r.events + [] == r.events;
    OwedProbing(r);
    match r.state
    case EfaStart => OwedStart(r);
    case WaitForStart => OwedStart(r);
    case Idle => OwedResetRemote(r, e);
    case SendReset => OwedResetRemote(r, e);
    case ResetDone => OwedOthers(r, e);
    case EfaConnected => OwedConnected(r, e);
    case EfaConnectedPing => OwedOthers(r, e);
    case EfaReset => PlainStep(r, RxAct(r, e).probe, [TellDisconnected, QueueEndpointReset]);
    case _ => PlainStep(r, RxAct(r, e).probe, []);
  }

  lemma {:induction false} OwedProbing(r: Probe)
    requires Owed(r)
    ensures r.probing ==> r.rx.received < EFA_PROBE_PACKET_COUNT
  {
  }

  lemma {:induction false} OwedPacket(r: Probe, m: Message, e: Env, wait: nat)
    requires Owed(r)
    ensures Owed(RxPacketHandled(r, m, e, wait).probe)
  {
    hide Tellings, Bursts, Moves, ProbeRx.HandleReset, HandleProtocolVersion;
    var u := RxPacketHandled(r, m, e, wait).probe;
    assert r.events + [] == r.events;
    if m.CommandMessage? {
      HandlersOwe(r.(control := r.control.Process(m)), m, e, wait);
    }
    PlainStep(r, u, if u.events == r.events then [] else [QueueEndpointStart]);
  }

  lemma {:induction false} HandlersOwe(r: Probe, m: Message, e: Env, wait: nat)
    requires m.CommandMessage?
    ensures var u := ProbeRx.HandleReset(r, m, e).probe;
            u.events == r.events && u.fifo == r.fifo && u.probing == r.probing && u.rx == r.rx && u.state != EfaConnected
    ensures var u := HandleProtocolVersion(r, m, e, wait).probe;
            && (u.events == r.events || u.events == r.events + [QueueEndpointStart])
            && u.fifo == r.fifo && u.probing == r.probing && u.rx == r.rx && (u.state == r.state || u.state == WaitForStart)
  {
  }

  lemma {:induction false} OwedTake(r: Probe, e: Env, wait: nat)
    requires Owed(r) && r.fifo != []
    ensures Owed(RxTake(r, e, wait).probe)
  {
    hide Tellings, Bursts, RxPacketHandled;
    var q := r.(fifo := r.fifo[1..]);
    if r.fifo[0].RxPacket? {
      OwedPacket(q, r.fifo[0].message, e, wait);
    }
  }

  lemma {:induction false} OwedArrival(r: Probe, success: bool)
    requires Owed(r) && r.probing && r.rx.received == PacketsSinceStart(r.events)
    ensures Owed(RxEfaMessage(r, success))
  {
    hide Tellings, Bursts, Moves, PacketsSinceStart;
    CountSnoc(r.events, EfaPacketReceived);
    MovesSnoc(r.fifo, StateChange(EfaConnected));
  }

  lemma {:induction false} OwedError(r: Probe)
    requires Owed(r)
    ensures Owed(r.EndpointError())
  {
    hide Tellings, Bursts, Moves;
    assert r.events + [] == r.events;
    MovesSnoc(r.fifo, StateChange(EfaReset));
    PlainStep(r, r.EndpointError(), if r.connected then [TellDisconnected] else []);
  }

  lemma {:induction false} OwedStep(s: System, step: Step)
    requires Owed(s.rx) && s.rx.direction == Receive && s.rx.rx.received == PacketsSinceStart(s.rx.events) && Enabled(s, step)
    ensures Owed(After(s, step).rx)
  {
    hide Owed, Moves, RxTake, RxAct, RxEfaMessage, PacketsSinceStart;
    match step {
      case RxTakes(e, wait) => OwedTake(s.rx, e, wait);
      case RxActs(e) => OwedAct(s.rx, e);
      case RxPacketArrives(success) => OwedArrival(s.rx, success);
      case RxError => OwedError(s.rx);
      case RxPosted(x) => OwedQueued(s.rx, StateChange(x));
      case RxDelivered(m) => OwedQueued(s.rx, RxPacket(m));
      case _ =>
    }
  }

  lemma {:induction false} OwedQueued(r: Probe, c: ControlCommand)
    requires Owed(r) && c != StateChange(EfaConnected)
    ensures Owed(r.(fifo := r.fifo + [c]))
  {
    hide Tellings, Bursts, Moves;
    MovesSnoc(r.fifo, c);
  }

  lemma {:induction false} OwedHolds(ss: seq<System>, steps: seq<Step>, i: nat)
    requires Run(ss, steps) && i < |ss|
    ensures Owed(ss[i].rx)
  {
    if i > 0 {
      hide Owed, After, Enabled, TxSafe;
      OwedHolds(ss, steps, i - 1);
      InvHolds(ss, steps, i - 1);
      OwedStep(ss[i - 1], steps[i - 1]);
    }
  }

  /** In every run, the receiver's application has been told Connected at most as often as a burst of
      EFA_PROBE_PACKET_COUNT probe packets has been completed: no burst is good for two notifications. */
  lemma {:induction false} OneTellingPerBurst(ss: seq<System>, steps: seq<Step>, i: nat)
    requires Run(ss, steps) && i < |ss|
    ensures Tellings(ss[i].rx.events) <= Bursts(ss[i].rx.events)
  {
    OwedHolds(ss, steps, i);
  }
}

/** What the reactions of a transmitter and of a receiver keep and promise, said without their cases. */
module ProbeContracts {
  import opened Probe
  import opened ProbeTx
  import opened ProbeRx
  import opened ProbeSystem
  import opened ProbeAck
  import opened ProbeBurst
  import opened ProbeOrder
  import opened ProbeReady

  // ----- What the application was told -----

  /** Whether the application takes itself for connected after these events, given whether it did before. */
  function ToldAfter(before: bool, es: seq<Event>): bool {
    if es == [] then before
    else
      var last := es[|es| - 1];
      if last.TellConnected? then true else if last.TellDisconnected? then false else ToldAfter(before, es[..|es| - 1])
  }

  /** The probe knows what it told the application last. */
  predicate KnowsTold(p: Probe) {
    p.connected == ToldAfter(false, p.events)
  }

  /** What was told in between agrees with the change of the flag. */
  predicate Tells(p: Probe, q: Probe) {
    p.events <= q.events && q.connected == ToldAfter(p.connected, q.events[|p.events|..])
  }

  lemma {:induction false} ToldAfterConcat(before: bool, a: seq<Event>, b: seq<Event>)
    ensures ToldAfter(before, a + b) == ToldAfter(ToldAfter(before, a), b)
  {
    if b == [] {
      assert a + b == a;
    } else {
      ToldAfterConcat(before, a, b[..|b| - 1]);
      assert (a + b)[..|a + b| - 1] == a + b[..|b| - 1];
    }
  }

  lemma {:induction false} StillKnows(p: Probe, q: Probe)
    requires KnowsTold(p) && Tells(p, q)
    ensures KnowsTold(q)
  {
    ToldAfterConcat(false, p.events, q.events[|p.events|..]);
    assert q.events == p.events + q.events[|p.events|..];
  }

  lemma {:induction false} TellsBy(p: Probe, q: Probe, es: seq<Event>)
    requires q.events == p.events + es && q.connected == ToldAfter(p.connected, es)
    ensures Tells(p, q)
  {
  }

  lemma {:induction false} ToldByOne(before: bool, e: Event)
    ensures ToldAfter(before, [e]) == if e.TellConnected? then true else if e.TellDisconnected? then false else before
    ensures ToldAfter(before, []) == before
  {
    assert [e][..0] == [];
  }

  lemma {:induction false} ToldByTwo(before: bool, d: Event, e: Event)
    ensures ToldAfter(before, [d, e]) == ToldAfter(ToldAfter(before, [d]), [e])
  {
    ToldAfterConcat(before, [d], [e]);
    assert [d] + [e] == [d, e];
  }

  /** A reaction that adds at most two events: the flag follows them. */
  lemma {:induction false} TellsTwo(p: Probe, q: Probe, es: seq<Event>)
    requires q.events == p.events + es && |es| <= 2
    requires q.connected == if TellConnected in es then true else if TellDisconnected in es then false else p.connected
    requires TellConnected in es ==> TellDisconnected !in es
    ensures Tells(p, q)
  {
    hide ToldAfter, Tells;
    if es == [] {
      ToldByOne(p.connected, TellConnected);
    } else if |es| == 1 {
      assert es == [es[0]];
      ToldByOne(p.connected, es[0]);
    } else {
      assert es == [es[0], es[1]];
      ToldByOne(p.connected, es[0]);
      ToldByOne(ToldAfter(p.connected, [es[0]]), es[1]);
      ToldByTwo(p.connected, es[0], es[1]);
    }
    TellsBy(p, q, es);
  }

  lemma {:induction false} TxActTells(t: Probe, e: Env)
    ensures Tells(t, TxAct(t, e).probe)
  {
    hide Tells, SendResetCommand, SendCommandRetry, AwaitProbeAcks, StartBurst;
    if t.state.EfaStart? {
      TxBurstTells(t, e);
    } else {
      FlagOfParts(t, e);
      ActionEventsAre(t, e);
      TellsTwo(t, TxAct(t, e).probe, ActionEvents(t.state));
    }
  }

  lemma {:induction false} TxBurstTells(t: Probe, e: Env)
    ensures Tells(t, StartBurst(t, e).probe)
  {
    hide Tells;
    var u := StartBurst(t, e).probe;
    var es := if e.startSucceeds then [EfaStarted, EfaPacketQueued(0, 1 == EFA_PROBE_PACKET_COUNT)] else [EfaStarted];
    assert u.events == t.events + es;
    TellsTwo(t, u, es);
  }

  lemma {:induction false} FlagOfParts(t: Probe, e: Env)
    ensures forall q: Probe, next, w :: SendResetCommand(q, next, w).probe.connected == q.connected
    ensures forall c :: SendCommandRetry(t, c).probe.connected == t.connected
    ensures AwaitProbeAcks(t, e).probe.connected == t.connected
  {
  }

  lemma {:induction false} SaysNothingMore(p: Probe, q: Probe)
    requires q.events == p.events && q.connected == p.connected
    ensures Tells(p, q)
  {
    hide Tells;
    assert p.events + [] == q.events;
    TellsTwo(p, q, []);
  }

  lemma {:induction false} TxResetTells(t: Probe, e: Env, wait: nat)
    ensures Tells(t, ProbeTx.HandleReset(t, e, wait).probe)
  {
    hide Tells;
    TellsTwo(t, ProbeTx.HandleReset(t, e, wait).probe, [TellDisconnected, QueueEndpointReset]);
  }

  lemma {:induction false} TxAckTells(t: Probe, e: Env, wait: nat)
    requires t.control.pending.Pending?
    ensures Tells(t, HandleAck(t, e, wait).probe)
  {
    hide Tells;
    var u := HandleAck(t, e, wait).probe;
    assert t.events + [] == t.events;
    TellsTwo(t, u, if u.events == t.events then [] else [QueueEndpointStart]);
  }

  lemma {:induction false} TxPacketTells(t: Probe, m: Message, e: Env, wait: nat)
    ensures Tells(t, TxPacket(t, m, e, wait).probe)
  {
    hide Tells, ProbeTx.HandleReset, HandleAck;
    TxResetTells(t, e, wait);
    var u := TxPacket(t, m, e, wait).probe;
    if Accepts(t, m) {
      TxAckTells(t, e, wait);
    } else if m.AckMessage? || m.command != Reset {
      SaysNothingMore(t, u);
    }
  }

  lemma {:induction false} RxActTells(r: Probe, e: Env)
    ensures Tells(r, RxAct(r, e).probe)
  {
    hide Tells, ResetRemote, StartAndReply, ResetIsDone, BecomeConnected, PingMissed;
    var u := RxAct(r, e).probe;
    match r.state
    case EfaStart => RxStartTells(r);
    case WaitForStart => RxStartTells(r);
    case Idle => RxResetRemoteTells(r, e);
    case SendReset => RxResetRemoteTells(r, e);
    case ResetDone => RxOthersTell(r, e);
    case EfaConnected => RxOthersTell(r, e);
    case EfaConnectedPing => RxOthersTell(r, e);
    case EfaReset => TellsTwo(r, u, [TellDisconnected, QueueEndpointReset]);
    case _ => SaysNothingMore(r, u);
  }

  lemma {:induction false} RxStartTells(r: Probe)
    ensures Tells(r, StartAndReply(r).probe)
  {
    hide Tells;
    TellsTwo(r, StartAndReply(r).probe, [EfaStarted]);
  }

  lemma {:induction false} RxResetRemoteTells(r: Probe, e: Env)
    ensures Tells(r, ResetRemote(r, e).probe)
  {
    hide Tells;
    var u := ResetRemote(r, e).probe;
    TellsTwo(r, u, if u.state == Destroy then [TellDisconnected, DestroyEndpoint] else [TellDisconnected]);
  }

  lemma {:induction false} RxOthersTell(r: Probe, e: Env)
    ensures Tells(r, ResetIsDone(r).probe) && Tells(r, BecomeConnected(r, e).probe) && Tells(r, PingMissed(r, e).probe)
  {
    hide Tells;
    assert r.events + [] == r.events;
    TellsTwo(r, ResetIsDone(r).probe, if r.hasVersion then [QueueEndpointStart] else []);
    TellsTwo(r, BecomeConnected(r, e).probe, [TellConnected]);
    TellsTwo(r, PingMissed(r, e).probe, if r.rx.snapshot != e.totalPackets then [] else [DestroyEndpoint]);
  }

  lemma {:induction false} RxPacketTells(r: Probe, m: Message, e: Env, wait: nat)
    ensures Tells(r, RxPacketHandled(r, m, e, wait).probe)
  {
    hide Tells, ProbeRx.HandleReset, HandleProtocolVersion;
    var u := RxPacketHandled(r, m, e, wait).probe;
    if m.CommandMessage? && m.command == ProtocolVersion {
      var q := r.(control := r.control.Process(m));
      RxVersionTells(q, m, e, wait);
      SameTold(r, q, u);
    } else {
      if m.CommandMessage? {
        RxResetKeepsTold(r.(control := r.control.Process(m)), m, e);
      }
      SaysNothingMore(r, u);
    }
  }

  lemma {:induction false} RxResetKeepsTold(r: Probe, m: Message, e: Env)
    requires m.CommandMessage?
    ensures var u := ProbeRx.HandleReset(r, m, e).probe;
            u.events == r.events && u.connected == r.connected
  {
  }

  lemma {:induction false} RxVersionTells(r: Probe, m: Message, e: Env, wait: nat)
    requires m.CommandMessage?
    ensures Tells(r, HandleProtocolVersion(r, m, e, wait).probe)
  {
    hide Tells;
    assert r.events + [] == r.events;
    TellsTwo(r, HandleProtocolVersion(r, m, e, wait).probe, if e.versionAccepted then [QueueEndpointStart] else []);
  }

  lemma {:induction false} ErrorTells(p: Probe)
    ensures Tells(p, p.EndpointError())
  {
    hide Tells;
    assert p.events + [] == p.events;
    TellsTwo(p, p.EndpointError(), if p.connected then [TellDisconnected] else []);
  }

  lemma {:induction false} TxMessageTells(t: Probe, success: bool, last: bool)
    ensures Tells(t, TxEfaMessage(t, success, last))
  {
    hide Tells;
    var d := if success then t else t.EndpointError();
    var u := TxEfaMessage(t, success, last);
    var told := if !success && t.connected then [TellDisconnected] else [];
    var queued := if t.tx.acked + 1 < EFA_PROBE_PACKET_COUNT then [u.events[|u.events| - 1]] else [];
    assert d.events == t.events + told;
    assert u.events == t.events + (told + queued);
    TellsTwo(t, u, told + queued);
  }

  lemma {:induction false} RxMessageTells(r: Probe, success: bool)
    ensures Tells(r, RxEfaMessage(r, success))
  {
    hide Tells;
    assert r.events + [] == r.events;
    TellsTwo(r, RxEfaMessage(r, success), if success then [EfaPacketReceived] else []);
  }

  lemma {:induction false} TxTakeTells(t: Probe, e: Env, wait: nat)
    requires t.fifo != []
    ensures Tells(t, TxTake(t, e, wait).probe)
  {
    hide Tells, TxPacket;
    var q := t.(fifo := t.fifo[1..]);
    match t.fifo[0] {
      case StateChange(s) => SaysNothingMore(t, q.(state := s));
      case RxPacket(m) =>
        TxPacketTells(q, m, e, wait);
        SameTold(t, q, TxPacket(q, m, e, wait).probe);
    }
  }

  lemma {:induction false} RxTakeTells(r: Probe, e: Env, wait: nat)
    requires r.fifo != []
    ensures Tells(r, RxTake(r, e, wait).probe)
  {
    hide Tells, RxPacketHandled;
    var q := r.(fifo := r.fifo[1..]);
    match r.fifo[0] {
      case StateChange(s) => SaysNothingMore(r, q.(state := s));
      case RxPacket(m) =>
        RxPacketTells(q, m, e, wait);
        SameTold(r, q, RxPacketHandled(q, m, e, wait).probe);
    }
  }

  lemma {:induction false} SameTold(p: Probe, q: Probe, u: Probe)
    requires q.events == p.events && q.connected == p.connected && Tells(q, u)
    ensures Tells(p, u)
  {
  }

  lemma {:induction false} StepKnows(s: System, step: Step)
    requires KnowsTold(s.tx) && KnowsTold(s.rx) && Enabled(s, step)
    ensures KnowsTold(After(s, step).tx) && KnowsTold(After(s, step).rx)
  {
    hide Tells, ToldAfter, TxTake, TxAct, TxEfaMessage, RxTake, RxAct, RxEfaMessage;
    var u := After(s, step);
    match step {
      case TxTakes(e, wait) => TxTakeTells(s.tx, e, wait); StillKnows(s.tx, u.tx);
      case TxActs(e) => TxActTells(s.tx, e); StillKnows(s.tx, u.tx);
      case TxAcked(success, last) => TxMessageTells(s.tx, success, last); StillKnows(s.tx, u.tx);
      case TxError => ErrorTells(s.tx); StillKnows(s.tx, u.tx);
      case RxTakes(e, wait) => RxTakeTells(s.rx, e, wait); StillKnows(s.rx, u.rx);
      case RxActs(e) => RxActTells(s.rx, e); StillKnows(s.rx, u.rx);
      case RxPacketArrives(success) => RxMessageTells(s.rx, success); StillKnows(s.rx, u.rx);
      case RxError => ErrorTells(s.rx); StillKnows(s.rx, u.rx);
      case _ =>
    }
  }

  /** In every run, each side knows what it told its application last: an endpoint error therefore tells Disconnected,
      and starts a reset, exactly when the application takes itself for connected. */
  lemma {:induction false} KnowsWhatItTold(ss: seq<System>, steps: seq<Step>, i: nat)
    requires Run(ss, steps) && i < |ss|
    ensures KnowsTold(ss[i].tx) && KnowsTold(ss[i].rx)
  {
    if i > 0 {
      hide KnowsTold, Enabled, After;
      KnowsWhatItTold(ss, steps, i - 1);
      StepKnows(ss[i - 1], steps[i - 1]);
    }
  }

  // ----- Transmitter -----

  /** Packets carry consecutive numbers, and a pending command is the last one sent. */
  predicate TxNumbers(c: Control) {
    Numbered(c) && PendingIsLast(c) && c.reply.NoReply?
  }

  /** What every action of a transmitter keeps, whatever its state: the order of notifications, the numbers of its
      packets, of which it sends at most one, the account of the burst, and the readiness for what it waits for. If it
      asks for another action immediately, its rank falls. */
  ghost predicate TxKeeps(t: Probe, a: Acted) {
    var u := a.probe;
    && (forall told :: TxSafe(t, told) ==> TxSafe(u, told))
    && (TxNumbers(t.control) ==> TxNumbers(u.control))
    && (BurstOk(t) && t.direction == Send ==> BurstOk(u))
    && (TxReady(t) && t.direction == Send ==> TxReady(u))
    && Tells(t, u) && SendsAtMostOne(t.control, u.control)
    && (a.wait == 0 ==> TxRank(u.state) < TxRank(t.state))
  }

  /** At most one packet is sent, with the number after the last one. */
  predicate SendsAtMostOne(c: Control, d: Control) {
    || (d.sent == c.sent && d.num == c.num)
    || (c.sent <= d.sent && |d.sent| == |c.sent| + 1 && d.num == c.Next() && d.sent[|c.sent|].num == c.Next())
  }

  lemma {:induction false} MovesKeepNumbers(c: Control, d: Control)
    requires TxControlMoves(c, d)
    ensures TxNumbers(c) ==> TxNumbers(d)
    ensures SendsAtMostOne(c, d)
  {
    NextNumber(|c.sent|);
  }

  /** Every packet takes the number of its position, and a command that needs an acknowledgement becomes the one that is
      pending. */
  lemma {:induction false} SentNumbers(c: Control, command: Command)
    ensures Numbered(c) ==> Numbered(c.Send(command)) && Numbered(c.SendExpectingAck(command))
    ensures TxNumbers(c) ==> TxNumbers(c.SendExpectingAck(command))
    ensures Numbered(c) ==> c.Next() == (|c.sent| + 1) % 0x1_0000
  {
    NextNumber(|c.sent|);
  }

  lemma {:induction false} TxActNumbers(t: Probe, e: Env)
    ensures TxNumbers(t.control) ==> TxNumbers(TxAct(t, e).probe.control)
    ensures SendsAtMostOne(t.control, TxAct(t, e).probe.control)
  {
    hide TxAct, TxNumbers, SendsAtMostOne, TxControlMoves;
    if t.control.reply.NoReply? {
      TxActMoves(t, e);
      MovesKeepNumbers(t.control, TxAct(t, e).probe.control);
    } else {
      ReplySendsOne(t, e);
      NoReplyInNumbers(t.control);
    }
  }

  lemma {:induction false} NoReplyInNumbers(c: Control)
    ensures TxNumbers(c) ==> c.reply.NoReply?
  {
  }

  lemma {:induction false} ReplySendsOne(t: Probe, e: Env)
    ensures SendsAtMostOne(t.control, TxAct(t, e).probe.control)
  {
    hide SendCommandRetry, SendResetCommand, StartBurst, AwaitProbeAcks, SendsAtMostOne;
    OneSent(t.control, Reset);
    OneSent(t.control, Ping);
    OneSent(t.control, ProtocolVersion);
  }

  lemma {:induction false} OneSent(c: Control, command: Command)
    ensures SendsAtMostOne(c, c.SendExpectingAck(command)) && SendsAtMostOne(c, c.Send(command))
    ensures SendsAtMostOne(c, c.SendReply()) && SendsAtMostOne(c, c)
  {
  }

  lemma {:induction false} TxActKeeps(t: Probe, e: Env)
    ensures TxKeeps(t, TxAct(t, e))
  {
    hide TxAct, TxSafe, TxNumbers, BurstOk, TxReady, Tells, SendsAtMostOne, TxRank;
    TxRankFalls(t, e);
    forall told | TxSafe(t, told)
      ensures TxSafe(TxAct(t, e).probe, told)
    {
      TxActSafe(t, e, told);
    }
    TxActNumbers(t, e);
    if BurstOk(t) && t.direction == Send {
      BurstAct(t, e);
    }
    if TxReady(t) && t.direction == Send {
      ReadyAct(t, e);
    }
    TxActTells(t, e);
  }

  /** What the transmitter keeps when it handles a packet; the order of notifications if the packet may arrive. It sends
      nothing, and an acknowledgement that it does not accept changes nothing. */
  ghost predicate TxKeepsOn(t: Probe, m: Message, wait: nat, h: Handled) {
    var u := h.probe;
    && (forall told :: TxSafe(t, told) && TxCommandOk(RxPacket(m), told) ==> TxSafe(u, told))
    && (TxNumbers(t.control) ==> TxNumbers(u.control))
    && (BurstOk(t) ==> BurstOk(u))
    && (TxReady(t) ==> TxReady(u))
    && Tells(t, u) && u.control.sent == t.control.sent
    && (m.AckMessage? && !Accepts(t, m) ==> h == Handled(t, false, wait))
  }

  lemma {:induction false} TxPacketKeeps(t: Probe, m: Message, e: Env, wait: nat)
    ensures TxKeepsOn(t, m, wait, TxPacket(t, m, e, wait))
  {
    hide TxPacket, Accepts, TxSafe, TxNumbers, BurstOk, TxReady, Tells;
    IgnoredAck(t, m, e, wait);
    var q := t.(fifo := [RxPacket(m)] + t.fifo);
    var u := TxPacket(t, m, e, wait).probe;
    assert q.(fifo := q.fifo[1..]) == t;
    assert u == TxTake(q, e, wait).probe;
    forall told | TxSafe(t, told) && TxCommandOk(RxPacket(m), told)
      ensures TxSafe(u, told)
    {
      SafeWith(t, m, told);
      TxTakeSafe(q, e, wait, told);
    }
    TxPacketNumbers(t, m, e, wait);
    BurstWith(t, q);
    if BurstOk(t) {
      BurstTake(q, e, wait);
    }
    if TxReady(t) {
      ReadyWith(t, m);
      ReadyTake(q, e, wait);
    }
    TxPacketTells(t, m, e, wait);
  }

  lemma {:induction false} IgnoredAck(t: Probe, m: Message, e: Env, wait: nat)
    ensures m.AckMessage? && !Accepts(t, m) ==> TxPacket(t, m, e, wait) == Handled(t, false, wait)
  {
  }

  lemma {:induction false} SafeWith(t: Probe, m: Message, told: bool)
    requires TxSafe(t, told) && TxCommandOk(RxPacket(m), told)
    ensures TxSafe(t.(fifo := [RxPacket(m)] + t.fifo), told)
  {
  }

  lemma {:induction false} BurstWith(t: Probe, q: Probe)
    requires q.tx == t.tx && q.events == t.events
    ensures BurstOk(t) ==> BurstOk(q)
  {
  }

  lemma {:induction false} ReadyWith(t: Probe, m: Message)
    requires TxReady(t)
    ensures TxReady(t.(fifo := [RxPacket(m)] + t.fifo))
  {
  }

  lemma {:induction false} TxPacketNumbers(t: Probe, m: Message, e: Env, wait: nat)
    ensures var d := TxPacket(t, m, e, wait).probe.control;
            d.sent == t.control.sent && (TxNumbers(t.control) ==> TxNumbers(d))
  {
    hide ProbeTx.HandleReset, HandleAck, TxNumbers;
    if t.control.pending.Pending? {
      MovesKeepNumbers(t.control, t.control.Accept());
    }
  }

  // ----- Receiver -----

  /** What every action of a receiver keeps: notifications only after a burst, Connected only when told, packet numbers,
      at most one packet, and acknowledgements only of commands that it received. If it asks for another action
      immediately, its rank falls. */
  ghost predicate RxKeeps(r: Probe, a: Acted) {
    var u := a.probe;
    && (RxSafe(r) ==> RxSafe(u))
    && (HasSaid(r) ==> HasSaid(u))
    && (Numbered(r.control) ==> Numbered(u.control))
    && (forall sent :: AcksOk(sent, r.control) ==> AcksOk(sent, u.control))
    && Tells(r, u) && SaysOnlyIfTold(r, u) && SendsAtMostOne(r.control, u.control)
    && (a.wait == 0 ==> RxRank(u.state) < RxRank(r.state))
  }

  lemma {:induction false} RxMovesKeepNumbers(c: Control, d: Control)
    requires RxControlMoves(c, d)
    ensures Numbered(c) ==> Numbered(d)
    ensures SendsAtMostOne(c, d)
  {
    NextNumber(|c.sent|);
  }

  lemma {:induction false} RxActKeeps(r: Probe, e: Env)
    ensures RxKeeps(r, RxAct(r, e))
  {
    hide RxRank, RxAct, RxSafe, HasSaid, Numbered, AcksOk, Tells, SaysOnlyIfTold, SendsAtMostOne, RxControlMoves;
    var u := RxAct(r, e).probe;
    RxRankFalls(r, e);
    if RxSafe(r) {
      RxActSafe(r, e);
    }
    if HasSaid(r) {
      SaidAct(r, e);
    }
    RxActMoves(r, e);
    RxMovesKeepNumbers(r.control, u.control);
    forall sent | AcksOk(sent, r.control)
      ensures AcksOk(sent, u.control)
    {
      RxControlKeeps(sent, r.control, u.control);
    }
    RxActTells(r, e);
    RxActSays(r, e);
  }

  /** Commands of a transmitter, in the order of their numbers. */
  predicate OnlyCommands(sent: seq<Message>) {
    forall i :: 0 <= i < |sent| ==> sent[i].CommandMessage? && sent[i].serial == i
  }

  /** What the receiver keeps when it handles a packet that a transmitter sent. */
  ghost predicate RxKeepsOn(r: Probe, m: Message, u: Probe) {
    && (RxSafe(r) && FromTx(m) ==> RxSafe(u))
    && (HasSaid(r) ==> HasSaid(u))
    && (Numbered(r.control) ==> Numbered(u.control))
    && (forall sent :: AcksOk(sent, r.control) && m in sent && OnlyCommands(sent) ==> AcksOk(sent, u.control))
    && Tells(r, u) && Silent(r.events, u.events) && SendsAtMostOne(r.control, u.control)
  }

  lemma {:induction false} RxPacketKeeps(r: Probe, m: Message, e: Env, wait: nat)
    ensures RxKeepsOn(r, m, RxPacketHandled(r, m, e, wait).probe)
  {
    hide RxPacketHandled, RxSafe, HasSaid, Numbered, AcksOk, Tells, Silent, SaysOnlyIfTold, SendsAtMostOne, FromTx, OnlyCommands;
    var q := r.(fifo := [RxPacket(m)] + r.fifo);
    var u := RxPacketHandled(r, m, e, wait).probe;
    assert q.(fifo := q.fifo[1..]) == r;
    assert u == RxTake(q, e, wait).probe;
    if RxSafe(r) && FromTx(m) {
      RxSafeWith(r, m);
      RxTakeSafe(q, e, wait);
    }
    RxTakeSays(q, e, wait);
    if HasSaid(r) {
      GrowsOfSays(q, u);
      SilentHasSaid(r, u);
    }
    RxPacketNumbers(r, m, e, wait);
    RxPacketTells(r, m, e, wait);
    forall sent | AcksOk(sent, r.control) && m in sent && OnlyCommands(sent)
      ensures AcksOk(sent, u.control)
    {
      RxAcksOn(sent, r, m, e, wait);
    }
  }

  lemma {:induction false} GrowsOfSays(q: Probe, u: Probe)
    requires SaysOnlyIfTold(q, u)
    ensures q.control.sent <= u.control.sent
  {
  }

  lemma {:induction false} RxSafeWith(r: Probe, m: Message)
    requires RxSafe(r) && FromTx(m)
    ensures RxSafe(r.(fifo := [RxPacket(m)] + r.fifo))
  {
    hide RxSentOk, RxEventsOk, BurstReceived;
  }

  lemma {:induction false} NumbersAfter(c: Control, d: Control, m: Message)
    requires (d.num == c.num && d.sent == c.sent) || (d.num == c.Next() == m.num && m.serial == |c.sent| && d.sent == c.sent + [m])
    ensures SendsAtMostOne(c, d) && (Numbered(c) ==> Numbered(d))
  {
    NextNumber(|c.sent|);
  }

  lemma {:induction false} RxPacketNumbers(r: Probe, m: Message, e: Env, wait: nat)
    ensures var d := RxPacketHandled(r, m, e, wait).probe.control;
            SendsAtMostOne(r.control, d) && (Numbered(r.control) ==> Numbered(d))
  {
    hide ProbeRx.HandleReset, HandleProtocolVersion, Numbered, SendsAtMostOne;
    var c, d := r.control, RxPacketHandled(r, m, e, wait).probe.control;
    var ack := if m.CommandMessage? then AckMessage(c.Next(), |c.sent|, m.command, m.num, m.serial) else m;
    NumbersAfter(c, d, ack);
  }

  lemma {:induction false} RxAcksOn(sent: seq<Message>, r: Probe, m: Message, e: Env, wait: nat)
    requires AcksOk(sent, r.control) && m in sent && OnlyCommands(sent)
    ensures AcksOk(sent, RxPacketHandled(r, m, e, wait).probe.control)
  {
    hide ProbeRx.HandleReset, HandleProtocolVersion, AcksOk;
    Received(sent, r.control, m);
  }

  /** An acknowledgement of a command that was received can be sent. */
  lemma {:induction false} AckNumbers(c: Control, command: Command, num: U16, serial: nat)
    ensures Numbered(c) ==> Numbered(c.SendAck(command, num, serial))
    ensures forall sent :: AcksOk(sent, c) && Acknowledges(sent, c.processed, command, num, serial) ==>
                             AcksOk(sent, c.SendAck(command, num, serial))
  {
    NextNumber(|c.sent|);
  }

  // ----- Messages of the data path -----

  /** An enqueued probe packet is one more outstanding packet, and is counted in flight. */
  lemma {:induction false} EnqueueAdds(t: Probe)
    ensures Outstanding(EnqueueProbePacket(t)) == Outstanding(t) + 1
    ensures EnqueueProbePacket(t).tx.inFlight.value == t.tx.inFlight.value + 1
  {
    hide Queued;
    QueuedSnoc(t.events, EfaPacketQueued(t.tx.enqueued, t.tx.enqueued + 1 == EFA_PROBE_PACKET_COUNT));
  }

  /** A start leaves nothing outstanding and nothing received. */
  lemma {:induction false} StartCounts(p: Probe)
    ensures var q := p.EfaConnectionStart();
            && Queued(q.events) == 0 && PacketsSinceStart(q.events) == 0
            && (p.direction == Send && !p.tx.inFlight.underflow ==> BurstOk(q))
            && (p.direction == Receive ==> q.rx.received == 0)
  {
    hide Queued, PacketsSinceStart;
    QueuedSnoc(p.events, EfaStarted);
    PacketsSnoc(p.events, EfaStarted);
  }

  /** The move to Connected is queued only when a burst has been received since the start. */
  lemma {:induction false} EnabledByBurst(r: Probe, success: bool)
    requires RxSafe(r) && r.probing
    ensures var u := RxEfaMessage(r, success);
            && RxSafe(u) && (u.fifo != r.fifo ==> !u.probing && PacketsSinceStart(u.events) >= EFA_PROBE_PACKET_COUNT)
  {
    hide RxSentOk, RxQueueOk, PacketsSinceStart, TellsAfterBurst, BurstReceived;
    RxEfaMessageSafe(r, success);
    PacketsSnoc(r.events, EfaPacketReceived);
  }

  /** What the acknowledgement of the outstanding packet keeps: the account of the burst. */
  predicate AccountKept(t: Probe, last: bool, u: Probe) {
    BurstOk(t) && Outstanding(t) > 0 && last == LatestIsLast(t.events) ==> BurstOk(u)
  }

  lemma {:induction false} AckedKeeps(t: Probe, success: bool, last: bool)
    ensures AccountKept(t, last, TxEfaMessage(t, success, last)) && Tells(t, TxEfaMessage(t, success, last))
  {
    hide BurstOk, Tells, TxEfaMessage, Queued, LatestIsLast;
    if BurstOk(t) && Outstanding(t) > 0 && last == LatestIsLast(t.events) {
      BurstAcked(t, success);
    }
    TxMessageTells(t, success, last);
  }

  /** An endpoint error is told, and starts a reset, exactly if the application takes itself for connected. */
  lemma {:induction false} ErrorIsTold(p: Probe)
    requires KnowsTold(p)
    ensures var q := p.EndpointError();
            if ToldAfter(false, p.events) then
              q.events == p.events + [TellDisconnected] && q.fifo == p.fifo + [StateChange(EfaReset)]
            else q == p
    ensures KnowsTold(p.EndpointError()) && !ToldAfter(false, p.EndpointError().events)
  {
    hide ToldAfter;
    ErrorTells(p);
    StillKnows(p, p.EndpointError());
  }
}

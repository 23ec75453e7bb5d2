/** The order of the Connected notifications after a reset, or after any other moment of a run: exactly when it can be
    broken, and by what. */
module ProbeOrder {
  import opened Probe
  import opened ProbeTx
  import opened ProbeRx
  import opened ProbeSystem

  // ----- Continuations of a run -----

  /** The transmitter, waiting for a Connected packet, reads one of these old ones. */
  predicate ReadsOld(s: System, step: Step, stale: seq<Message>) {
    && step.TxTakes? && s.tx.state == EfaProbe && s.tx.fifo != [] && s.tx.fifo[0].RxPacket?
    && IsConnected(s.tx.fifo[0].message) && s.tx.fifo[0].message in stale
  }

  predicate Path(ss: seq<System>, steps: seq<Step>, stale: seq<Message>) {
    && |ss| == |steps| + 1
    && forall i :: 0 <= i < |steps| ==>
                     Enabled(ss[i], steps[i]) && ss[i + 1] == After(ss[i], steps[i]) && !ReadsOld(ss[i], steps[i], stale)
  }

  /** Some steps lead from one state to the other, none of which acts on a stale Connected packet. */
  ghost predicate StepsLead(s: System, stale: seq<Message>, t: System) {
    exists ss: seq<System>, steps: seq<Step> :: Path(ss, steps, stale) && ss[0] == s && ss[|steps|] == t
  }

  lemma {:induction false} PathReaches(ss: seq<System>, steps: seq<Step>, stale: seq<Message>, i: nat)
    requires Path(ss, steps, stale) && i < |ss| && Reachable(ss[0])
    ensures Reachable(ss[i])
  {
    hide Reachable, Enabled, After;
    if i > 0 {
      PathReaches(ss, steps, stale, i - 1);
      StepReaches(ss[i - 1], steps[i - 1]);
    }
  }

  /** Told Connected, in a state that comes after the other. */
  predicate ToldSince(p: Probe, before: Probe) {
    |before.events| <= |p.events| && TellConnected in p.events[|before.events|..]
  }

  /** The transmitter's application was told Connected since, and the receiver's application was not. */
  predicate OutOfOrder(s: System, t: System) {
    ToldSince(t.tx, s.tx) && !ToldSince(t.rx, s.rx)
  }

  // ----- What carries a connection over a reset -----

  predicate LateCommand(c: ControlCommand) {
    c.StateChange? && Late(c.state)
  }

  /** The transmitter is on its way to Connected: by its state, by a queued state change, or by a Ping that has not
      been acknowledged. */
  predicate Underway(t: Probe) {
    || Late(t.state)
    || (exists i :: 0 <= i < |t.fifo| && LateCommand(t.fifo[i]))
    || (t.control.pending.Pending? && t.control.pending.command == Ping)
  }

  /** What was added to a record holds no TellConnected. */
  predicate Silent(before: seq<Event>, after: seq<Event>) {
    before <= after && forall i :: |before| <= i < |after| ==> after[i] != TellConnected
  }

  predicate QuietCommand(c: ControlCommand, stale: seq<Message>) {
    match c
    case StateChange(s) => !Late(s)
    case RxPacket(m) => IsConnected(m) ==> m in stale
  }

  predicate QuietQueue(fifo: seq<ControlCommand>, stale: seq<Message>) {
    forall i :: 0 <= i < |fifo| ==> QuietCommand(fifo[i], stale)
  }

  predicate NoPing(c: Control) {
    c.pending.Pending? ==> c.pending.command != Ping
  }

  /** Nothing but stale packets leads the transmitter to Connected. */
  predicate Quiet(t: Probe, stale: seq<Message>) {
    !Late(t.state) && NoPing(t.control) && QuietQueue(t.fifo, stale)
  }

  predicate QuietMove(t: Probe, u: Probe, stale: seq<Message>) {
    Quiet(u, stale) && Silent(t.events, u.events)
  }

  lemma {:induction false} SilentTrans(a: seq<Event>, b: seq<Event>, c: seq<Event>)
    requires Silent(a, b) && Silent(b, c)
    ensures Silent(a, c)
  {
    assert c[..|b|] == b;
  }

  lemma {:induction false} QuietSnoc(fifo: seq<ControlCommand>, c: ControlCommand, stale: seq<Message>)
    requires QuietQueue(fifo, stale) && QuietCommand(c, stale)
    ensures QuietQueue(fifo + [c], stale)
  {
  }

  lemma {:induction false} QuietTail(fifo: seq<ControlCommand>, stale: seq<Message>)
    requires QuietQueue(fifo, stale) && fifo != []
    ensures QuietCommand(fifo[0], stale) && QuietQueue(fifo[1..], stale)
  {
  }

  // ----- The transmitter stays quiet -----

  lemma {:induction false} QuietReset(t: Probe, next: ProbeState, wait: nat, stale: seq<Message>)
    requires Quiet(t, stale) && !Late(next)
    ensures QuietMove(t, SendResetCommand(t, next, wait).probe, stale)
  {
    hide QuietQueue;
  }

  lemma {:induction false} QuietBurst(t: Probe, e: Env, stale: seq<Message>)
    requires Quiet(t, stale)
    ensures QuietMove(t, StartBurst(t, e).probe, stale)
  {
    hide QuietQueue;
  }

  lemma {:induction false} QuietRetry(t: Probe, stale: seq<Message>)
    requires Quiet(t, stale)
    ensures QuietMove(t, SendCommandRetry(t, ProtocolVersion).probe, stale)
  {
    hide QuietQueue;
  }

  lemma {:induction false} QuietAct(t: Probe, e: Env, stale: seq<Message>)
    requires Quiet(t, stale)
    ensures QuietMove(t, TxAct(t, e).probe, stale)
  {
    hide QuietQueue, SendResetCommand, SendCommandRetry, StartBurst, AwaitProbeAcks;
    match t.state
    case Resetting => QuietReset(t, Resetting, SEND_RESET_COMMAND_FREQUENCY_MSEC, stale);
    case WaitForStart => QuietReset(t, WaitForStart, SEND_RESET_COMMAND_FREQUENCY_MSEC, stale);
    case EfaReset => QuietReset(t.QueueReset(), Resetting, ENDPOINT_MANAGER_COMPLETION_TIMEOUT_MSEC, stale);
    case Idle => QuietReset(t.Tell(false), SendReset, SEND_RESET_COMMAND_FREQUENCY_MSEC, stale);
    case SendReset => QuietReset(t.Tell(false), SendReset, SEND_RESET_COMMAND_FREQUENCY_MSEC, stale);
    case SendProtocolVersion => QuietRetry(t, stale);
    case EfaStart => QuietBurst(t, e, stale);
    case _ =>
  }

  lemma {:induction false} QuietHandlers(t: Probe, e: Env, wait: nat, stale: seq<Message>)
    requires Quiet(t, stale)
    ensures QuietMove(t, ProbeTx.HandleReset(t, e, wait).probe, stale)
    ensures t.control.pending.Pending? ==> QuietMove(t, HandleAck(t, e, wait).probe, stale)
  {
    hide QuietQueue;
  }

  lemma {:induction false} QuietTake(t: Probe, e: Env, wait: nat, stale: seq<Message>)
    requires Quiet(t, stale) && t.fifo != []
    requires t.state == EfaProbe && t.fifo[0].RxPacket? && IsConnected(t.fifo[0].message) ==> t.fifo[0].message !in stale
    ensures QuietMove(t, TxTake(t, e, wait).probe, stale)
  {
    hide QuietQueue, HandleAck, ProbeTx.HandleReset;
    QuietTail(t.fifo, stale);
    QuietHandlers(t.(fifo := t.fifo[1..]), e, wait, stale);
  }

  lemma {:induction false} QuietEfaMessage(t: Probe, success: bool, last: bool, stale: seq<Message>)
    requires Quiet(t, stale)
    ensures QuietMove(t, TxEfaMessage(t, success, last), stale)
  {
    hide QuietQueue;
    QuietSnoc(t.fifo, StateChange(EfaReset), stale);
  }

  // ----- The receiver says Connected only when it tells so -----

  /** The packets added to those sent include a Connected only if TellConnected was added to the events. */
  predicate SaysOnlyIfTold(r: Probe, u: Probe) {
    && r.control.sent <= u.control.sent && r.events <= u.events
    && (Silent(r.events, u.events) ==> forall i :: |r.control.sent| <= i < |u.control.sent| ==> !IsConnected(u.control.sent[i]))
  }

  lemma {:induction false} SaysAtMost(r: Probe, u: Probe)
    requires r.events <= u.events
    requires u.control.sent == r.control.sent || exists m :: u.control.sent == r.control.sent + [m] && !IsConnected(m)
    ensures SaysOnlyIfTold(r, u)
  {
  }

  lemma {:induction false} SaysReply(r: Probe)
    ensures var u := r.control.SendReply();
            u.sent == r.control.sent || exists m :: u.sent == r.control.sent + [m] && !IsConnected(m)
  {
    if r.control.reply.Reply? {
      var m := AckMessage(r.control.Next(), |r.control.sent|, r.control.reply.command, r.control.reply.num, r.control.reply.serial);
      assert r.control.SendReply().sent == r.control.sent + [m];
    }
  }

  lemma {:induction false} SaysReset(r: Probe)
    ensures exists m :: r.control.Send(Reset).sent == r.control.sent + [m] && !IsConnected(m)
    ensures exists m :: r.control.SendExpectingAck(Reset).sent == r.control.sent + [m] && !IsConnected(m)
  {
    var m := CommandMessage(Reset, r.control.Next(), |r.control.sent|);
    assert r.control.Send(Reset).sent == r.control.sent + [m] == r.control.SendExpectingAck(Reset).sent;
  }

  lemma {:induction false} ResetRemoteSays(r: Probe, e: Env)
    ensures SaysOnlyIfTold(r, ResetRemote(r, e).probe)
  {
    hide SaysOnlyIfTold, IsConnected;
    SaysReset(r);
    SaysAtMost(r, ResetRemote(r, e).probe);
  }

  lemma {:induction false} StartAndReplySays(r: Probe)
    ensures SaysOnlyIfTold(r, StartAndReply(r).probe)
  {
    hide SaysOnlyIfTold, IsConnected;
    SaysReply(r.EfaConnectionStart());
    SaysAtMost(r, StartAndReply(r).probe);
  }

  lemma {:induction false} ResetIsDoneSays(r: Probe)
    ensures SaysOnlyIfTold(r, ResetIsDone(r).probe)
  {
    hide SaysOnlyIfTold, IsConnected;
    SaysReply(r);
    SaysAtMost(r, ResetIsDone(r).probe);
  }

  lemma {:induction false} BecomeConnectedSays(r: Probe, e: Env)
    ensures SaysOnlyIfTold(r, BecomeConnected(r, e).probe)
  {
    var u := BecomeConnected(r, e).probe;
    assert u.events[|r.events|] == TellConnected;
  }

  lemma {:induction false} PingMissedSays(r: Probe, e: Env)
    ensures SaysOnlyIfTold(r, PingMissed(r, e).probe)
  {
    hide SaysOnlyIfTold, IsConnected;
    SaysAtMost(r, PingMissed(r, e).probe);
  }

  lemma {:induction false} RxActSays(r: Probe, e: Env)
    ensures SaysOnlyIfTold(r, RxAct(r, e).probe)
  {
    hide ResetRemote, StartAndReply, ResetIsDone, BecomeConnected, PingMissed, SaysOnlyIfTold, IsConnected;
    match r.state
    case EfaStart => StartAndReplySays(r);
    case WaitForStart => StartAndReplySays(r);
    case Idle => ResetRemoteSays(r, e);
    case SendReset => ResetRemoteSays(r, e);
    case ResetDone => ResetIsDoneSays(r);
    case EfaConnected => BecomeConnectedSays(r, e);
    case EfaConnectedPing => PingMissedSays(r, e);
    case Resetting =>
      SaysReset(r);
      SaysAtMost(r, RxAct(r, e).probe);
    case _ => SaysAtMost(r, RxAct(r, e).probe);
  }

  lemma {:induction false} RxHandlersSay(r: Probe, m: Message, e: Env, wait: nat)
    requires m.CommandMessage?
    ensures var u := ProbeRx.HandleReset(r, m, e).probe;
            u.control.sent == r.control.sent && u.events == r.events
    ensures var u := HandleProtocolVersion(r, m, e, wait).probe;
            u.control.sent == r.control.sent && (u.events == r.events || u.events == r.events + [QueueEndpointStart])
  {
  }

  lemma {:induction false} RxTakeSays(r: Probe, e: Env, wait: nat)
    requires r.fifo != []
    ensures SaysOnlyIfTold(r, RxTake(r, e, wait).probe) && Silent(r.events, RxTake(r, e, wait).probe.events)
  {
    hide SaysOnlyIfTold, RxPacketHandled;
    var u := RxTake(r, e, wait).probe;
    if r.fifo[0].RxPacket? {
      RxPacketSays(r.(fifo := r.fifo[1..]), r.fifo[0].message, e, wait);
    }
    SaysAtMost(r, u);
  }

  lemma {:induction false} RxPacketSays(r: Probe, m: Message, e: Env, wait: nat)
    ensures var u := RxPacketHandled(r, m, e, wait).probe;
            && (u.control.sent == r.control.sent || exists a :: u.control.sent == r.control.sent + [a] && !IsConnected(a))
            && r.events <= u.events && Silent(r.events, u.events)
  {
    hide ProbeRx.HandleReset, HandleProtocolVersion;
    if m.CommandMessage? {
      RxHandlersSay(r.(control := r.control.Process(m)), m, e, wait);
      if m.command == Ping {
        var ack := AckMessage(r.control.Next(), |r.control.sent|, m.command, m.num, m.serial);
        assert RxPacketHandled(r, m, e, wait).probe.control.sent == r.control.sent + [ack];
      }
    }
  }

  lemma {:induction false} RxOtherSays(r: Probe, success: bool)
    ensures SaysOnlyIfTold(r, RxEfaMessage(r, success)) && SaysOnlyIfTold(r, r.EndpointError())
    ensures Silent(r.events, RxEfaMessage(r, success).events) && Silent(r.events, r.EndpointError().events)
  {
  }

  // ----- A quiet transmitter waits for a new Connected packet -----

  /** Between two moments the records grow; and as long as the receiver's application has not been told anew, it has
      sent no new Connected packet, and the transmitter is quiet and its application has not been told anew. */
  predicate InOrder(s: System, t: System) {
    && s.tx.events <= t.tx.events && s.rx.events <= t.rx.events && s.rx.control.sent <= t.rx.control.sent
    && (ToldSince(t.rx, s.rx) ||
        (&& Quiet(t.tx, s.rx.control.sent) && Silent(s.tx.events, t.tx.events) && Silent(s.rx.events, t.rx.events)
         && forall i :: |s.rx.control.sent| <= i < |t.rx.control.sent| ==> !IsConnected(t.rx.control.sent[i])))
  }

  lemma {:induction false} SilentIff(before: seq<Event>, after: seq<Event>)
    requires before <= after
    ensures Silent(before, after) <==> TellConnected !in after[|before|..]
  {
    if TellConnected !in after[|before|..] {
      assert forall i :: |before| <= i < |after| ==> after[i] == after[|before|..][i - |before|];
    }
  }

  lemma {:induction false} ToldIff(p: Probe, before: Probe)
    requires before.events <= p.events
    ensures ToldSince(p, before) <==> !Silent(before.events, p.events)
  {
    SilentIff(before.events, p.events);
  }

  lemma {:induction false} TxStepInOrder(s: System, t: System, step: Step)
    requires InOrder(s, t) && Enabled(t, step) && !ReadsOld(t, step, s.rx.control.sent) && Linked(t.tx.fifo, t.rx.control.sent)
    requires !ToldSince(t.rx, s.rx)
    requires step.TxTakes? || step.TxActs? || step.TxAcked? || step.TxPosted? || step.TxError? || step.TxDelivered?
    ensures InOrder(s, After(t, step))
  {
    hide QuietQueue, TxTake, TxAct, TxEfaMessage, Linked, ToldSince;
    var stale, p := s.rx.control.sent, t.tx;
    match step {
      case TxTakes(e, wait) => QuietTake(p, e, wait, stale);
      case TxActs(e) => QuietAct(p, e, stale);
      case TxAcked(success, last) => QuietEfaMessage(p, success, last, stale);
      case TxPosted(x) => QuietSnoc(p.fifo, StateChange(x), stale);
      case TxError => QuietSnoc(p.fifo, StateChange(EfaReset), stale);
      case TxDelivered(m) =>
        var i :| 0 <= i < |t.rx.control.sent| && t.rx.control.sent[i] == m;
        assert i < |stale| ==> stale[i] == m;
        QuietSnoc(p.fifo, RxPacket(m), stale);
    }
    SilentTrans(s.tx.events, p.events, After(t, step).tx.events);
  }

  lemma {:induction false} RxStepInOrder(s: System, t: System, step: Step)
    requires InOrder(s, t) && Enabled(t, step) && !ToldSince(t.rx, s.rx)
    requires step.RxTakes? || step.RxActs? || step.RxPacketArrives? || step.RxPosted? || step.RxError? || step.RxDelivered?
    ensures InOrder(s, After(t, step))
  {
    hide Quiet, RxTake, RxAct, RxEfaMessage, ToldSince;
    var r, u := t.rx, After(t, step).rx;
    match step {
      case RxTakes(e, wait) => RxTakeSays(r, e, wait);
      case RxActs(e) => RxActSays(r, e);
      case RxPacketArrives(success) => RxOtherSays(r, success);
      case RxError => RxOtherSays(r, true);
      case _ =>
    }
    assert SaysOnlyIfTold(r, u);
    SaysNothing(s.rx, r, u);
    ToldIff(u, s.rx);
  }

  lemma {:induction false} SaysNothing(s: Probe, r: Probe, u: Probe)
    requires SaysOnlyIfTold(r, u) && s.events <= r.events && s.control.sent <= r.control.sent
    requires Silent(s.events, r.events)
    requires forall i :: |s.control.sent| <= i < |r.control.sent| ==> !IsConnected(r.control.sent[i])
    ensures s.events <= u.events && s.control.sent <= u.control.sent
    ensures Silent(s.events, u.events) ==>
              forall i :: |s.control.sent| <= i < |u.control.sent| ==> !IsConnected(u.control.sent[i])
  {
    Prefixes(s.events, r.events, u.events);
    Prefixes(s.control.sent, r.control.sent, u.control.sent);
    if Silent(s.events, u.events) {
      assert Silent(r.events, u.events);
      forall i | |s.control.sent| <= i < |u.control.sent|
        ensures !IsConnected(u.control.sent[i])
      {
        assert i < |r.control.sent| ==> u.control.sent[i] == r.control.sent[i];
      }
    }
  }

  lemma {:induction false} Prefixes<T>(a: seq<T>, b: seq<T>, c: seq<T>)
    requires a <= b <= c
    ensures a <= c
  {
  }

  lemma {:induction false} StepGrows(t: System, step: Step)
    requires ProbeSystem.Inv(t) && Enabled(t, step)
    ensures t.tx.events <= After(t, step).tx.events
    ensures SaysOnlyIfTold(t.rx, After(t, step).rx)
  {
    hide TxSafe, RxSafe, TxTake, TxAct, TxEfaMessage, RxTake, RxAct, RxEfaMessage, Linked;
    match step {
      case TxTakes(e, wait) => TxTakeSafe(t.tx, e, wait, Told(t.rx));
      case TxActs(e) => TxActSafe(t.tx, e, Told(t.rx));
      case TxAcked(success, last) => TxEfaMessageSafe(t.tx, success, last, Told(t.rx));
      case RxTakes(e, wait) => RxTakeSays(t.rx, e, wait);
      case RxActs(e) => RxActSays(t.rx, e);
      case RxPacketArrives(success) => RxOtherSays(t.rx, success);
      case RxError => RxOtherSays(t.rx, true);
      case _ =>
    }
  }

  lemma {:induction false} ToldRemainsSince(s: Probe, p: Probe, u: Probe)
    requires ToldSince(p, s) && s.events <= p.events <= u.events
    ensures ToldSince(u, s)
  {
    Prefixes(s.events, p.events, u.events);
    ToldIff(p, s);
    ToldIff(u, s);
    assert Silent(s.events, u.events) ==> Silent(s.events, p.events);
  }

  lemma {:induction false} StepInOrder(s: System, t: System, step: Step)
    requires InOrder(s, t) && ProbeSystem.Inv(t) && Enabled(t, step) && !ReadsOld(t, step, s.rx.control.sent)
    ensures InOrder(s, After(t, step))
  {
    hide TxSafe, RxSafe, Quiet, Silent, TxTake, TxAct, TxEfaMessage, RxTake, RxAct, RxEfaMessage, Linked, ToldSince, ReadsOld;
    var u := After(t, step);
    if ToldSince(t.rx, s.rx) {
      StepGrows(t, step);
      ToldRemainsSince(s.rx, t.rx, u.rx);
      Prefixes(s.tx.events, t.tx.events, u.tx.events);
      Prefixes(s.rx.control.sent, t.rx.control.sent, u.rx.control.sent);
    } else if step.TxTakes? || step.TxActs? || step.TxAcked? || step.TxPosted? || step.TxError? || step.TxDelivered? {
      TxStepInOrder(s, t, step);
    } else {
      RxStepInOrder(s, t, step);
    }
  }

  lemma {:induction false} PathInOrder(s: System, ss: seq<System>, steps: seq<Step>, i: nat)
    requires Path(ss, steps, s.rx.control.sent) && ss[0] == s && i < |ss| && Reachable(s) && !Underway(s.tx)
    ensures InOrder(s, ss[i])
  {
    if i == 0 {
      InvReached(s);
      StartsInOrder(s);
    } else {
      hide InOrder, Enabled, After, ReadsOld, Reachable, Underway, ProbeSystem.Inv;
      PathInOrder(s, ss, steps, i - 1);
      PathReaches(ss, steps, s.rx.control.sent, i - 1);
      InvReached(ss[i - 1]);
      StepInOrder(s, ss[i - 1], steps[i - 1]);
    }
  }

  lemma {:induction false} StartsInOrder(s: System)
    requires ProbeSystem.Inv(s) && !Underway(s.tx)
    ensures InOrder(s, s)
  {
    hide TxSafe, RxSafe;
    forall i | 0 <= i < |s.tx.fifo|
      ensures QuietCommand(s.tx.fifo[i], s.rx.control.sent)
    {
      assert !LateCommand(s.tx.fifo[i]);
    }
  }

  /** Take any moment of a run, such as a reset, at which the transmitter is not on its way to Connected. As long as
      it acts on no Connected packet that is older than that moment, its application is told Connected anew only
      after the receiver's application was told anew. */
  lemma {:induction false} ConnectedAnewInOrder(s: System, t: System)
    requires Reachable(s) && !Underway(s.tx) && StepsLead(s, s.rx.control.sent, t)
    ensures !OutOfOrder(s, t)
  {
    hide Reachable, Underway, Enabled, After, ReadsOld, Quiet;
    var ss, steps :| Path(ss, steps, s.rx.control.sent) && ss[0] == s && ss[|steps|] == t;
    PathInOrder(s, ss, steps, |steps|);
    ToldIff(t.tx, s.tx);
  }
}

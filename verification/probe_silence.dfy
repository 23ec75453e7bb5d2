/** A peer that falls silent: the transmitter gives up after a bounded number of timeouts and then asks for a reset for ever,
    the receiver is destroyed or keeps asking. */
module ProbeSilence {
  import opened Probe
  import opened ProbeTx
  import opened ProbeRx
  import opened ProbeThread
  import opened ProbeTiming

  /** Asks the peer for a reset, or is about to. */
  predicate Asks(s: ProbeState) {
    s == Idle || s == SendReset || s == Resetting || s == WaitForStart
  }

  /** The sent packets are those before and one Reset. */
  predicate OneReset(before: seq<Message>, after: seq<Message>) {
    |after| == |before| + 1 && after[..|before|] == before
    && after[|before|].CommandMessage? && after[|before|].command == Reset
  }

  // ----- The transmitter -----

  function CommandPatience(p: Probe): nat {
    if p.tx.retries < TX_COMMAND_MAX_RETRIES then TX_COMMAND_MAX_RETRIES - p.tx.retries + 1 else 1
  }

  /** After how many timeouts at most the transmitter asks for a reset. */
  function Patience(p: Probe): nat {
    match p.state
    case EfaReset => 1
    case EfaProbe => 1
    case ResetDone => 1
    case EfaStart => 2
    case SendProtocolVersion => CommandPatience(p)
    case EfaConnectedPing => CommandPatience(p)
    case EfaConnected => TX_COMMAND_MAX_RETRIES + 1
    case EfaTxProbeAcks =>
      if p.tx.acked >= EFA_PROBE_PACKET_COUNT then TX_COMMAND_MAX_RETRIES + 2
      else if p.tx.ackWaits < EFA_TX_PROBE_ACK_MAX_RETRIES then EFA_TX_PROBE_ACK_MAX_RETRIES - p.tx.ackWaits
      else 1
    case _ => 0
  }

  /** A transmitter that asks sends one more Reset, and waits for its acknowledgement. Before the peer was reached for the first
      time, or after it refused, the application is told that there is no connection. */
  predicate AsksOnce(p: Probe, q: Probe) {
    && OneReset(p.control.sent, q.control.sent)
    && q.control.pending.Pending? && q.control.pending.command == Reset && q.control.pending.serial == |p.control.sent|
    && q.state == (if p.state == Idle then SendReset else p.state)
    && q.events == p.events + if p.state == Idle || p.state == SendReset then [TellDisconnected] else []
  }

  /** What happens when the time of a transmitter is up. */
  predicate TimedOut(p: Probe, a: Acted) {
    && (Asks(p.state) ==> AsksOnce(p, a.probe) && a.wait == SEND_RESET_COMMAND_FREQUENCY_MSEC)
    && (p.state == ResetDone ==> a.probe == p.(state := WaitForStart))
    && (!Asks(p.state) && p.state != ResetDone && Asks(a.probe.state) ==>
          Resets(p, a.probe) && a.wait == ENDPOINT_MANAGER_COMPLETION_TIMEOUT_MSEC)
    && Patience(a.probe) <= Patience(p) && (Patience(p) > 0 ==> Patience(a.probe) < Patience(p))
  }

  predicate Sender(p: Probe) {
    p.direction == Send && p.state != Destroy && p.control.reply.NoReply?
  }

  lemma {:induction false} AskingTimesOut(p: Probe, e: Env)
    requires Sender(p) && Asks(p.state)
    ensures TimedOut(p, ActUntilWait(p, e)) && Sender(ActUntilWait(p, e).probe)
  {
    hide ActUntilWait;
    UnfoldActs(p, e);
    assert Act(p, e) == TxAct(p, e);
  }

  lemma {:induction false} ResetTimesOut(p: Probe, e: Env)
    requires Sender(p) && (p.state == EfaReset || p.state == EfaProbe || p.state == ResetDone)
    ensures TimedOut(p, ActUntilWait(p, e)) && Sender(ActUntilWait(p, e).probe)
  {
    hide ActUntilWait;
    UnfoldActs(p, e);
    assert Act(p, e) == TxAct(p, e);
    if p.state == EfaProbe {
      UnfoldActs(TxAct(p, e).probe, e);
    }
  }

  lemma {:induction false} StartTimesOut(p: Probe, e: Env)
    requires Sender(p) && p.state == EfaStart
    ensures TimedOut(p, ActUntilWait(p, e)) && Sender(ActUntilWait(p, e).probe)
  {
    hide ActUntilWait;
    UnfoldActs(p, e);
    assert Act(p, e) == StartBurst(p, e);
  }

  lemma {:induction false} CommandTimesOut(p: Probe, e: Env)
    requires Sender(p) && (p.state == SendProtocolVersion || p.state == EfaConnectedPing)
    ensures TimedOut(p, ActUntilWait(p, e)) && Sender(ActUntilWait(p, e).probe)
  {
    hide ActUntilWait;
    UnfoldActs(p, e);
    assert Act(p, e) == SendCommandRetry(p, CommandOf(p.state));
    UnfoldActs(Act(p, e).probe, e);
  }

  lemma {:induction false} ConnectedTimesOut(p: Probe, e: Env)
    requires Sender(p) && p.state == EfaConnected
    ensures TimedOut(p, ActUntilWait(p, e)) && Sender(ActUntilWait(p, e).probe)
  {
    hide ActUntilWait;
    UnfoldActs(p, e);
    var q := Act(p, e).probe;
    assert q == p.Tell(true).(state := EfaConnectedPing, tx := p.tx.(retries := 0));
    UnfoldActs(q, e);
    assert Act(q, e) == SendCommandRetry(q, Ping);
  }

  lemma {:induction false} AcksTimeOut(p: Probe, e: Env)
    requires Sender(p) && p.state == EfaTxProbeAcks
    ensures TimedOut(p, ActUntilWait(p, e)) && Sender(ActUntilWait(p, e).probe)
  {
    hide ActUntilWait;
    UnfoldActs(p, e);
    assert Act(p, e) == AwaitProbeAcks(p, e);
    UnfoldActs(Act(p, e).probe, e);
  }

  lemma {:induction false} TimesOut(p: Probe, e: Env)
    requires Sender(p)
    ensures TimedOut(p, ActUntilWait(p, e)) && Sender(ActUntilWait(p, e).probe)
  {
    hide ActUntilWait, TimedOut;
    match p.state {
      case Idle => AskingTimesOut(p, e);
      case SendReset => AskingTimesOut(p, e);
      case Resetting => AskingTimesOut(p, e);
      case WaitForStart => AskingTimesOut(p, e);
      case EfaReset => ResetTimesOut(p, e);
      case EfaProbe => ResetTimesOut(p, e);
      case ResetDone => ResetTimesOut(p, e);
      case EfaStart => StartTimesOut(p, e);
      case SendProtocolVersion => CommandTimesOut(p, e);
      case EfaConnectedPing => CommandTimesOut(p, e);
      case EfaConnected => ConnectedTimesOut(p, e);
      case EfaTxProbeAcks => AcksTimeOut(p, e);
    }
  }

  /** The time of the thread is up in this round. */
  predicate Up(th: Thread, tick: Tick) {
    tick.checkUs >= Deadline(th)
  }

  function Timeouts(ths: seq<Thread>, ticks: seq<Tick>, i: nat): nat
    requires i <= |ticks| && |ths| == |ticks| + 1
  {
    if i == 0 then 0 else Timeouts(ths, ticks, i - 1) + if Up(ths[i - 1], ticks[i - 1]) then 1 else 0
  }

  /** The probe with what has arrived, without what was read. */
  function QueueAfter(th: Thread, tick: Tick): Probe
    requires CanTick(th, tick)
  {
    if tick.read then Queue(th, tick).(fifo := Queue(th, tick).fifo[1..]) else Queue(th, tick)
  }

  lemma {:induction false} SilentRound(th: Thread, tick: Tick)
    requires CanTick(th, tick) && Ignored(th, tick) && Sender(th.probe)
    ensures var q, u := QueueAfter(th, tick), Round(th, tick);
            && Sender(u.probe)
            && if Up(th, tick) then TimedOut(q, Acted(u.probe, u.waitMs)) && u.startUs == tick.doneUs
               else u.probe == q && Deadline(u) >= Deadline(th)
  {
    hide ActUntilWait, Round, TimedOut;
    WaitGoesOn(th, tick);
    TimesOut(QueueAfter(th, tick), tick.e);
  }

  lemma {:induction false} QueueIsAll(th: Thread, tick: Tick)
    requires CanTick(th, tick)
    ensures var p, q := th.probe, QueueAfter(th, tick);
            q.state == p.state && q.control == p.control && q.events == p.events && Patience(q) == Patience(p)
  {
  }

  lemma {:induction false} AsksIff(p: Probe)
    requires Sender(p)
    ensures Asks(p.state) <==> Patience(p) == 0
  {
  }

  lemma {:induction false} PatienceFalls(ths: seq<Thread>, ticks: seq<Tick>, i: nat)
    requires Rounds(ths, ticks) && i < |ths| && Sender(ths[0].probe)
    ensures Sender(ths[i].probe)
    ensures Patience(ths[i].probe) == 0 || Patience(ths[i].probe) + Timeouts(ths, ticks, i) <= Patience(ths[0].probe)
  {
    hide Round, QueueAfter, Patience, Sender;
    if i > 0 {
      PatienceFalls(ths, ticks, i - 1);
      SilentRound(ths[i - 1], ticks[i - 1]);
      QueueIsAll(ths[i - 1], ticks[i - 1]);
    }
  }

  /** When the peer is silent, the transmitter asks for a reset after as many timeouts as it has patience, whatever its state. */
  lemma {:induction false} GivesUpInTime(ths: seq<Thread>, ticks: seq<Tick>, i: nat)
    requires Rounds(ths, ticks) && i < |ths| && Sender(ths[0].probe)
    requires Timeouts(ths, ticks, i) >= Patience(ths[0].probe)
    ensures Asks(ths[i].probe.state)
  {
    hide Round, Patience, Sender;
    PatienceFalls(ths, ticks, i);
    AsksIff(ths[i].probe);
  }

  /** In the round in which it begins to ask, unless its endpoint has just been reset, it resets its own endpoint, tells its
      application that there is no connection, and sends the first Reset. */
  lemma {:induction false} GivesUpByReset(th: Thread, tick: Tick)
    requires CanTick(th, tick) && Ignored(th, tick) && Sender(th.probe)
    requires !Asks(th.probe.state) && th.probe.state != ResetDone && Asks(Round(th, tick).probe.state)
    ensures Up(th, tick) && Resets(QueueAfter(th, tick), Round(th, tick).probe)
    ensures Deadline(Round(th, tick)) == tick.doneUs + 1000 * ENDPOINT_MANAGER_COMPLETION_TIMEOUT_MSEC
  {
    hide Round, QueueAfter, Patience, Sender, Resets, AsksOnce;
    SilentRound(th, tick);
    QueueIsAll(th, tick);
  }

  /** Nothing but Resets has been sent since, and nothing but that there is no connection been told. */
  predicate AskedSince(p: Probe, q: Probe, n: nat) {
    && |q.control.sent| == |p.control.sent| + n && q.control.sent[..|p.control.sent|] == p.control.sent
    && (forall k :: |p.control.sent| <= k < |q.control.sent| ==> q.control.sent[k].CommandMessage? && q.control.sent[k].command == Reset)
    && |p.events| <= |q.events| && q.events[..|p.events|] == p.events
    && (forall k :: |p.events| <= k < |q.events| ==> q.events[k] == TellDisconnected)
  }

  lemma {:induction false} AskedOnceMore(p: Probe, q: Probe, n: nat, u: Probe)
    requires AskedSince(p, q, n) && OneReset(q.control.sent, u.control.sent)
    requires u.events == q.events || u.events == q.events + [TellDisconnected]
    ensures AskedSince(p, u, n + 1)
  {
    var s := |q.control.sent|;
    assert forall k :: 0 <= k < s ==> u.control.sent[k] == u.control.sent[..s][k] == q.control.sent[k];
    assert u.control.sent[..|p.control.sent|] == q.control.sent[..|p.control.sent|];
    assert u.events[..|p.events|] == q.events[..|p.events|];
  }

  lemma {:induction false} AsksRound(p: Probe, n: nat, th: Thread, tick: Tick)
    requires CanTick(th, tick) && Ignored(th, tick) && Sender(th.probe) && Asks(th.probe.state) && AskedSince(p, th.probe, n)
    ensures var u := Round(th, tick);
            && Asks(u.probe.state) && AskedSince(p, u.probe, if Up(th, tick) then n + 1 else n)
            && Deadline(u) >= if Up(th, tick) then tick.doneUs + 1000 * SEND_RESET_COMMAND_FREQUENCY_MSEC else Deadline(th)
  {
    hide Round, QueueAfter, Patience, Sender, Resets, AsksOnce, AskedSince;
    SilentRound(th, tick);
    QueueIsAll(th, tick);
    var q := QueueAfter(th, tick);
    SameAsked(p, th.probe, n, q);
    if Up(th, tick) {
      OnceIs(q, Round(th, tick).probe);
      AskedOnceMore(p, q, n, Round(th, tick).probe);
    }
  }

  lemma {:induction false} SameAsked(p: Probe, q: Probe, n: nat, u: Probe)
    requires AskedSince(p, q, n) && u.control == q.control && u.events == q.events
    ensures AskedSince(p, u, n)
  {
  }

  lemma {:induction false} OnceIs(p: Probe, q: Probe)
    requires AsksOnce(p, q) && Asks(p.state)
    ensures Asks(q.state) && OneReset(p.control.sent, q.control.sent)
    ensures q.events == p.events || q.events == p.events + [TellDisconnected]
  {
    assert p.events + [] == p.events;
  }

  /** From then on it sends exactly one Reset at each timeout, no two of them sooner after each other than
      SEND_RESET_COMMAND_FREQUENCY_MSEC, and nothing else, for as long as the peer is silent. */
  lemma {:induction false} AsksForEver(ths: seq<Thread>, ticks: seq<Tick>, i: nat)
    requires Rounds(ths, ticks) && i < |ths| && Sender(ths[0].probe) && Asks(ths[0].probe.state)
    ensures Asks(ths[i].probe.state) && AskedSince(ths[0].probe, ths[i].probe, Timeouts(ths, ticks, i))
    ensures Deadline(ths[i]) >= ths[0].startUs + 1000 * (Timeouts(ths, ticks, i) * SEND_RESET_COMMAND_FREQUENCY_MSEC)
  {
    hide Round, Sender, AskedSince;
    PatienceFalls(ths, ticks, i);
    if i == 0 {
      NothingAsked(ths[0].probe);
    } else {
      var n := Timeouts(ths, ticks, i - 1);
      AsksForEver(ths, ticks, i - 1);
      PatienceFalls(ths, ticks, i - 1);
      AsksRound(ths[0].probe, n, ths[i - 1], ticks[i - 1]);
      OneMore(n, SEND_RESET_COMMAND_FREQUENCY_MSEC);
    }
  }

  lemma {:induction false} NothingAsked(p: Probe)
    ensures AskedSince(p, p, 0)
  {
  }

  // ----- The receiver -----

  function ResetPatience(p: Probe): nat {
    if p.rx.resetRetries + 1 < RX_RESET_COMMAND_MAX_RETRIES then RX_RESET_COMMAND_MAX_RETRIES - p.rx.resetRetries else 1
  }

  /** After how many timeouts the receiver is destroyed, or asks for a reset for ever, when its packet count stays like this. */
  function RxPatience(p: Probe, count: nat): nat {
    match p.state
    case Idle => ResetPatience(p)
    case SendReset => ResetPatience(p)
    case EfaProbe => ResetPatience(p)
    case EfaStart => RX_RESET_COMMAND_MAX_RETRIES + 1
    case WaitForStart => RX_RESET_COMMAND_MAX_RETRIES + 1
    case ResetDone =>
      if p.hasVersion then RX_RESET_COMMAND_MAX_RETRIES + 2
      else if p.control.reply.Reply? then ResetPatience(p) + 1
      else ResetPatience(p)
    case EfaConnected => 2
    case EfaConnectedPing => if p.rx.snapshot == count then 1 else 2
    case EfaReset => 1
    case _ => 0
  }

  predicate Receiver(p: Probe) {
    p.direction == Receive && p.state != SendProtocolVersion && p.state != EfaTxProbeAcks
  }

  /** On the way to being destroyed. */
  predicate Doomed(p: Probe) {
    Receiver(p) && p.state != EfaReset && p.state != Resetting
  }

  /** One acknowledgement, of the command that was saved; nothing if none was. */
  predicate Replies(p: Probe, q: Probe) {
    if p.control.reply.Reply? then
      && |q.control.sent| == |p.control.sent| + 1 && q.control.sent[..|p.control.sent|] == p.control.sent
      && var m := q.control.sent[|p.control.sent|];
         && m.AckMessage? && m.ackCommand == p.control.reply.command && m.ackNum == p.control.reply.num
         && q.control.reply.NoReply?
    else q.control == p.control
  }

  predicate RxAsks(s: ProbeState) {
    s == Idle || s == SendReset || s == EfaProbe
  }

  /** What happens when the time of a receiver is up. */
  predicate RxTimedOut(p: Probe, a: Acted, e: Env) {
    var q := a.probe;
    && Receiver(q)
    && (Doomed(p) ==> Doomed(q) && RxPatience(q, e.totalPackets) == if p.state == Destroy then 0 else RxPatience(p, e.totalPackets) - 1)
    && (q.state == Destroy && p.state != Destroy ==>
          q.control == p.control && q.events == p.events + if p.state == EfaConnectedPing then [DestroyEndpoint] else [TellDisconnected, DestroyEndpoint])
    && (RxAsks(p.state) ==> q.state == SendReset || q.state == Destroy)
    && (q.state == SendReset ==>
          && q.events == p.events + [TellDisconnected] && a.wait == SEND_RESET_COMMAND_FREQUENCY_MSEC
          && if e.hasControlInterface then OneReset(p.control.sent, q.control.sent) else q.control == p.control)
    && (p.state == Destroy ==> q == p)
    && (p.state == EfaReset ==> q.state == Resetting && q.control == p.control && q.events == p.events + [TellDisconnected, QueueEndpointReset])
    && (p.state == Resetting ==> q.state == Resetting && q.events == p.events && OneReset(p.control.sent, q.control.sent)
                                 && a.wait == SEND_RESET_COMMAND_FREQUENCY_MSEC)
    && (q.state == EfaProbe ==> Replies(p, q) && (p.state == ResetDone || q.events == p.events + [EfaStarted]))
    && (q.state == WaitForStart ==> q.control == p.control && q.events == p.events + [QueueEndpointStart])
  }

  lemma {:induction false} RxAskingTimesOut(p: Probe, e: Env)
    requires Receiver(p) && (p.state == Idle || p.state == SendReset)
    ensures RxTimedOut(p, ActUntilWait(p, e), e)
  {
    hide ActUntilWait;
    UnfoldActs(p, e);
    assert Act(p, e) == ResetRemote(p, e);
    if Act(p, e).wait == 0 {
      DestroyedActs(Act(p, e).probe, e);
    }
  }

  lemma {:induction false} DestroyedActs(p: Probe, e: Env)
    requires p.direction == Receive && p.state == Destroy
    ensures ActUntilWait(p, e).probe == p
  {
    hide ActUntilWait;
    UnfoldActs(p, e);
  }

  lemma {:induction false} RxProbingTimesOut(p: Probe, e: Env)
    requires Receiver(p) && p.state == EfaProbe
    ensures RxTimedOut(p, ActUntilWait(p, e), e)
  {
    hide ActUntilWait;
    var q := p.(state := SendReset);
    UnfoldActs(p, e);
    assert Act(p, e) == Acted(q, 0);
    RxAskingTimesOut(q, e);
  }

  lemma {:induction false} RxDoneTimesOut(p: Probe, e: Env)
    requires Receiver(p) && p.state == ResetDone
    ensures RxTimedOut(p, ActUntilWait(p, e), e)
  {
    hide ActUntilWait;
    UnfoldActs(p, e);
    assert Act(p, e) == ResetIsDone(p);
    var q := RxAct(p, e).probe;
    if q.state == SendReset {
      RxAskingTimesOut(q, e);
    }
  }

  lemma {:induction false} RxStartTimesOut(p: Probe, e: Env)
    requires Receiver(p) && (p.state == EfaStart || p.state == WaitForStart)
    ensures RxTimedOut(p, ActUntilWait(p, e), e)
  {
    hide ActUntilWait;
    UnfoldActs(p, e);
    assert Act(p, e) == StartAndReply(p);
  }

  lemma {:induction false} RxConnectedTimesOut(p: Probe, e: Env)
    requires Receiver(p) && (p.state == EfaConnected || p.state == EfaConnectedPing)
    ensures RxTimedOut(p, ActUntilWait(p, e), e)
  {
    hide ActUntilWait;
    UnfoldActs(p, e);
    assert Act(p, e) == RxAct(p, e);
    if RxAct(p, e).wait == 0 {
      DestroyedActs(RxAct(p, e).probe, e);
    }
  }

  lemma {:induction false} RxResettingTimesOut(p: Probe, e: Env)
    requires Receiver(p) && (p.state == EfaReset || p.state == Resetting || p.state == Destroy)
    ensures RxTimedOut(p, ActUntilWait(p, e), e)
  {
    hide ActUntilWait;
    UnfoldActs(p, e);
    assert Act(p, e) == RxAct(p, e);
  }

  lemma {:induction false} RxTimesOut(p: Probe, e: Env)
    requires Receiver(p)
    ensures RxTimedOut(p, ActUntilWait(p, e), e)
  {
    hide ActUntilWait, RxTimedOut;
    match p.state {
      case Idle => RxAskingTimesOut(p, e);
      case SendReset => RxAskingTimesOut(p, e);
      case EfaProbe => RxProbingTimesOut(p, e);
      case ResetDone => RxDoneTimesOut(p, e);
      case EfaStart => RxStartTimesOut(p, e);
      case WaitForStart => RxStartTimesOut(p, e);
      case EfaConnected => RxConnectedTimesOut(p, e);
      case EfaConnectedPing => RxConnectedTimesOut(p, e);
      case _ => RxResettingTimesOut(p, e);
    }
  }

  /** Rounds in which nothing is read, and no packet counted. */
  predicate SilentRounds(ths: seq<Thread>, ticks: seq<Tick>, count: nat) {
    && |ths| == |ticks| + 1
    && forall i :: 0 <= i < |ticks| ==>
                     CanTick(ths[i], ticks[i]) && !ticks[i].read && ticks[i].e.totalPackets == count && ths[i + 1] == Round(ths[i], ticks[i])
  }

  lemma {:induction false} RxSilentRound(th: Thread, tick: Tick)
    requires CanTick(th, tick) && !tick.read && Receiver(th.probe)
    ensures var q, u := Queue(th, tick), Round(th, tick);
            && Receiver(u.probe)
            && if Up(th, tick) then RxTimedOut(q, Acted(u.probe, u.waitMs), tick.e) && u.startUs == tick.doneUs
               else u.probe == q && Deadline(u) >= Deadline(th)
  {
    hide ActUntilWait, RxTimedOut;
    ElapsedIs(th.startUs, tick.checkUs, th.waitMs);
    RxTimesOut(Queue(th, tick), tick.e);
    RxTimedOutIsReceiver(Queue(th, tick), ActUntilWait(Queue(th, tick), tick.e), tick.e);
  }

  lemma {:induction false} RxTimedOutIsReceiver(p: Probe, a: Acted, e: Env)
    requires RxTimedOut(p, a, e)
    ensures Receiver(a.probe)
  {
  }

  /** A receiver that hears nothing is destroyed, unless it resets its own endpoint: exactly when as many timeouts have passed
      as it has patience. */
  lemma {:induction false} DestroyedInTime(ths: seq<Thread>, ticks: seq<Tick>, count: nat, i: nat)
    requires SilentRounds(ths, ticks, count) && i < |ths| && Doomed(ths[0].probe)
    ensures Doomed(ths[i].probe)
    ensures ths[i].probe.state == Destroy <==> Timeouts(ths, ticks, i) >= RxPatience(ths[0].probe, count)
  {
    hide Round, RxPatience, Doomed;
    RxPatienceFalls(ths, ticks, count, i);
    DestroyedIffNoPatience(ths[i].probe, count);
  }

  lemma {:induction false} DestroyedIffNoPatience(p: Probe, count: nat)
    requires Doomed(p)
    ensures p.state == Destroy <==> RxPatience(p, count) == 0
  {
  }

  lemma {:induction false} RxPatienceFalls(ths: seq<Thread>, ticks: seq<Tick>, count: nat, i: nat)
    requires SilentRounds(ths, ticks, count) && i < |ths| && Doomed(ths[0].probe)
    ensures Doomed(ths[i].probe)
    ensures var n, m := Timeouts(ths, ticks, i), RxPatience(ths[0].probe, count);
            RxPatience(ths[i].probe, count) == if n < m then m - n else 0
  {
    hide Round;
    if i > 0 {
      RxPatienceFalls(ths, ticks, count, i - 1);
      RxSilentRound(ths[i - 1], ticks[i - 1]);
      RxQueueIsAll(ths[i - 1], ticks[i - 1], count);
      DestroyedIffNoPatience(ths[i - 1].probe, count);
      RxPatienceOnce(Queue(ths[i - 1], ticks[i - 1]), Acted(ths[i].probe, ths[i].waitMs), ticks[i - 1].e);
    }
  }

  lemma {:induction false} RxPatienceOnce(p: Probe, a: Acted, e: Env)
    ensures RxTimedOut(p, a, e) && Doomed(p) ==>
              Doomed(a.probe) && RxPatience(a.probe, e.totalPackets) == if p.state == Destroy then 0 else RxPatience(p, e.totalPackets) - 1
  {
  }

  lemma {:induction false} RxQueueIsAll(th: Thread, tick: Tick, count: nat)
    ensures var p, q := th.probe, Queue(th, tick);
            q.state == p.state && q.control == p.control && q.events == p.events && RxPatience(q, count) == RxPatience(p, count)
            && (Doomed(p) <==> Doomed(q))
  {
  }

  predicate HasControl(ticks: seq<Tick>) {
    forall i :: 0 <= i < |ticks| ==> ticks[i].e.hasControlInterface
  }

  lemma {:induction false} RxAskedOnce(p: Probe, a: Acted, e: Env)
    requires RxTimedOut(p, a, e) && RxAsks(p.state) && e.hasControlInterface && Doomed(p)
    ensures if RxPatience(p, e.totalPackets) > 1 then
              RxAsks(a.probe.state) && OneReset(p.control.sent, a.probe.control.sent) && a.probe.events == p.events + [TellDisconnected]
            else a.probe.state == Destroy && a.probe.control == p.control && a.probe.events == p.events + [TellDisconnected, DestroyEndpoint]
  {
  }

  /** A receiver that asks the peer for a reset, or whose peer does not go on, sends one Reset at each timeout but the last,
      and at the last is destroyed and tells its application that there is no connection. */
  lemma {:induction false} AsksUntilDestroyed(ths: seq<Thread>, ticks: seq<Tick>, count: nat, i: nat)
    requires SilentRounds(ths, ticks, count) && HasControl(ticks) && i < |ths| && Doomed(ths[0].probe) && RxAsks(ths[0].probe.state)
    requires i == 0 || ths[i - 1].probe.state != Destroy
    ensures var n := Timeouts(ths, ticks, i);
            if n < RxPatience(ths[0].probe, count) then RxAsks(ths[i].probe.state) && AskedSince(ths[0].probe, ths[i].probe, n)
            else i > 0 && AskedSince(ths[0].probe, ths[i - 1].probe, n - 1) && ths[i].probe.state == Destroy
                 && ths[i].probe.control == ths[i - 1].probe.control
                 && ths[i].probe.events == ths[i - 1].probe.events + [TellDisconnected, DestroyEndpoint]
  {
    hide Round, RxPatience, AskedSince, RxTimedOut, OneReset;
    if i == 0 {
      NothingAsked(ths[0].probe);
      RxPatienceFalls(ths, ticks, count, 0);
      DestroyedIffNoPatience(ths[0].probe, count);
    } else {
      var th, tick := ths[i - 1], ticks[i - 1];
      var q := Queue(th, tick);
      DestroyedInTime(ths, ticks, count, i - 1);
      if i > 1 {
        DestroyedInTime(ths, ticks, count, i - 2);
        StaysDestroyed(ths[i - 2], ticks[i - 2]);
      }
      AsksUntilDestroyed(ths, ticks, count, i - 1);
      RxPatienceFalls(ths, ticks, count, i - 1);
      RxSilentRound(th, tick);
      RxQueueIsAll(th, tick, count);
      SameAsked(ths[0].probe, th.probe, Timeouts(ths, ticks, i - 1), q);
      if Up(th, tick) {
        RxAskedOnce(q, Acted(ths[i].probe, ths[i].waitMs), tick.e);
        if RxPatience(q, count) > 1 {
          AskedOnceMore(ths[0].probe, q, Timeouts(ths, ticks, i - 1), ths[i].probe);
        }
      }
    }
  }

  lemma {:induction false} StaysDestroyed(th: Thread, tick: Tick)
    requires CanTick(th, tick) && !tick.read && Receiver(th.probe)
    ensures th.probe.state == Destroy ==> Round(th, tick).probe.state == Destroy
  {
    hide ActUntilWait;
    if th.probe.state == Destroy {
      DestroyedActs(Queue(th, tick), tick.e);
    }
  }

  /** A receiver that resets its own endpoint says so once, and then sends one Reset at each timeout, for ever. */
  lemma {:induction false} ResetsForEver(ths: seq<Thread>, ticks: seq<Tick>, count: nat, i: nat)
    requires SilentRounds(ths, ticks, count) && i < |ths| && Receiver(ths[0].probe) && ths[0].probe.state == Resetting
    ensures Receiver(ths[i].probe) && ths[i].probe.state == Resetting
    ensures AskedSince(ths[0].probe, ths[i].probe, Timeouts(ths, ticks, i)) && ths[i].probe.events == ths[0].probe.events
    ensures Deadline(ths[i]) >= ths[0].startUs + 1000 * (Timeouts(ths, ticks, i) * SEND_RESET_COMMAND_FREQUENCY_MSEC)
  {
    hide Round, AskedSince, OneReset;
    if i == 0 {
      NothingAsked(ths[0].probe);
    } else {
      var n := Timeouts(ths, ticks, i - 1);
      ResetsForEver(ths, ticks, count, i - 1);
      RxSilentRound(ths[i - 1], ticks[i - 1]);
      var q := Queue(ths[i - 1], ticks[i - 1]);
      SameAsked(ths[0].probe, ths[i - 1].probe, n, q);
      if Up(ths[i - 1], ticks[i - 1]) {
        AskedOnceMore(ths[0].probe, q, n, ths[i].probe);
      }
      OneMore(n, SEND_RESET_COMMAND_FREQUENCY_MSEC);
    }
  }
}

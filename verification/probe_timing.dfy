/** Waiting times: however many ignored packets interrupt a wait, its deadline is never brought forward, so a
    command without an answer is repeated exactly as often, and given up no sooner, than configured. */
module ProbeTiming {
  import opened Probe
  import opened ProbeTx
  import opened ProbeSystem
  import opened ProbeThread

  /** The control thread: the probe, and when and how long it has been waiting. */
  datatype Thread = Thread(probe: Probe, startUs: nat, waitMs: nat)

  /** One round of the thread: the commands that arrived before it, whether one was read before the wait was over,
      and the clock when a packet was handled, when the time was checked, and at the end of the round. */
  datatype Tick = Tick(arrivals: seq<ControlCommand>, read: bool, packetUs: nat, checkUs: nat, doneUs: nat, e: Env)

  function Queue(th: Thread, tick: Tick): Probe {
    th.probe.(fifo := th.probe.fifo + tick.arrivals)
  }

  /** The clock does not run backwards, and something is read only if it is there. */
  predicate CanTick(th: Thread, tick: Tick) {
    th.startUs <= tick.packetUs <= tick.checkUs <= tick.doneUs && (tick.read ==> Queue(th, tick).fifo != [])
  }

  function Elapsed(fromUs: nat, toUs: nat): nat
    requires fromUs <= toUs
  {
    (toUs - fromUs) / 1000
  }

  function Round(th: Thread, tick: Tick): Thread
    requires CanTick(th, tick)
  {
    var p := Queue(th, tick);
    var h := if tick.read then Take(p, tick.e, th.waitMs) else Handled(p, false, th.waitMs);
    var start := if tick.read && p.fifo[0].RxPacket? && h.newState then tick.packetUs else th.startUs;
    if Elapsed(start, tick.checkUs) < h.wait then Thread(h.probe, tick.doneUs, h.wait - Elapsed(start, tick.checkUs))
    else var a := ActUntilWait(h.probe, tick.e); Thread(a.probe, tick.doneUs, a.wait)
  }

  /** When the wait is over, in microseconds. */
  function Deadline(th: Thread): nat {
    th.startUs + 1000 * th.waitMs
  }

  lemma {:induction false} ElapsedIs(fromUs: nat, toUs: nat, wait: nat)
    requires fromUs <= toUs
    ensures 1000 * Elapsed(fromUs, toUs) <= toUs - fromUs
    ensures Elapsed(fromUs, toUs) >= wait <==> toUs >= fromUs + 1000 * wait
  {
  }

  /** An interruption: nothing was read, or an acknowledgement that does not match. */
  predicate Ignored(th: Thread, tick: Tick)
    requires CanTick(th, tick)
  {
    tick.read ==> var c := Queue(th, tick).fifo[0];
                  c.RxPacket? && c.message.AckMessage? && !Accepts(th.probe, c.message)
  }

  /** After an interruption either the wait goes on, to a deadline that is not earlier, or the deadline has passed
      and the current state acts. */
  lemma {:induction false} WaitGoesOn(th: Thread, tick: Tick)
    requires CanTick(th, tick) && Ignored(th, tick) && th.probe.direction == Send
    ensures var q := if tick.read then Queue(th, tick).(fifo := Queue(th, tick).fifo[1..]) else Queue(th, tick);
            if tick.checkUs < Deadline(th) then Round(th, tick).probe == q && Deadline(Round(th, tick)) >= Deadline(th)
            else Round(th, tick) == Thread(ActUntilWait(q, tick.e).probe, tick.doneUs, ActUntilWait(q, tick.e).wait)
  {
    hide ActUntilWait, HandleAck, ProbeTx.HandleReset;
    ElapsedIs(th.startUs, tick.checkUs, th.waitMs);
  }

  // ----- Commands that are repeated -----

  function CommandOf(s: ProbeState): Command
    requires s == SendProtocolVersion || s == EfaConnectedPing
  {
    if s == SendProtocolVersion then ProtocolVersion else Ping
  }

  /** A repeated command waits for its acknowledgement: it was sent `retries` times, the first time as packet
      number `base`, and the wait is not over before `retries` timeouts have passed since `t0`. */
  ghost predicate Repeating(th: Thread, s: ProbeState, base: nat, t0: nat)
    requires s == SendProtocolVersion || s == EfaConnectedPing
  {
    var p := th.probe;
    && p.direction == Send && p.state == s && 1 <= p.tx.retries <= TX_COMMAND_MAX_RETRIES
    && |p.control.sent| == base + p.tx.retries
    && (forall i :: base <= i < |p.control.sent| ==> p.control.sent[i].CommandMessage? && p.control.sent[i].command == CommandOf(s))
    && Deadline(th) >= t0 + 1000 * (p.tx.retries * TX_COMMAND_ACK_TIMEOUT_MSEC)
  }

  /** The connection was reset after exactly TX_COMMAND_MAX_RETRIES commands without an answer, and not before
      that many timeouts had passed. */
  ghost predicate GivenUp(th: Thread, tick: Tick, after: Thread, s: ProbeState, base: nat, t0: nat)
    requires s == SendProtocolVersion || s == EfaConnectedPing
  {
    && Repeating(th, s, base, t0) && th.probe.tx.retries == TX_COMMAND_MAX_RETRIES
    && tick.checkUs >= t0 + 1000 * (TX_COMMAND_MAX_RETRIES * TX_COMMAND_ACK_TIMEOUT_MSEC)
    && after.probe.state == Resetting
    && |after.probe.control.sent| == base + TX_COMMAND_MAX_RETRIES + 1
    && after.probe.control.sent[..base + TX_COMMAND_MAX_RETRIES] == th.probe.control.sent
    && after.probe.control.sent[base + TX_COMMAND_MAX_RETRIES].CommandMessage?
    && after.probe.control.sent[base + TX_COMMAND_MAX_RETRIES].command == Reset
    && after.probe.events == th.probe.events + [TellDisconnected, QueueEndpointReset]
  }

  lemma {:induction false} OneMore(n: nat, timeout: nat)
    ensures (n + 1) * timeout == n * timeout + timeout
  {
  }

  /** The action of a repeated command: send it once more, or reset the connection. */
  lemma {:induction false} RepeatActs(p: Probe, e: Env)
    requires p.direction == Send && (p.state == SendProtocolVersion || p.state == EfaConnectedPing) && p.tx.retries >= 1
    ensures var a := ActUntilWait(p, e);
            if p.tx.retries < TX_COMMAND_MAX_RETRIES then
              && a.wait == TX_COMMAND_ACK_TIMEOUT_MSEC
              && a.probe == p.(control := p.control.SendExpectingAck(CommandOf(p.state)), tx := p.tx.(retries := p.tx.retries + 1))
            else
              && a.probe.state == Resetting && a.probe.control.sent == p.control.SendExpectingAck(Reset).sent
              && a.probe.events == p.events + [TellDisconnected, QueueEndpointReset]
  {
    var a := TxAct(p, e);
    assert Act(p, e) == a == SendCommandRetry(p, CommandOf(p.state));
    if p.tx.retries >= TX_COMMAND_MAX_RETRIES {
      assert Act(a.probe, e) == TxAct(a.probe, e);
    }
  }

  /** The first time, the command is sent and its wait begins. */
  lemma {:induction false} FirstSent(p: Probe, e: Env, doneUs: nat)
    requires p.direction == Send && (p.state == SendProtocolVersion || p.state == EfaConnectedPing) && p.tx.retries == 0
    ensures var a := ActUntilWait(p, e);
            Repeating(Thread(a.probe, doneUs, a.wait), p.state, |p.control.sent|, doneUs) && a.probe.tx.retries == 1
  {
    assert Act(p, e) == TxAct(p, e) == SendCommandRetry(p, CommandOf(p.state));
  }

  lemma {:induction false} RepeatStep(th: Thread, tick: Tick, s: ProbeState, base: nat, t0: nat)
    requires s == SendProtocolVersion || s == EfaConnectedPing
    requires CanTick(th, tick) && Ignored(th, tick) && Repeating(th, s, base, t0)
    ensures Repeating(Round(th, tick), s, base, t0) || GivenUp(th, tick, Round(th, tick), s, base, t0)
  {
    hide ActUntilWait, Round, TxAct;
    WaitGoesOn(th, tick);
    var q := if tick.read then Queue(th, tick).(fifo := Queue(th, tick).fifo[1..]) else Queue(th, tick);
    RepeatActs(q, tick.e);
    OneMore(th.probe.tx.retries, TX_COMMAND_ACK_TIMEOUT_MSEC);
  }

  predicate Rounds(ths: seq<Thread>, ticks: seq<Tick>) {
    && |ths| == |ticks| + 1
    && forall i :: 0 <= i < |ticks| ==>
                     CanTick(ths[i], ticks[i]) && Ignored(ths[i], ticks[i]) && ths[i + 1] == Round(ths[i], ticks[i])
  }

  predicate Repeats(s: ProbeState) {
    s == SendProtocolVersion || s == EfaConnectedPing
  }

  /** The transmitter enters the states that repeat a command with no retries counted. */
  lemma {:induction false} EnteredWithoutRetries(p: Probe, e: Env, wait: nat)
    ensures var q := TxAct(p, e).probe;
            Repeats(q.state) && q.state != p.state ==> q.tx.retries == 0
    ensures p.fifo != [] && p.fifo[0].RxPacket? ==>
              var q := TxTake(p, e, wait).probe;
              Repeats(q.state) && q.state != p.state ==> q.tx.retries == 0
  {
    hide TxAct, TxTake;
    EnteredByAction(p, e);
    if p.fifo != [] && p.fifo[0].RxPacket? {
      EnteredByPacket(p, e, wait);
    }
  }

  lemma {:induction false} EnteredByAction(p: Probe, e: Env)
    ensures var q := TxAct(p, e).probe;
            Repeats(q.state) && q.state != p.state ==> q.tx.retries == 0
  {
    hide SendResetCommand, StartBurst, AwaitProbeAcks;
    StatesOfParts(p, e);
  }

  lemma {:induction false} StatesOfParts(p: Probe, e: Env)
    ensures forall q: Probe, next, w :: SendResetCommand(q, next, w).probe.state == next
    ensures !Repeats(StartBurst(p, e).probe.state)
    ensures AwaitProbeAcks(p, e).probe.state == p.state || !Repeats(AwaitProbeAcks(p, e).probe.state)
  {
  }

  lemma {:induction false} EnteredByPacket(p: Probe, e: Env, wait: nat)
    requires p.fifo != [] && p.fifo[0].RxPacket?
    ensures var q := TxTake(p, e, wait).probe;
            Repeats(q.state) && q.state != p.state ==> q.tx.retries == 0
  {
    hide HandleAck, ProbeTx.HandleReset;
    var q := p.(fifo := p.fifo[1..]);
    EnteredByReset(q, e, wait);
    if q.control.pending.Pending? {
      EnteredByAck(q, e, wait);
    }
  }

  lemma {:induction false} EnteredByReset(p: Probe, e: Env, wait: nat)
    ensures var q := ProbeTx.HandleReset(p, e, wait).probe;
            q.state == p.state || q.state == Resetting
  {
  }

  lemma {:induction false} EnteredByAck(p: Probe, e: Env, wait: nat)
    requires p.control.pending.Pending?
    ensures var q := HandleAck(p, e, wait).probe;
            Repeats(q.state) && q.state != p.state ==> q.tx.retries == 0
  {
  }

  lemma {:induction false} RepeatsUntilGivenUp(ths: seq<Thread>, ticks: seq<Tick>, s: ProbeState, base: nat, i: nat)
    requires s == SendProtocolVersion || s == EfaConnectedPing
    requires Rounds(ths, ticks) && i < |ths|
    requires Repeating(ths[0], s, base, ths[0].startUs)
    requires forall j :: 0 <= j < i ==> ths[j].probe.state == s
    ensures if ths[i].probe.state == s then Repeating(ths[i], s, base, ths[0].startUs)
            else i > 0 && GivenUp(ths[i - 1], ticks[i - 1], ths[i], s, base, ths[0].startUs)
  {
    hide Repeating, GivenUp, Round;
    if i > 0 {
      RepeatsUntilGivenUp(ths, ticks, s, base, i - 1);
      RepeatStep(ths[i - 1], ticks[i - 1], s, base, ths[0].startUs);
      RepeatingState(ths[i], s, base, ths[0].startUs);
      GivenUpState(ths[i - 1], ticks[i - 1], ths[i], s, base, ths[0].startUs);
    } else {
      RepeatingState(ths[0], s, base, ths[0].startUs);
    }
  }

  /** Retries: start where the transmitter has just entered one of the two states, and take any number of rounds
      without an answer. As long as the state lasts the command has been sent once per retry, with nothing in between;
      the first round that ends the state gives up after exactly TX_COMMAND_MAX_RETRIES commands, no sooner than
      TX_COMMAND_MAX_RETRIES * TX_COMMAND_ACK_TIMEOUT_MSEC after the first one. */
  lemma {:induction false} UnansweredCommand(p: Probe, e: Env, ths: seq<Thread>, ticks: seq<Tick>, i: nat)
    requires p.direction == Send && (p.state == SendProtocolVersion || p.state == EfaConnectedPing) && p.tx.retries == 0
    requires Rounds(ths, ticks) && i < |ths|
    requires ths[0].probe == ActUntilWait(p, e).probe && ths[0].waitMs == ActUntilWait(p, e).wait
    requires forall j :: 0 <= j < i ==> ths[j].probe.state == p.state
    ensures if ths[i].probe.state == p.state then Repeating(ths[i], p.state, |p.control.sent|, ths[0].startUs)
            else i > 0 && GivenUp(ths[i - 1], ticks[i - 1], ths[i], p.state, |p.control.sent|, ths[0].startUs)
  {
    hide ActUntilWait, Repeating, GivenUp, Round;
    FirstSent(p, e, ths[0].startUs);
    RepeatsUntilGivenUp(ths, ticks, p.state, |p.control.sent|, i);
  }

  lemma {:induction false} RepeatingState(th: Thread, s: ProbeState, base: nat, t0: nat)
    requires s == SendProtocolVersion || s == EfaConnectedPing
    ensures Repeating(th, s, base, t0) ==> th.probe.state == s
  {
  }

  lemma {:induction false} GivenUpState(th: Thread, tick: Tick, after: Thread, s: ProbeState, base: nat, t0: nat)
    requires s == SendProtocolVersion || s == EfaConnectedPing
    ensures GivenUp(th, tick, after, s, base, t0) ==> after.probe.state != s
  {
  }

  // ----- Acknowledgements of probe packets that stay away -----

  /** The transmitter has looked k times for the last acknowledgements, and waits again. */
  ghost predicate Awaiting(th: Thread, k: nat, acked: nat, sent: seq<Message>, t0: nat) {
    var p := th.probe;
    && p.direction == Send && p.state == EfaTxProbeAcks && p.tx.acked == acked && p.tx.ackWaits == k
    && 1 <= k < EFA_TX_PROBE_ACK_MAX_RETRIES && p.control.sent == sent
    && Deadline(th) >= t0 + 1000 * (k * EFA_TX_PROBE_ACK_TIMEOUT)
  }

  /** The connection is reset, and its application told. */
  predicate Resets(p: Probe, after: Probe) {
    && after.state == Resetting && after.events == p.events + [TellDisconnected, QueueEndpointReset]
    && |after.control.sent| == |p.control.sent| + 1 && after.control.sent[..|p.control.sent|] == p.control.sent
    && after.control.sent[|p.control.sent|].CommandMessage? && after.control.sent[|p.control.sent|].command == Reset
  }

  lemma {:induction false} LookForAcks(p: Probe, e: Env)
    requires p.direction == Send && p.state == EfaTxProbeAcks && p.tx.acked < EFA_PROBE_PACKET_COUNT
    ensures var a, k := ActUntilWait(p, e), p.tx.ackWaits + 1;
            if k < EFA_TX_PROBE_ACK_MAX_RETRIES then
              a.wait == EFA_TX_PROBE_ACK_TIMEOUT && a.probe == p.(tx := p.tx.(ackWaits := k))
            else Resets(p, a.probe)
  {
    var a := TxAct(p, e);
    assert Act(p, e) == a == AwaitProbeAcks(p, e);
    if p.tx.ackWaits + 1 >= EFA_TX_PROBE_ACK_MAX_RETRIES {
      assert Act(a.probe, e) == TxAct(a.probe, e);
    }
  }

  lemma {:induction false} AwaitStep(th: Thread, tick: Tick, k: nat, acked: nat, sent: seq<Message>, t0: nat)
    requires CanTick(th, tick) && Ignored(th, tick) && Awaiting(th, k, acked, sent, t0) && acked < EFA_PROBE_PACKET_COUNT
    ensures var u := Round(th, tick);
            || Awaiting(u, k, acked, sent, t0) || Awaiting(u, k + 1, acked, sent, t0)
            || (&& k + 1 == EFA_TX_PROBE_ACK_MAX_RETRIES && Resets(th.probe, u.probe)
                && tick.checkUs >= t0 + 1000 * (k * EFA_TX_PROBE_ACK_TIMEOUT))
  {
    hide ActUntilWait, Round, TxAct;
    WaitGoesOn(th, tick);
    var q := if tick.read then Queue(th, tick).(fifo := Queue(th, tick).fifo[1..]) else Queue(th, tick);
    LookForAcks(q, tick.e);
    OneMore(k, EFA_TX_PROBE_ACK_TIMEOUT);
  }

  /** Start where the transmitter has read Connected, and its last probe packets are not acknowledged. However many ignored
      packets interrupt, it goes on waiting without sending anything, and in the round that ends this it resets the
      connection: after it has looked exactly EFA_TX_PROBE_ACK_MAX_RETRIES times, and no sooner than the waits between
      that many looks after the first. */
  lemma {:induction false} UnacknowledgedBurst(p: Probe, e: Env, ths: seq<Thread>, ticks: seq<Tick>, i: nat) returns (k: nat)
    requires p.direction == Send && p.state == EfaTxProbeAcks && p.tx.ackWaits == 0 && p.tx.acked < EFA_PROBE_PACKET_COUNT
    requires Rounds(ths, ticks) && i < |ths|
    requires ths[0].probe == ActUntilWait(p, e).probe && ths[0].waitMs == ActUntilWait(p, e).wait
    requires forall j :: 0 <= j < i ==> ths[j].probe.state == EfaTxProbeAcks
    ensures if ths[i].probe.state == EfaTxProbeAcks then Awaiting(ths[i], k, p.tx.acked, p.control.sent, ths[0].startUs)
            else if i == 0 then EFA_TX_PROBE_ACK_MAX_RETRIES == 1 && Resets(p, ths[0].probe)
            else
              && ths[i - 1].probe.tx.ackWaits + 1 == EFA_TX_PROBE_ACK_MAX_RETRIES && Resets(ths[i - 1].probe, ths[i].probe)
              && ths[i - 1].probe.control.sent == p.control.sent
              && ticks[i - 1].checkUs
                 >= ths[0].startUs + 1000 * ((EFA_TX_PROBE_ACK_MAX_RETRIES - 1) * EFA_TX_PROBE_ACK_TIMEOUT)
  {
    hide ActUntilWait, Round;
    if i == 0 {
      k := 1;
      LookForAcks(p, e);
    } else {
      k := UnacknowledgedBurst(p, e, ths, ticks, i - 1);
      AwaitStep(ths[i - 1], ticks[i - 1], k, p.tx.acked, p.control.sent, ths[0].startUs);
      if Awaiting(ths[i], k + 1, p.tx.acked, p.control.sent, ths[0].startUs) {
        k := k + 1;
      }
    }
  }
}

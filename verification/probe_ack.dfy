/** Acknowledgements are fresh: the transmitter takes an acknowledgement only for its latest command, and only if
    the receiver got that command, although packet numbers wrap at 16 bits. */
module ProbeAck {
  import opened Probe
  import opened ProbeTx
  import opened ProbeRx
  import opened ProbeSystem

  /** Packets carry their position among the sender's packets, wrapped to 16 bits. */
  predicate Numbered(c: Control) {
    && c.num == |c.sent| % 0x1_0000
    && forall i :: 0 <= i < |c.sent| ==> c.sent[i].serial == i && c.sent[i].num == (i + 1) % 0x1_0000
  }

  /** Whether this is the i-th packet sent, and a command. */
  predicate IsSent(sent: seq<Message>, command: Command, num: U16, i: nat) {
    i < |sent| && sent[i] == CommandMessage(command, num, i)
  }

  /** A pending command is the last packet sent; commands accepted before are older. */
  predicate PendingIsLast(c: Control) {
    && (c.pending.Pending? ==>
          |c.sent| == c.pending.serial + 1 && IsSent(c.sent, c.pending.command, c.pending.num, c.pending.serial))
    && (forall i, j :: 0 <= i < j < |c.accepted| ==> c.accepted[i] < c.accepted[j])
    && (forall i :: 0 <= i < |c.accepted| ==> c.accepted[i] < |c.sent|
                                              && (c.pending.Pending? ==> c.accepted[i] < c.pending.serial))
  }

  /** An acknowledgement of a command that was sent and received. */
  predicate Acknowledges(sent: seq<Message>, processed: set<nat>, command: Command, num: U16, serial: nat) {
    serial in processed && IsSent(sent, command, num, serial)
  }

  predicate AcksOk(sent: seq<Message>, r: Control) {
    && (r.reply.Reply? ==> Acknowledges(sent, r.processed, r.reply.command, r.reply.num, r.reply.serial))
    && forall i :: 0 <= i < |r.sent| && r.sent[i].AckMessage? ==>
                     Acknowledges(sent, r.processed, r.sent[i].ackCommand, r.sent[i].ackNum, r.sent[i].ackSerial)
  }

  ghost predicate AckInv(s: System) {
    Inv(s) && Numbered(s.tx.control) && PendingIsLast(s.tx.control) && AcksOk(s.tx.control.sent, s.rx.control)
  }

  // ----- The transmitter's control packets -----

  /** What an action of the transmitter does to its control packets. */
  predicate TxControlMoves(c: Control, d: Control) {
    || d == c
    || d == c.SendExpectingAck(Reset) || d == c.SendExpectingAck(ProtocolVersion) || d == c.SendExpectingAck(Ping)
    || (c.pending.Pending? && d == c.Accept())
  }

  lemma {:induction false} TxActMoves(t: Probe, e: Env)
    requires t.control.reply.NoReply?
    ensures TxControlMoves(t.control, TxAct(t, e).probe.control)
  {
    hide SendCommandRetry, SendResetCommand, StartBurst, AwaitProbeAcks;
  }

  lemma {:induction false} TxTakeMoves(t: Probe, e: Env, wait: nat)
    requires t.fifo != []
    ensures TxControlMoves(t.control, TxTake(t, e, wait).probe.control)
  {
    hide HandleAck, ProbeTx.HandleReset;
  }

  lemma {:induction false} TxControlKeeps(c: Control, d: Control, r: Control)
    requires TxControlMoves(c, d) && Numbered(c) && PendingIsLast(c) && AcksOk(c.sent, r)
    ensures Numbered(d) && PendingIsLast(d) && AcksOk(d.sent, r)
  {
    NextNumber(|c.sent|);
  }

  lemma {:induction false} NextNumber(n: nat)
    ensures (n % 0x1_0000 + 1) % 0x1_0000 == (n + 1) % 0x1_0000
  {
  }

  // ----- The receiver's control packets -----

  /** What an action of the receiver does to its control packets. */
  predicate RxControlMoves(c: Control, d: Control) {
    || d == c || d == c.SendReply()
    || d == c.Send(Reset) || d == c.Send(Connected) || d == c.SendExpectingAck(Reset)
  }

  lemma {:induction false} RxActMoves(r: Probe, e: Env)
    ensures RxControlMoves(r.control, RxAct(r, e).probe.control)
  {
    hide ResetRemote, StartAndReply, ResetIsDone, BecomeConnected, PingMissed;
  }

  lemma {:induction false} RxControlKeeps(sent: seq<Message>, c: Control, d: Control)
    requires RxControlMoves(c, d) && AcksOk(sent, c)
    ensures AcksOk(sent, d)
  {
  }

  lemma {:induction false} RxTakeKeeps(sent: seq<Message>, r: Probe, e: Env, wait: nat)
    requires r.fifo != [] && AcksOk(sent, r.control) && Linked(r.fifo, sent)
    requires forall i :: 0 <= i < |sent| ==> sent[i].CommandMessage? && sent[i].serial == i
    ensures AcksOk(sent, RxTake(r, e, wait).probe.control)
  {
    hide ProbeRx.HandleReset, HandleProtocolVersion, AcksOk, IsSent, Acknowledges;
    if r.fifo[0].RxPacket? {
      var m := r.fifo[0].message;
      assert m in sent;
      Received(sent, r.control, m);
    }
  }

  /** A received command may be acknowledged, at once or later. */
  lemma {:induction false} Received(sent: seq<Message>, c: Control, m: Message)
    requires AcksOk(sent, c) && m in sent
    requires forall i :: 0 <= i < |sent| ==> sent[i].CommandMessage? && sent[i].serial == i
    ensures AcksOk(sent, c.Process(m)) && m.CommandMessage?
    ensures AcksOk(sent, c.Process(m).SendAck(m.command, m.num, m.serial))
    ensures AcksOk(sent, c.Process(m).(reply := Reply(m.command, m.num, m.serial)))
  {
    assert IsSent(sent, m.command, m.num, m.serial);
  }

  // ----- Runs -----

  lemma {:induction false} TxControlOfStep(s: System, step: Step)
    requires Inv(s) && Enabled(s, step)
    ensures TxControlMoves(s.tx.control, After(s, step).tx.control)
  {
    hide TxSentOk, TxQueueOk, RxSafe, Linked, TxAct, TxTake, RxAct, RxTake, RxEfaMessage, TxControlMoves;
    assert TxControlMoves(s.tx.control, s.tx.control) by {
      NothingMoves(s.tx.control);
    }
    match step {
      case TxTakes(e, wait) => TxTakeMoves(s.tx, e, wait);
      case TxActs(e) => TxActMoves(s.tx, e);
      case _ =>
    }
  }

  lemma {:induction false} NothingMoves(c: Control)
    ensures TxControlMoves(c, c) && RxControlMoves(c, c)
  {
  }

  lemma {:induction false} AcksOfStep(s: System, step: Step)
    requires AckInv(s) && Enabled(s, step)
    ensures AcksOk(s.tx.control.sent, After(s, step).rx.control)
  {
    hide TxSafe, RxSafe, TxAct, TxTake, TxEfaMessage, RxAct, RxTake, AcksOk, PendingIsLast, RxControlMoves;
    var sent, r := s.tx.control.sent, s.rx;
    match step {
      case RxTakes(e, wait) =>
        AllSentByTx(s);
        RxTakeKeeps(sent, r, e, wait);
      case RxActs(e) =>
        RxActMoves(r, e);
        RxControlKeeps(sent, r.control, RxAct(r, e).probe.control);
      case _ =>
    }
  }

  lemma {:induction false} AllSentByTx(s: System)
    requires AckInv(s)
    ensures forall i :: 0 <= i < |s.tx.control.sent| ==> s.tx.control.sent[i].CommandMessage? && s.tx.control.sent[i].serial == i
  {
    assert TxSentOk(s.tx.control.sent);
    forall i | 0 <= i < |s.tx.control.sent|
      ensures FromTx(s.tx.control.sent[i])
    {
    }
  }

  lemma {:induction false} AckInvKept(s: System, step: Step)
    requires AckInv(s) && Enabled(s, step)
    ensures AckInv(After(s, step))
  {
    hide Inv, Numbered, PendingIsLast, AcksOk, TxControlMoves;
    var u := After(s, step);
    InvKept(s, step);
    TxControlOfStep(s, step);
    AcksOfStep(s, step);
    TxControlKeeps(s.tx.control, u.tx.control, u.rx.control);
  }

  lemma {:induction false} AckInvHolds(ss: seq<System>, steps: seq<Step>, i: nat)
    requires Run(ss, steps) && i < |ss|
    ensures AckInv(ss[i])
  {
    if i == 0 {
      InitSafe(ss[0]);
    } else {
      AckInvHolds(ss, steps, i - 1);
      AckInvKept(ss[i - 1], steps[i - 1]);
    }
  }

  // ----- Freshness -----

  lemma {:induction false} SameNumber(p: nat, q: nat)
    ensures (p + 1) % 0x1_0000 == (q + 1) % 0x1_0000 <==> (p - q) % 0x1_0000 == 0
  {
  }

  lemma {:induction false} SameWhenClose(p: nat, q: nat)
    requires q <= p && p - q < 0x1_0000 && (p - q) % 0x1_0000 == 0
    ensures p == q
  {
  }

  /** The acknowledgement at the head of the transmitter's queue was sent for a command that the receiver got. */
  lemma {:induction false} AckIsGenuine(s: System, m: Message)
    requires AckInv(s) && s.tx.fifo != [] && s.tx.fifo[0] == RxPacket(m) && m.AckMessage?
    ensures Acknowledges(s.tx.control.sent, s.rx.control.processed, m.ackCommand, m.ackNum, m.ackSerial)
  {
    assert m in s.rx.control.sent;
  }

  /** Exactly the acknowledgements of the pending command, or of an equal command a multiple of 2^16 packets ago,
      are accepted. */
  lemma {:induction false} AcceptedIff(s: System, m: Message)
    requires AckInv(s) && s.tx.fifo != [] && s.tx.fifo[0] == RxPacket(m) && m.AckMessage?
    ensures Accepts(s.tx, m) <==>
              var pending := s.tx.control.pending;
              pending.Pending? && m.ackCommand == pending.command && (pending.serial - m.ackSerial) % 0x1_0000 == 0
  {
    AckIsGenuine(s, m);
    if s.tx.control.pending.Pending? {
      SameNumber(s.tx.control.pending.serial, m.ackSerial);
    }
  }

  /** Freshness: in every run, an acknowledgement of one of the last 2^16 packets is accepted only for the command
      sent last, which is pending, and which the receiver has received with that number; the command is then no
      longer pending. An acknowledgement that is not accepted changes nothing but the queue. */
  lemma {:induction false} AckFresh(ss: seq<System>, steps: seq<Step>, i: nat, m: Message, e: Env, wait: nat)
    requires Run(ss, steps) && i < |ss| && ss[i].tx.fifo != [] && ss[i].tx.fifo[0] == RxPacket(m) && m.AckMessage?
    requires |ss[i].tx.control.sent| - m.ackSerial <= 0x1_0000
    ensures var t, u := ss[i].tx, TxTake(ss[i].tx, e, wait);
            if Accepts(t, m) then
              && t.control.pending.Pending? && t.control.pending.serial == m.ackSerial == |t.control.sent| - 1
              && t.control.sent[m.ackSerial] == CommandMessage(m.ackCommand, m.ackNum, m.ackSerial)
              && m.ackSerial in ss[i].rx.control.processed
              && u.probe.control.pending == NotPending && u.probe.control.accepted == t.control.accepted + [m.ackSerial]
            else u.probe == t.(fifo := t.fifo[1..]) && !u.newState && u.wait == wait
  {
    AckInvHolds(ss, steps, i);
    hide HandleAck, Run;
    AckIsGenuine(ss[i], m);
    AcceptedIff(ss[i], m);
    if Accepts(ss[i].tx, m) {
      SameWhenClose(ss[i].tx.control.pending.serial, m.ackSerial);
    }
  }

  /** No command is acknowledged twice. */
  lemma {:induction false} AcceptedOnce(ss: seq<System>, steps: seq<Step>, i: nat)
    requires Run(ss, steps) && i < |ss|
    ensures var a := ss[i].tx.control.accepted;
            forall j, k :: 0 <= j < k < |a| ==> a[j] < a[k] < |ss[i].tx.control.sent|
  {
    AckInvHolds(ss, steps, i);
  }
}

/** How a connected receiver watches its peer: it lives as long as every timeout brings a Ping or a packet. */
module ProbeWatch {
  import opened Probe
  import opened ProbeRx
  import opened ProbeThread
  import opened ProbeTiming

  /** A round in which nothing is read, or a Ping. */
  predicate WatchTick(th: Thread, tick: Tick) {
    && CanTick(th, tick)
    && (tick.read ==> var c := Queue(th, tick).fifo[0];
                      c.RxPacket? && c.message.CommandMessage? && c.message.command == Ping)
  }

  /** A connected receiver that has counted so many packets when it looked last, and whose time is not up before a whole
      timeout has passed since some moment. */
  predicate Watching(th: Thread, since: nat, seen: nat) {
    && th.probe.direction == Receive && th.probe.state == EfaConnectedPing && th.probe.rx.snapshot == seen
    && Deadline(th) >= since + 1000 * RX_PING_MONITOR_TIMEOUT_MSEC
  }

  predicate Destroyed(p: Probe, after: Probe) {
    after.state == Destroy && after.events == p.events + [DestroyEndpoint]
  }

  /** When the time of a round is up: as before, or a whole timeout after the Ping that it reads. */
  function UpAt(th: Thread, tick: Tick): nat {
    if tick.read then tick.packetUs + 1000 * RX_PING_MONITOR_TIMEOUT_MSEC else Deadline(th)
  }

  lemma {:induction false} ConnectedWatches(p: Probe, e: Env, doneUs: nat)
    requires p.direction == Receive && p.state == EfaConnected
    ensures Watching(Thread(ActUntilWait(p, e).probe, doneUs, ActUntilWait(p, e).wait), doneUs, e.totalPackets)
  {
    hide ActUntilWait;
    UnfoldActs(p, e);
    assert Act(p, e) == BecomeConnected(p, e);
  }

  lemma {:induction false} TimeIsUp(p: Probe, e: Env)
    requires p.direction == Receive && p.state == EfaConnectedPing
    ensures var a := ActUntilWait(p, e);
            if e.totalPackets != p.rx.snapshot then
              && a.wait == RX_PING_MONITOR_TIMEOUT_MSEC && a.probe.state == EfaConnectedPing && a.probe.direction == Receive
              && a.probe.rx.snapshot == e.totalPackets && a.probe.events == p.events && a.probe.control == p.control
            else Destroyed(p, a.probe)
  {
    hide ActUntilWait;
    UnfoldActs(p, e);
    assert Act(p, e) == PingMissed(p, e);
    UnfoldActs(Act(p, e).probe, e);
  }

  /** One round: until its time is up the receiver goes on watching, a Ping that it reads being acknowledged and giving it
      another timeout; then it goes on if packets were counted since it looked last, and is destroyed if none were. */
  lemma {:induction false} WatchRound(th: Thread, tick: Tick, since: nat, seen: nat)
    requires Watching(th, since, seen) && WatchTick(th, tick)
    ensures var from, u := if tick.read then tick.packetUs else since, Round(th, tick);
            && UpAt(th, tick) >= from + 1000 * RX_PING_MONITOR_TIMEOUT_MSEC
            && if tick.checkUs < UpAt(th, tick) then Watching(u, from, seen)
               else if tick.e.totalPackets != seen then Watching(u, tick.doneUs, tick.e.totalPackets)
               else Destroyed(th.probe, u.probe)
  {
    hide ActUntilWait;
    var q := Queue(th, tick);
    if tick.read {
      var p := RxPacketHandled(q.(fifo := q.fifo[1..]), q.fifo[0].message, tick.e, th.waitMs).probe;
      ElapsedIs(tick.packetUs, tick.checkUs, RX_PING_MONITOR_TIMEOUT_MSEC);
      TimeIsUp(p, tick.e);
    } else {
      ElapsedIs(th.startUs, tick.checkUs, th.waitMs);
      TimeIsUp(q, tick.e);
    }
  }

  /** A run of such rounds, along which the packet count of the endpoint never falls. */
  predicate WatchRounds(ths: seq<Thread>, ticks: seq<Tick>) {
    && |ths| == |ticks| + 1
    && (forall i :: 0 <= i < |ticks| ==> WatchTick(ths[i], ticks[i]) && ths[i + 1] == Round(ths[i], ticks[i]))
    && (forall i, j :: 0 <= i <= j < |ticks| ==> ticks[i].e.totalPackets <= ticks[j].e.totalPackets)
  }

  /** The packet count as it was read in the round before this one, or at the beginning. */
  function CountAt(ticks: seq<Tick>, first: nat, m: nat): nat
    requires m <= |ticks|
  {
    if m == 0 then first else ticks[m - 1].e.totalPackets
  }

  function TimeAt(ths: seq<Thread>, ticks: seq<Tick>, m: nat): nat
    requires m <= |ticks| && |ths| > 0
  {
    if m == 0 then ths[0].startUs else ticks[m - 1].packetUs
  }

  /** Since round m no Ping has been read, and the time of the last round is a whole timeout later; since round q no packet
      has been counted. */
  predicate Starved(ths: seq<Thread>, ticks: seq<Tick>, first: nat, q: nat, m: nat, i: nat)
    requires q <= m <= i <= |ticks| && i > 0 && |ths| > 0
  {
    && (forall j :: m <= j < i ==> !ticks[j].read)
    && ticks[i - 1].checkUs >= TimeAt(ths, ticks, m) + 1000 * RX_PING_MONITOR_TIMEOUT_MSEC
    && CountAt(ticks, first, q) == CountAt(ticks, first, i)
  }

  /** The receiver watches, its timeout running since round m and its last look at the packet count being from round q. */
  predicate WatchingSince(ths: seq<Thread>, ticks: seq<Tick>, first: nat, q: nat, m: nat, since: nat, i: nat)
    requires q <= m <= i <= |ticks| && |ths| == |ticks| + 1
  {
    && Watching(ths[i], since, CountAt(ticks, first, q)) && TimeAt(ths, ticks, m) <= since
    && forall j :: m <= j < i ==> !ticks[j].read
  }

  lemma {:induction false} WatchStep(ths: seq<Thread>, ticks: seq<Tick>, first: nat, q: nat, m: nat, since: nat, i: nat)
    requires WatchRounds(ths, ticks) && q <= m <= i < |ticks| && WatchingSince(ths, ticks, first, q, m, since, i)
    ensures var from := if ticks[i].read then ticks[i].packetUs else since;
            var n := if ticks[i].read then i + 1 else m;
            if ticks[i].checkUs < UpAt(ths[i], ticks[i]) then WatchingSince(ths, ticks, first, q, n, from, i + 1)
            else if ticks[i].e.totalPackets != CountAt(ticks, first, q) then
              WatchingSince(ths, ticks, first, i + 1, i + 1, ticks[i].doneUs, i + 1)
            else Destroyed(ths[i].probe, ths[i + 1].probe) && Starved(ths, ticks, first, q, n, i + 1)
  {
    hide Round;
    WatchRound(ths[i], ticks[i], since, CountAt(ticks, first, q));
  }

  /** Take any run of a connected receiver in which nothing but Pings is read. While it watches, its timeout runs since the
      last Ping it read, or since it last looked at the packet count; and it is destroyed only when a whole timeout has
      brought no Ping, and no packet was counted since it looked last. */
  lemma {:induction false} DestroyedOnlyStarved(ths: seq<Thread>, ticks: seq<Tick>, first: nat, i: nat)
    returns (q: nat, m: nat, since: nat)
    requires WatchRounds(ths, ticks) && i < |ths| && Watching(ths[0], ths[0].startUs, first)
    requires forall j :: 0 <= j < i ==> ths[j].probe.state == EfaConnectedPing
    ensures q <= m <= i
    ensures if ths[i].probe.state == EfaConnectedPing then WatchingSince(ths, ticks, first, q, m, since, i)
            else i > 0 && Destroyed(ths[i - 1].probe, ths[i].probe) && Starved(ths, ticks, first, q, m, i)
  {
    hide Round, Watching;
    if i == 0 {
      q, m, since := 0, 0, ths[0].startUs;
      StateOfWatching(ths[0], since, first);
    } else {
      var q0, m0, since0 := DestroyedOnlyStarved(ths, ticks, first, i - 1);
      var k := i - 1;
      WatchStep(ths, ticks, first, q0, m0, since0, k);
      var from := if ticks[k].read then ticks[k].packetUs else since0;
      var n := if ticks[k].read then i else m0;
      if ticks[k].checkUs < UpAt(ths[k], ticks[k]) {
        q, m, since := q0, n, from;
        StateOfWatching(ths[i], since, CountAt(ticks, first, q));
      } else if ticks[k].e.totalPackets != CountAt(ticks, first, q0) {
        q, m, since := i, i, ticks[k].doneUs;
        StateOfWatching(ths[i], since, CountAt(ticks, first, q));
      } else {
        q, m, since := q0, n, from;
      }
    }
  }

  lemma {:induction false} StateOfWatching(th: Thread, since: nat, seen: nat)
    requires Watching(th, since, seen)
    ensures th.probe.state == EfaConnectedPing
  {
  }

  /** Every timeout brings something: whenever one has passed without a Ping, a packet was counted in it. */
  predicate Fed(ths: seq<Thread>, ticks: seq<Tick>, first: nat)
    requires |ths| > 0
  {
    forall q, m, i :: 0 <= q <= m <= i <= |ticks| && i > 0 ==> !Starved(ths, ticks, first, q, m, i)
  }

  /** So a receiver that gets a Ping or a packet in every timeout is never destroyed. */
  lemma {:induction false} FedLives(ths: seq<Thread>, ticks: seq<Tick>, first: nat, i: nat)
    requires WatchRounds(ths, ticks) && i < |ths| && Watching(ths[0], ths[0].startUs, first) && Fed(ths, ticks, first)
    ensures ths[i].probe.state == EfaConnectedPing
    decreases i, 1
  {
    hide Round, Watching, Starved;
    if i > 0 {
      AllFed(ths, ticks, first, i);
    }
    var q, m, since := DestroyedOnlyStarved(ths, ticks, first, i);
  }

  lemma {:induction false} AllFed(ths: seq<Thread>, ticks: seq<Tick>, first: nat, i: nat)
    requires WatchRounds(ths, ticks) && i < |ths| && Watching(ths[0], ths[0].startUs, first) && Fed(ths, ticks, first)
    ensures forall j :: 0 <= j < i ==> ths[j].probe.state == EfaConnectedPing
    decreases i, 0
  {
    hide Round, Watching, Starved;
    if i > 0 {
      AllFed(ths, ticks, first, i - 1);
      FedLives(ths, ticks, first, i - 1);
    }
  }

  /** And one that looks in vain is destroyed in the round in which its time is up, exactly if its packet count has not
      changed since it looked last. */
  lemma {:induction false} DestroyedIff(ths: seq<Thread>, ticks: seq<Tick>, first: nat, i: nat)
    requires WatchRounds(ths, ticks) && i < |ticks| && Watching(ths[0], ths[0].startUs, first)
    requires forall j :: 0 <= j <= i ==> ths[j].probe.state == EfaConnectedPing
    ensures exists q: nat, m: nat, since: nat ::
              && q <= m <= i && WatchingSince(ths, ticks, first, q, m, since, i)
              && (ths[i + 1].probe.state == Destroy <==>
                    ticks[i].checkUs >= UpAt(ths[i], ticks[i]) && CountAt(ticks, first, q) == ticks[i].e.totalPackets)
  {
    hide Round, Watching, Starved;
    var q, m, since := DestroyedOnlyStarved(ths, ticks, first, i);
    WatchStep(ths, ticks, first, q, m, since, i);
    if ticks[i].checkUs < UpAt(ths[i], ticks[i]) {
      StateOfWatching(ths[i + 1], if ticks[i].read then ticks[i].packetUs else since, CountAt(ticks, first, q));
    } else if ticks[i].e.totalPackets != CountAt(ticks, first, q) {
      StateOfWatching(ths[i + 1], ticks[i].doneUs, ticks[i].e.totalPackets);
    }
  }
}

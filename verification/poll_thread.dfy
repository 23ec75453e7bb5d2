/** The data poll thread sleeps on per-connection signals, without a lock: producers raise an endpoint's
    in-flight count and then set the signal; the thread clears the signal, reads the counts again and, if one is
    not zero, sets the signal back. */
module PollThread {
  /** Where the thread is. `Scan(c, e)`: the signal of connection c has been cleared, and the counts of the
      endpoints from e on are still to be read again. */
  datatype Pc = Poll(connection: nat, allIdle: bool) | Check(connection: nat) | Clear(connection: nat)
              | Scan(connection: nat, endpoint: nat) | Advance(connection: nat, allIdle: bool) | Asleep

  /** `owner` gives the connection of each endpoint. `count` are the in-flight counts. `raised` is the number of
      producers of an endpoint that have raised its count and not yet set the signal. */
  datatype State = State(owner: seq<nat>, connections: nat, count: seq<nat>, raised: seq<nat>, signal: seq<bool>, pc: Pc)
  {
    predicate Valid() {
      && connections > 0 && |signal| == connections && |count| == |owner| && |raised| == |owner|
      && (forall e :: 0 <= e < |owner| ==> owner[e] < connections)
      && match pc
         case Poll(c, _) => c < connections
         case Check(c) => c < connections
         case Clear(c) => c < connections
         case Scan(c, e) => c < connections && e <= |owner|
         case Advance(c, _) => c < connections
         case Asleep => true
    }
  }

  datatype Step =
    | PayloadStarts(e: nat)          // a producer raises the count by one
    | BurstStarts(e: nat)            // the probe stores one in the count
    | SignalSet(e: nat)              // a producer sets the signal it still has to set
    | PacketQueued(e: nat)           // a packet of a payload in flight raises the count, without the signal
    | PacketCompletes(e: nat, last: bool)
    | Polled(idle: bool)             // DataPoll of the current connection
    | Skipped                        // the current connection has stopped polling
    | SignalRead                     // reads the signal before clearing it
    | SignalCleared
    | CountRead                      // reads one count; sets the signal if it is not zero
    | Advanced
    | Woken(c: nat)                  // some signal is set

  predicate Enabled(s: State, step: Step)
    requires s.Valid()
  {
    match step
    case PayloadStarts(e) => e < |s.owner|
    case BurstStarts(e) => e < |s.owner|
    case SignalSet(e) => e < |s.owner| && s.raised[e] > 0
    case PacketQueued(e) => e < |s.owner| && s.count[e] > 0
    case PacketCompletes(e, last) => e < |s.owner| && s.count[e] >= if last then 2 else 1
    case Polled(_) => s.pc.Poll?
    case Skipped => s.pc.Poll?
    case SignalRead => s.pc.Check?
    case SignalCleared => s.pc.Clear?
    case CountRead => s.pc.Scan?
    case Advanced => s.pc.Advance?
    case Woken(c) => s.pc.Asleep? && c < s.connections && s.signal[c]
  }

  function After(s: State, step: Step): State
    requires s.Valid() && Enabled(s, step)
  {
    match step
    case PayloadStarts(e) => s.(count := s.count[e := s.count[e] + 1], raised := s.raised[e := s.raised[e] + 1])
    case BurstStarts(e) => s.(count := s.count[e := 1], raised := s.raised[e := s.raised[e] + 1])
    case SignalSet(e) => s.(signal := s.signal[s.owner[e] := true], raised := s.raised[e := s.raised[e] - 1])
    case PacketQueued(e) => s.(count := s.count[e := s.count[e] + 1])
    case PacketCompletes(e, last) => s.(count := s.count[e := s.count[e] - if last then 2 else 1])
    case Polled(idle) =>
      var c := s.pc.connection;
      if s.pc.allIdle && idle then s.(pc := Check(c)) else s.(pc := Advance(c, false))
    case Skipped => s.(pc := Advance(s.pc.connection, s.pc.allIdle))
    case SignalRead => s.(pc := if s.signal[s.pc.connection] then Clear(s.pc.connection) else Advance(s.pc.connection, true))
    case SignalCleared => s.(signal := s.signal[s.pc.connection := false], pc := Scan(s.pc.connection, 0))
    case CountRead =>
      var c, e := s.pc.connection, s.pc.endpoint;
      if e == |s.owner| then s.(pc := Advance(c, true))
      else if s.owner[e] == c && s.count[e] != 0 then s.(signal := s.signal[c := true], pc := Advance(c, true))
      else s.(pc := Scan(c, e + 1))
    case Advanced =>
      var c := s.pc.connection + 1;
      if c < s.connections then s.(pc := Poll(c, s.pc.allIdle))
      else if s.pc.allIdle then s.(pc := Asleep)
      else s.(pc := Poll(0, true))
    case Woken(_) => s.(pc := Poll(0, true))
  }

  predicate Init(s: State) {
    && s.Valid() && s.pc == Poll(0, true)
    && (forall e :: 0 <= e < |s.owner| ==> s.count[e] == 0 && s.raised[e] == 0)
  }

  predicate Run(ss: seq<State>, steps: seq<Step>) {
    && |ss| == |steps| + 1 && Init(ss[0])
    && (forall i :: 0 <= i < |ss| ==> ss[i].Valid())
    && (forall i :: 0 <= i < |steps| ==> Enabled(ss[i], steps[i]) && ss[i + 1] == After(ss[i], steps[i]))
  }

  /** Work in flight is announced: by the signal, by a producer about to set it, or by the thread itself, which
      has yet to read the endpoint's count. */
  predicate Announced(s: State, e: nat)
    requires s.Valid() && e < |s.owner|
  {
    s.signal[s.owner[e]] || s.raised[e] > 0 || (s.pc.Scan? && s.pc.connection == s.owner[e] && s.pc.endpoint <= e)
  }

  predicate Inv(s: State) {
    s.Valid() && forall e :: 0 <= e < |s.owner| ==> s.count[e] > 0 ==> Announced(s, e)
  }

  lemma {:induction false} InvKept(s: State, step: Step)
    requires Inv(s) && Enabled(s, step)
    ensures Inv(After(s, step))
  {
  }

  lemma {:induction false} InvHolds(ss: seq<State>, steps: seq<Step>, i: nat)
    requires Run(ss, steps) && i < |ss|
    ensures Inv(ss[i])
  {
    if i != 0 {
      InvHolds(ss, steps, i - 1);
      InvKept(ss[i - 1], steps[i - 1]);
    }
  }

  /** No lost wakeup: in every run, while the thread sleeps and an endpoint has work in flight whose producers have
      all set the signal, waking is possible, and it remains so until the thread wakes. */
  lemma {:induction false} NoLostWakeup(ss: seq<State>, steps: seq<Step>, i: nat, e: nat)
    requires Run(ss, steps) && i < |ss| && ss[i].pc.Asleep? && e < |ss[i].owner|
    requires ss[i].count[e] > 0 && ss[i].raised[e] == 0
    ensures Enabled(ss[i], Woken(ss[i].owner[e]))
    ensures forall j :: i <= j < |ss| && (forall k :: i <= k <= j ==> ss[k].pc.Asleep?) ==>
              ss[j].owner == ss[i].owner && Enabled(ss[j], Woken(ss[i].owner[e]))
  {
    InvHolds(ss, steps, i);
    forall j | i <= j < |ss| && (forall k :: i <= k <= j ==> ss[k].pc.Asleep?)
      ensures ss[j].owner == ss[i].owner && Enabled(ss[j], Woken(ss[i].owner[e]))
    {
      StillEnabled(ss, steps, i, j, ss[i].owner[e]);
    }
  }

  lemma {:induction false} StillEnabled(ss: seq<State>, steps: seq<Step>, i: nat, j: nat, c: nat)
    requires Run(ss, steps) && i <= j < |ss| && (forall k :: i <= k <= j ==> ss[k].pc.Asleep?)
    requires Enabled(ss[i], Woken(c))
    ensures ss[j].owner == ss[i].owner && Enabled(ss[j], Woken(c))
    decreases j
  {
    if i < j {
      StillEnabled(ss, steps, i, j - 1, c);
      assert ss[j] == After(ss[j - 1], steps[j - 1]);
    }
  }

  /** Whenever the thread sleeps, every endpoint with work in flight has its signal set or a producer that is about
      to set it. */
  lemma {:induction false} SleepsOnlyAnnounced(ss: seq<State>, steps: seq<Step>, i: nat)
    requires Run(ss, steps) && i < |ss| && ss[i].pc.Asleep?
    ensures forall e :: 0 <= e < |ss[i].owner| && ss[i].count[e] > 0 ==> ss[i].signal[ss[i].owner[e]] || ss[i].raised[e] > 0
  {
    InvHolds(ss, steps, i);
  }
}

/** When the data poll thread falls asleep: at the end of every pass in which all its polls are idle, and at no other
    time. */
module PollSleep {
  import opened PollThread

  // ----- An idle pass ends asleep -----

  /** A step of the thread in which no endpoint has work to do. */
  predicate IdleStep(step: Step) {
    step == Polled(true) || step.Skipped? || step.SignalRead? || step.SignalCleared? || step.CountRead? || step.Advanced?
  }

  /** A step of somebody else. */
  predicate OtherStep(step: Step) {
    step.PayloadStarts? || step.BurstStarts? || step.SignalSet? || step.PacketQueued? || step.PacketCompletes?
  }

  /** No poll of the pass so far has found work. */
  predicate Idle(pc: Pc) {
    match pc
    case Poll(_, allIdle) => allIdle
    case Advance(_, allIdle) => allIdle
    case _ => true
  }

  /** Most steps that an idle pass takes for one connection. */
  function PerConnection(s: State): nat {
    |s.owner| + 5
  }

  /** Most steps that it takes for the connections from this one on. */
  function ForRest(s: State, c: nat): nat
    requires c <= s.connections
  {
    (s.connections - c) * PerConnection(s)
  }

  /** Most steps that are left of an idle pass. */
  function StepsLeft(s: State): nat
    requires s.Valid()
  {
    match s.pc
    case Poll(c, _) => ForRest(s, c)
    case Check(c) => ForRest(s, c + 1) + |s.owner| + 4
    case Clear(c) => ForRest(s, c + 1) + |s.owner| + 3
    case Scan(c, e) => ForRest(s, c + 1) + (|s.owner| - e) + 2
    case Advance(c, _) => ForRest(s, c + 1) + 1
    case Asleep => 0
  }

  lemma {:induction false} IdleStepCounts(s: State, step: Step)
    requires s.Valid() && Idle(s.pc) && Enabled(s, step) && IdleStep(step)
    ensures var t := After(s, step);
            t.Valid() && Idle(t.pc) && StepsLeft(t) < StepsLeft(s) && SameShape(s, t)
  {
    hide ForRest;
    var t := After(s, step);
    assert SameShape(s, t);
    SameRest(s, t);
    match s.pc {
      case Poll(c, _) => OneConnection(s, c);
      case Advance(c, _) => OneConnection(s, c);
      case _ =>
    }
  }

  predicate SameShape(s: State, t: State) {
    t.connections == s.connections && t.owner == s.owner
  }

  lemma {:induction false} SameRest(s: State, t: State)
    requires SameShape(s, t)
    ensures forall c: nat :: c <= s.connections ==> ForRest(t, c) == ForRest(s, c)
  {
  }

  lemma {:induction false} OneConnection(s: State, c: nat)
    requires c < s.connections
    ensures ForRest(s, c) == ForRest(s, c + 1) + |s.owner| + 5
  {
    var n, k := s.connections - c - 1, PerConnection(s);
    assert (n + 1) * k == n * k + k;
  }

  lemma {:induction false} OtherStepKeeps(s: State, step: Step)
    requires s.Valid() && Enabled(s, step) && OtherStep(step)
    ensures var t := After(s, step);
            t.Valid() && t.pc == s.pc && SameShape(s, t) && StepsLeft(t) == StepsLeft(s)
  {
    hide ForRest;
    SameRest(s, After(s, step));
  }

  /** What the thread does next, unless it sleeps. */
  function NextStep(s: State): Step
    requires s.Valid() && !s.pc.Asleep?
  {
    match s.pc
    case Poll(_, _) => Polled(true)
    case Check(_) => SignalRead
    case Clear(_) => SignalCleared
    case Scan(_, _) => CountRead
    case Advance(_, _) => Advanced
  }

  function IdleSteps(steps: seq<Step>): nat {
    if steps == [] then 0 else IdleSteps(steps[..|steps| - 1]) + if IdleStep(steps[|steps| - 1]) then 1 else 0
  }

  /** Steps of the thread that find no work, mixed with any steps of others. */
  predicate IdlePass(ss: seq<State>, steps: seq<Step>) {
    && |ss| == |steps| + 1 && ss[0].Valid() && ss[0].pc == Poll(0, true)
    && (forall i :: 0 <= i < |ss| ==> ss[i].Valid())
    && (forall i :: 0 <= i < |steps| ==> Enabled(ss[i], steps[i]) && ss[i + 1] == After(ss[i], steps[i]))
    && (forall i :: 0 <= i < |steps| ==> IdleStep(steps[i]) || OtherStep(steps[i]))
  }

  lemma {:induction false} PassCounts(ss: seq<State>, steps: seq<Step>, i: nat)
    requires IdlePass(ss, steps) && i < |ss|
    ensures Idle(ss[i].pc) && StepsLeft(ss[i]) + IdleSteps(steps[..i]) <= StepsLeft(ss[0])
  {
    hide StepsLeft, Enabled, After;
    if i > 0 {
      PassCounts(ss, steps, i - 1);
      assert steps[..i][..i - 1] == steps[..i - 1];
      if IdleStep(steps[i - 1]) {
        IdleStepCounts(ss[i - 1], steps[i - 1]);
      } else {
        OtherStepKeeps(ss[i - 1], steps[i - 1]);
      }
    }
  }

  /** As long as its polls find no work, and whatever others do in between, the thread is asleep after a bounded number of
      its steps: it can always take another step until it sleeps, and none then. */
  lemma {:induction false} FallsAsleep(ss: seq<State>, steps: seq<Step>)
    requires IdlePass(ss, steps)
    ensures IdleSteps(steps) <= ss[0].connections * (|ss[0].owner| + 5)
    ensures var last := ss[|steps|];
            if last.pc.Asleep? then forall step :: IdleStep(step) ==> !Enabled(last, step)
            else IdleStep(NextStep(last)) && Enabled(last, NextStep(last))
  {
    PassCounts(ss, steps, |steps|);
    assert steps[..|steps|] == steps;
  }

  /** So an idle pass ends asleep. */
  lemma {:induction false} IdlePassSleeps(s: State) returns (ss: seq<State>, steps: seq<Step>)
    requires s.Valid() && s.pc == Poll(0, true)
    ensures IdlePass(ss, steps) && ss[0] == s && ss[|steps|].pc == Asleep
    ensures forall i :: 0 <= i < |steps| ==> IdleStep(steps[i])
  {
    hide Enabled, After, StepsLeft;
    ss, steps := [s], [];
    while !ss[|steps|].pc.Asleep?
      invariant IdlePass(ss, steps) && ss[0] == s && Idle(ss[|steps|].pc)
      invariant forall i :: 0 <= i < |steps| ==> IdleStep(steps[i])
      decreases StepsLeft(ss[|steps|])
    {
      var t := ss[|steps|];
      var step := NextStep(t);
      CanStep(t);
      IdleStepCounts(t, step);
      ss, steps := ss + [After(t, step)], steps + [step];
    }
  }

  lemma {:induction false} CanStep(s: State)
    requires s.Valid() && !s.pc.Asleep?
    ensures Enabled(s, NextStep(s)) && IdleStep(NextStep(s))
  {
  }

  predicate NothingInFlight(s: State) {
    forall e :: 0 <= e < |s.count| ==> s.count[e] == 0
  }

  /** The connections whose signals the pass has looked at, those below this one. */
  function Looked(s: State): nat {
    match s.pc
    case Poll(c, _) => c
    case Check(c) => c
    case Clear(c) => c
    case Scan(c, _) => c + 1
    case Advance(c, _) => c + 1
    case Asleep => s.connections
  }

  predicate Cleared(s: State)
    requires s.Valid()
  {
    forall c :: 0 <= c < Looked(s) ==> !s.signal[c]
  }

  lemma {:induction false} StepClears(s: State, step: Step)
    requires s.Valid() && Enabled(s, step) && IdleStep(step) && !step.Skipped? && Idle(s.pc)
    requires NothingInFlight(s) && Cleared(s) && After(s, step).Valid()
    ensures NothingInFlight(After(s, step)) && Cleared(After(s, step))
  {
  }

  /** With nothing in flight, a pass that no one disturbs leaves no signal set: the thread then sleeps until work is
      announced. */
  lemma {:induction false} QuietPassClears(ss: seq<State>, steps: seq<Step>, i: nat)
    requires IdlePass(ss, steps) && i < |ss| && NothingInFlight(ss[0])
    requires forall j :: 0 <= j < |steps| ==> IdleStep(steps[j]) && !steps[j].Skipped?
    ensures NothingInFlight(ss[i]) && Cleared(ss[i])
    ensures ss[i].pc.Asleep? ==> forall c :: !Enabled(ss[i], Woken(c))
  {
    if i > 0 {
      hide NothingInFlight, Cleared, StepsLeft;
      QuietPassClears(ss, steps, i - 1);
      PassCounts(ss, steps, i - 1);
      StepClears(ss[i - 1], steps[i - 1]);
      NotWoken(ss[i]);
    }
  }

  lemma {:induction false} NotWoken(s: State)
    requires s.Valid() && Cleared(s)
    ensures s.pc.Asleep? ==> forall c :: !Enabled(s, Woken(c))
  {
  }

  // ----- Nothing else does -----

  /** The connections that the pass has polled, those below this one. */
  function Visited(s: State): nat {
    match s.pc
    case Poll(c, _) => c
    case Check(c) => c + 1
    case Clear(c) => c + 1
    case Scan(c, _) => c + 1
    case Advance(c, _) => c + 1
    case Asleep => s.connections
  }

  predicate PolledIdle(ss: seq<State>, steps: seq<Step>, j: nat, c: nat)
    requires j < |steps| && |ss| == |steps| + 1
  {
    ss[j].pc.Poll? && ss[j].pc.connection == c && (steps[j] == Polled(true) || steps[j].Skipped?)
  }

  predicate VisitedIdle(ss: seq<State>, steps: seq<Step>, k: nat, i: nat, c: nat)
    requires i <= |steps| && |ss| == |steps| + 1
  {
    exists j :: k <= j < i && PolledIdle(ss, steps, j, c)
  }

  /** Since step k, one pass has begun and found each connection it has polled idle, or not polling. */
  predicate IdleSince(ss: seq<State>, steps: seq<Step>, k: nat, i: nat)
    requires k <= i <= |steps| && |ss| == |steps| + 1
  {
    && ss[k].pc == Poll(0, true)
    && (forall j :: k <= j < i ==> steps[j] != Polled(false) && !ss[j].pc.Asleep?)
    && (forall j :: k <= j <= i ==> Visited(ss[j]) <= Visited(ss[i]))
    && (forall c: nat :: c < Visited(ss[i]) ==> VisitedIdle(ss, steps, k, i, c))
  }

  lemma {:induction false} MoreVisited(ss: seq<State>, steps: seq<Step>, k: nat, i: nat)
    requires Run(ss, steps) && k <= i < |steps| && IdleSince(ss, steps, k, i)
    requires steps[i] != Polled(false) && !ss[i].pc.Asleep?
    requires Visited(ss[i]) <= Visited(ss[i + 1])
    requires Visited(ss[i + 1]) <= Visited(ss[i]) || (Visited(ss[i + 1]) == Visited(ss[i]) + 1 && PolledIdle(ss, steps, i, Visited(ss[i])))
    ensures IdleSince(ss, steps, k, i + 1)
  {
    hide Visited, PolledIdle, Enabled, After;
    var next := i + 1;
    forall c: nat | c < Visited(ss[next])
      ensures VisitedIdle(ss, steps, k, next, c)
    {
      if c < Visited(ss[i]) {
        assert VisitedIdle(ss, steps, k, i, c);
        var j :| k <= j < i && PolledIdle(ss, steps, j, c);
      } else {
        assert PolledIdle(ss, steps, i, c);
      }
    }
  }

  /** How one step moves an idle pass on. */
  lemma {:induction false} StepVisits(s: State, step: Step)
    requires s.Valid() && Enabled(s, step) && After(s, step).Valid() && Idle(After(s, step).pc) && !s.pc.Asleep?
    ensures var t := After(s, step);
            || (t.pc == Poll(0, true) && step.Advanced?)
            || (&& Idle(s.pc) && step != Polled(false) && Visited(s) <= Visited(t)
                && (Visited(t) == Visited(s)
                    || (Visited(t) == Visited(s) + 1 && s.pc.Poll? && s.pc.connection == Visited(s)
                        && (step == Polled(true) || step.Skipped?))))
  {
  }

  /** A thread that has found no work in its pass so far. */
  lemma {:induction false} IdleHistory(ss: seq<State>, steps: seq<Step>, i: nat) returns (k: nat)
    requires Run(ss, steps) && i < |ss| && Idle(ss[i].pc) && (i > 0 ==> !ss[i - 1].pc.Asleep? || !ss[i].pc.Asleep?)
    ensures k <= i && IdleSince(ss, steps, k, i)
  {
    hide Enabled, After;
    if i == 0 {
      k := 0;
    } else if ss[i].pc == Poll(0, true) && (ss[i - 1].pc.Asleep? || steps[i - 1].Advanced?) {
      k := i;
    } else {
      AwakeBefore(ss[i - 1], steps[i - 1]);
      StepVisits(ss[i - 1], steps[i - 1]);
      k := IdleHistory(ss, steps, i - 1);
      MoreVisited(ss, steps, k, i - 1);
    }
  }

  lemma {:induction false} AwakeBefore(s: State, step: Step)
    requires s.Valid() && Enabled(s, step)
    ensures s.pc.Asleep? ==> After(s, step).pc.Asleep? || After(s, step).pc == Poll(0, true)
  {
  }

  /** In every run, the thread falls asleep only at the end of a pass, begun at the first connection, in which it polled
      every connection, or passed over one that has stopped, and found none with work. */
  lemma {:induction false} SleepsOnlyWhenIdle(ss: seq<State>, steps: seq<Step>, i: nat)
    requires Run(ss, steps) && 0 < i < |ss| && ss[i].pc.Asleep? && !ss[i - 1].pc.Asleep?
    ensures exists k: nat :: k < i && IdleSince(ss, steps, k, i) && forall c: nat :: c < ss[i].connections ==> VisitedIdle(ss, steps, k, i, c)
  {
    hide Enabled, After;
    var k := IdleHistory(ss, steps, i);
    assert ss[k].pc != ss[i].pc;
  }

  // ----- No connection is left out -----

  /** A step of the thread, whatever it finds. */
  predicate ThreadStep(step: Step) {
    !OtherStep(step) && !step.Woken?
  }

  function ThreadSteps(steps: seq<Step>): nat {
    if steps == [] then 0 else ThreadSteps(steps[..|steps| - 1]) + if ThreadStep(steps[|steps| - 1]) then 1 else 0
  }

  predicate Follows(ss: seq<State>, steps: seq<Step>) {
    && |ss| == |steps| + 1 && (forall i :: 0 <= i < |ss| ==> ss[i].Valid())
    && (forall i :: 0 <= i < |steps| ==> Enabled(ss[i], steps[i]) && ss[i + 1] == After(ss[i], steps[i]))
  }

  /** The connection had its turn: it was polled, or passed over because it has stopped. */
  predicate HadTurn(ss: seq<State>, steps: seq<Step>, i: nat, c: nat)
    requires i <= |steps| && |ss| == |steps| + 1
  {
    exists j :: 0 <= j < i && PollsAt(ss[j], steps[j], c)
  }

  predicate PollsAt(s: State, step: Step, c: nat) {
    s.pc.Poll? && s.pc.connection == c && (step.Polled? || step.Skipped?)
  }

  predicate AllHadTurns(ss: seq<State>, steps: seq<Step>, i: nat, below: nat)
    requires i <= |steps| && |ss| == |steps| + 1
  {
    forall c: nat :: c < below ==> HadTurn(ss, steps, i, c)
  }

  lemma {:induction false} ThreadStepCounts(s: State, step: Step)
    requires s.Valid() && Enabled(s, step) && ThreadStep(step) && After(s, step).Valid()
    ensures var t := After(s, step);
            && SameShape(s, t)
            && ((Visited(s) == s.connections && t.pc == Poll(0, true))
                || (StepsLeft(t) < StepsLeft(s)
                    && (Visited(t) == Visited(s) || (Visited(t) == Visited(s) + 1 && PollsAt(s, step, Visited(s))))))
  {
    hide ForRest;
    var t := After(s, step);
    assert SameShape(s, t);
    SameRest(s, t);
    match s.pc {
      case Poll(c, _) => OneConnection(s, c);
      case Advance(c, _) => OneConnection(s, c);
      case _ =>
    }
  }

  lemma {:induction false} TurnsRemain(ss: seq<State>, steps: seq<Step>, i: nat, below: nat)
    requires |ss| == |steps| + 1 && i < |steps| && AllHadTurns(ss, steps, i, below)
    ensures AllHadTurns(ss, steps, i + 1, below)
    ensures PollsAt(ss[i], steps[i], below) ==> AllHadTurns(ss, steps, i + 1, below + 1)
  {
    hide PollsAt;
    var next := i + 1;
    forall c: nat | c < below
      ensures HadTurn(ss, steps, next, c)
    {
      assert HadTurn(ss, steps, i, c);
    }
    if PollsAt(ss[i], steps[i], below) {
      assert HadTurn(ss, steps, i + 1, below);
    }
  }

  lemma {:induction false} TurnsCount(ss: seq<State>, steps: seq<Step>, i: nat)
    requires Follows(ss, steps) && i < |ss| && ss[0].pc.Poll? && ss[0].pc.connection == 0
    ensures SameShape(ss[0], ss[i])
    ensures AllHadTurns(ss, steps, i, ss[0].connections)
            || (StepsLeft(ss[i]) + ThreadSteps(steps[..i]) <= StepsLeft(ss[0]) && AllHadTurns(ss, steps, i, Visited(ss[i])))
  {
    hide StepsLeft, Enabled, After, Visited, PollsAt, HadTurn;
    if i == 0 {
      assert Visited(ss[0]) == 0 by { NoneVisited(ss[0]); }
    } else {
      var k := i - 1;
      TurnsCount(ss, steps, k);
      assert steps[..i][..k] == steps[..k];
      assert Enabled(ss[k], steps[k]) && ss[k + 1] == After(ss[k], steps[k]) && ss[i].Valid();
      if AllHadTurns(ss, steps, k, ss[0].connections) {
        TurnsRemain(ss, steps, k, ss[0].connections);
      } else {
        TurnsRemain(ss, steps, k, Visited(ss[k]));
      }
      if ThreadStep(steps[k]) {
        ThreadStepCounts(ss[k], steps[k]);
      } else if OtherStep(steps[k]) {
        OtherStepKeeps(ss[k], steps[k]);
        SameVisited(ss[k], ss[i]);
      } else {
        WakesAtEnd(ss[k], steps[k]);
      }
    }
  }

  lemma {:induction false} NoneVisited(s: State)
    requires s.pc.Poll? && s.pc.connection == 0
    ensures Visited(s) == 0
  {
  }

  lemma {:induction false} SameVisited(s: State, t: State)
    requires s.pc == t.pc && SameShape(s, t)
    ensures Visited(s) == Visited(t)
  {
  }

  lemma {:induction false} WakesAtEnd(s: State, step: Step)
    requires s.Valid() && Enabled(s, step) && step.Woken?
    ensures Visited(s) == s.connections && SameShape(s, After(s, step))
  {
  }

  lemma {:induction false} PassIsOver(s: State)
    requires s.Valid() && StepsLeft(s) == 0
    ensures Visited(s) == s.connections
  {
    if s.pc.Poll? {
      OneConnection(s, s.pc.connection);
    }
  }

  /** Whatever its polls find, and whatever others do in between, each connection has its turn within a bounded number of steps
      of the thread: work on one connection never keeps the thread from another. */
  lemma {:induction false} EveryConnectionHasItsTurn(ss: seq<State>, steps: seq<Step>, c: nat)
    requires Follows(ss, steps) && ss[0].pc.Poll? && ss[0].pc.connection == 0 && c < ss[0].connections
    requires ThreadSteps(steps) >= ss[0].connections * (|ss[0].owner| + 5)
    ensures HadTurn(ss, steps, |steps|, c)
  {
    hide Enabled, After, HadTurn, Visited;
    TurnsCount(ss, steps, |steps|);
    assert steps[..|steps|] == steps;
    if StepsLeft(ss[|steps|]) == 0 {
      PassIsOver(ss[|steps|]);
    }
  }
}

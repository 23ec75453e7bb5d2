/** The in-flight reference count of an endpoint: raised once when a payload starts and once for each packet that is
    queued, lowered once for each packet that completes and once more for the last packet of a payload. */
module InFlight {
  /** The count, and whether an assertion that it is not zero before it is lowered has failed. */
  datatype RefCount = RefCount(value: int, underflow: bool)
  {
    function Raise(): RefCount {
      this.(value := value + 1)
    }

    function Lower(): RefCount {
      RefCount(value - 1, underflow || value == 0)
    }

    function Complete(last: bool): RefCount {
      if last then Lower().Lower() else Lower()
    }
  }

  /** A payload of `total` packets: the packets queued so far, and which of them have completed. */
  datatype Payload = Payload(total: nat, done: seq<bool>)
  {
    predicate Valid() {
      total > 0 && |done| <= total
    }

    predicate AllDone() {
      |done| == total && forall k :: 0 <= k < total ==> done[k]
    }

    predicate LastDone()
      requires Valid()
    {
      |done| == total && done[total - 1]
    }

    /** What the payload contributes to the count. */
    function Load(): nat
      requires Valid()
    {
      Open(done) + if LastDone() then 0 else 1
    }
  }

  /** Number of queued packets that have not completed. */
  function Open(done: seq<bool>): nat {
    if done == [] then 0 else Open(done[..|done| - 1]) + if done[|done| - 1] then 0 else 1
  }

  datatype Endpoint = Endpoint(payloads: seq<Payload>, count: RefCount)

  datatype Step = Start(total: nat) | Queue(i: nat) | Complete(i: nat, k: nat)

  /** Packets complete in any order, each of them once. */
  predicate Enabled(s: Endpoint, step: Step) {
    match step
    case Start(total) => total > 0
    case Queue(i) => i < |s.payloads| && |s.payloads[i].done| < s.payloads[i].total
    case Complete(i, k) => i < |s.payloads| && k < |s.payloads[i].done| && !s.payloads[i].done[k]
  }

  function After(s: Endpoint, step: Step): Endpoint
    requires Enabled(s, step)
  {
    match step
    case Start(total) => Endpoint(s.payloads + [Payload(total, [])], s.count.Raise())
    case Queue(i) =>
      var p := s.payloads[i];
      Endpoint(s.payloads[i := p.(done := p.done + [false])], s.count.Raise())
    case Complete(i, k) =>
      var p := s.payloads[i];
      Endpoint(s.payloads[i := p.(done := p.done[k := true])], s.count.Complete(k + 1 == p.total))
  }

  function Apply(s: Endpoint, steps: seq<Step>): Endpoint
    requires CanApply(s, steps)
    decreases |steps|
  {
    if steps == [] then s else Apply(After(s, steps[0]), steps[1..])
  }

  predicate CanApply(s: Endpoint, steps: seq<Step>)
    decreases |steps|
  {
    steps == [] || (Enabled(s, steps[0]) && CanApply(After(s, steps[0]), steps[1..]))
  }

  predicate AllValid(ps: seq<Payload>) {
    forall i :: 0 <= i < |ps| ==> ps[i].Valid()
  }

  function TotalLoad(ps: seq<Payload>): nat
    requires AllValid(ps)
  {
    if ps == [] then 0 else TotalLoad(ps[..|ps| - 1]) + ps[|ps| - 1].Load()
  }

  /** The count is the number of unfinished payloads and open packets, and no assertion has failed. */
  predicate Inv(s: Endpoint) {
    AllValid(s.payloads) && s.count == RefCount(TotalLoad(s.payloads), false)
  }

  lemma {:induction false} TotalLoadUpdate(ps: seq<Payload>, i: nat, p: Payload)
    requires AllValid(ps) && i < |ps| && p.Valid()
    ensures TotalLoad(ps[i := p]) == TotalLoad(ps) - ps[i].Load() + p.Load()
    ensures ps[i].Load() <= TotalLoad(ps)
  {
    var n := |ps| - 1;
    if i < n {
      TotalLoadUpdate(ps[..n], i, p);
      assert ps[i := p][..n] == ps[..n][i := p];
    } else {
      assert ps[i := p][..n] == ps[..n];
    }
  }

  lemma {:induction false} OpenSnoc(done: seq<bool>, d: bool)
    ensures Open(done + [d]) == Open(done) + if d then 0 else 1
  {
    assert (done + [d])[..|done|] == done;
  }

  lemma {:induction false} OpenUpdate(done: seq<bool>, k: nat)
    requires k < |done| && !done[k]
    ensures Open(done[k := true]) == Open(done) - 1
  {
    var n := |done| - 1;
    if k < n {
      OpenUpdate(done[..n], k);
      assert done[k := true][..n] == done[..n][k := true];
    } else {
      assert done[k := true][..n] == done[..n];
    }
  }

  lemma {:induction false} NoneOpen(done: seq<bool>)
    ensures Open(done) == 0 <==> forall k :: 0 <= k < |done| ==> done[k]
  {
    if done != [] {
      var n := |done| - 1;
      NoneOpen(done[..n]);
      assert forall k :: 0 <= k < n ==> done[..n][k] == done[k];
    }
  }

  lemma {:induction false} InvKept(s: Endpoint, step: Step)
    requires Inv(s) && Enabled(s, step)
    ensures Inv(After(s, step))
  {
    match step {
      case Start(total) =>
        var ps := s.payloads + [Payload(total, [])];
        assert ps[..|s.payloads|] == s.payloads;
      case Queue(i) =>
        var p := s.payloads[i];
        OpenSnoc(p.done, false);
        TotalLoadUpdate(s.payloads, i, p.(done := p.done + [false]));
      case Complete(i, k) =>
        var p := s.payloads[i];
        OpenUpdate(p.done, k);
        TotalLoadUpdate(s.payloads, i, p.(done := p.done[k := true]));
    }
  }

  /** A packet is queued only while its payload keeps the count above zero, and a completion finds in the count
      everything it takes away. */
  lemma {:induction false} CountBefore(s: Endpoint, step: Step)
    requires Inv(s) && Enabled(s, step)
    ensures step.Queue? ==> s.count.value > 0
    ensures step.Complete? ==> s.count.value >= if step.k + 1 == s.payloads[step.i].total then 2 else 1
  {
    match step {
      case Start(_) =>
      case Queue(i) =>
        TotalLoadUpdate(s.payloads, i, s.payloads[i]);
      case Complete(i, k) =>
        OpenUpdate(s.payloads[i].done, k);
        TotalLoadUpdate(s.payloads, i, s.payloads[i]);
    }
  }

  lemma {:induction false} InvHolds(s: Endpoint, steps: seq<Step>)
    requires Inv(s) && CanApply(s, steps)
    ensures Inv(Apply(s, steps))
    decreases |steps|
  {
    if steps != [] {
      InvKept(s, steps[0]);
      InvHolds(After(s, steps[0]), steps[1..]);
    }
  }

  lemma {:induction false} NoLoad(ps: seq<Payload>)
    requires AllValid(ps)
    ensures TotalLoad(ps) == 0 <==> forall i :: 0 <= i < |ps| ==> ps[i].AllDone()
  {
    if ps != [] {
      var n := |ps| - 1;
      NoLoad(ps[..n]);
      NoneOpen(ps[n].done);
      assert forall i :: 0 <= i < n ==> ps[..n][i] == ps[i];
    }
  }

  /** In every run, whatever the order of completions, the count is the number of unfinished payloads plus the
      number of open packets, no assertion fails, and the count is zero exactly when every packet of every
      started payload has completed. */
  lemma {:induction false} CountIsWorkInFlight(steps: seq<Step>)
    requires CanApply(Endpoint([], RefCount(0, false)), steps)
    ensures var s := Apply(Endpoint([], RefCount(0, false)), steps);
            && AllValid(s.payloads) && s.count.value == TotalLoad(s.payloads) && !s.count.underflow
            && (s.count.value == 0 <==> forall i :: 0 <= i < |s.payloads| ==> s.payloads[i].AllDone())
  {
    var s := Endpoint([], RefCount(0, false));
    InvHolds(s, steps);
    NoLoad(Apply(s, steps).payloads);
  }
}

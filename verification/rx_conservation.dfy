/** Receive buffers over a run: which are posted, which are held, and which are lost because a post failed. */
module RxConservation {
  import opened RxBuffers

  datatype Pool = Pool(posted: multiset<int>, held: multiset<int>)

  datatype Step = Completes(bs: seq<int>) | Frees(bs: seq<int>, success: seq<bool>)

  predicate Enabled(p: Pool, step: Step) {
    match step
    case Completes(bs) => multiset(bs) <= p.posted
    case Frees(bs, success) => multiset(bs) <= p.held && |success| == |bs|
  }

  function After(p: Pool, step: Step): Pool
    requires Enabled(p, step)
  {
    match step
    case Completes(bs) => Pool(p.posted - multiset(bs), p.held + multiset(bs))
    case Frees(bs, success) => Pool(p.posted + multiset(Successful(bs, success)), p.held - multiset(bs))
  }

  predicate Run(ps: seq<Pool>, steps: seq<Step>) {
    && |ps| == |steps| + 1
    && forall i :: 0 <= i < |steps| ==> Enabled(ps[i], steps[i]) && ps[i + 1] == After(ps[i], steps[i])
  }

  /** Every post of the step succeeds. */
  predicate Succeeds(step: Step) {
    step.Frees? ==> AllPosted(step.success)
  }

  /** The buffers whose posting fails. */
  function Failed(bs: seq<int>, posted: seq<bool>): seq<int>
    requires |posted| == |bs|
  {
    if bs == [] then []
    else
      var n := |bs| - 1;
      Failed(bs[..n], posted[..n]) + if posted[n] then [] else [bs[n]]
  }

  predicate WellFormed(step: Step) {
    step.Frees? ==> |step.success| == |step.bs|
  }

  predicate AllWellFormed(steps: seq<Step>) {
    forall i :: 0 <= i < |steps| ==> WellFormed(steps[i])
  }

  /** The buffers whose post failed in a step. */
  function LostIn(step: Step): multiset<int>
    requires WellFormed(step)
  {
    match step
    case Completes(_) => multiset{}
    case Frees(bs, success) => multiset(Failed(bs, success))
  }

  /** The buffers whose post failed in these steps. */
  function Lost(steps: seq<Step>): multiset<int>
    requires AllWellFormed(steps)
  {
    if steps == [] then multiset{} else Lost(steps[..|steps| - 1]) + LostIn(steps[|steps| - 1])
  }

  lemma {:induction false} SuccessfulOrFailed(bs: seq<int>, success: seq<bool>)
    requires |success| == |bs|
    ensures multiset(Successful(bs, success)) + multiset(Failed(bs, success)) == multiset(bs)
  {
    if bs != [] {
      var n := |bs| - 1;
      SuccessfulOrFailed(bs[..n], success[..n]);
      assert bs == bs[..n] + [bs[n]];
      assert multiset(bs) == multiset(bs[..n]) + multiset{bs[n]};
      if success[n] {
        assert Successful(bs, success) == Successful(bs[..n], success[..n]) + [bs[n]];
        assert Failed(bs, success) == Failed(bs[..n], success[..n]);
      } else {
        assert Successful(bs, success) == Successful(bs[..n], success[..n]);
        assert Failed(bs, success) == Failed(bs[..n], success[..n]) + [bs[n]];
      }
    }
  }

  lemma {:induction false} NoneFailedIff(bs: seq<int>, success: seq<bool>)
    requires |success| == |bs|
    ensures Failed(bs, success) == [] <==> AllPosted(success)
  {
    if bs != [] {
      var n := |bs| - 1;
      NoneFailedIff(bs[..n], success[..n]);
      AllPostedStep(success, n);
      assert success[..n + 1] == success;
    }
  }

  lemma {:induction false} CompleteKeeps(p: Pool, bs: seq<int>)
    requires multiset(bs) <= p.posted
    ensures var q := After(p, Completes(bs));
            q.posted + q.held == p.posted + p.held
  {
    Exchange(p.posted, p.held, multiset(bs));
  }

  lemma {:induction false} Exchange(a: multiset<int>, b: multiset<int>, x: multiset<int>)
    requires x <= a
    ensures (a - x) + (b + x) == a + b
  {
  }

  lemma {:induction false} FreeKeeps(p: Pool, bs: seq<int>, success: seq<bool>)
    requires multiset(bs) <= p.held && |success| == |bs|
    ensures var q := After(p, Frees(bs, success));
            q.posted + q.held + multiset(Failed(bs, success)) == p.posted + p.held
  {
    hide Successful, Failed;
    SuccessfulOrFailed(bs, success);
    Split(p.held, p.posted, multiset(bs), multiset(Successful(bs, success)), multiset(Failed(bs, success)));
  }

  lemma {:induction false} Split(a: multiset<int>, b: multiset<int>, x: multiset<int>, y: multiset<int>, z: multiset<int>)
    requires x <= a && y + z == x
    ensures (b + y) + (a - x) + z == b + a
  {
  }

  lemma {:induction false} StepAccounts(p: Pool, step: Step)
    requires Enabled(p, step)
    ensures After(p, step).posted + After(p, step).held + LostIn(step) == p.posted + p.held
  {
    hide After, Failed;
    match step {
      case Completes(bs) => CompleteKeeps(p, bs);
      case Frees(bs, success) => FreeKeeps(p, bs, success);
    }
  }

  lemma {:induction false} LostInIff(step: Step)
    requires WellFormed(step)
    ensures LostIn(step) == multiset{} <==> Succeeds(step)
  {
    hide Failed;
    if step.Frees? {
      NoneFailedIff(step.bs, step.success);
      var f := Failed(step.bs, step.success);
      assert f != [] ==> f[0] in multiset(f);
    }
  }

  lemma {:induction false} LostIff(steps: seq<Step>)
    requires AllWellFormed(steps)
    ensures Lost(steps) == multiset{} <==> forall j :: 0 <= j < |steps| ==> Succeeds(steps[j])
  {
    hide Succeeds, LostIn, WellFormed;
    if steps != [] {
      var n := |steps| - 1;
      LostIff(steps[..n]);
      LostInIff(steps[n]);
      NothingLost(Lost(steps[..n]), LostIn(steps[n]));
      assert forall j :: 0 <= j < n ==> steps[..n][j] == steps[j];
    }
  }

  lemma {:induction false} NothingLost(a: multiset<int>, lost: multiset<int>)
    ensures a + lost == a <==> lost == multiset{}
    ensures a + lost == multiset{} <==> a == multiset{} && lost == multiset{}
  {
    if b :| b in lost {
      assert (a + lost)[b] > a[b];
    }
    if b :| b in a {
      assert b in a + lost;
    }
  }

  lemma {:induction false} Accounted(ps: seq<Pool>, steps: seq<Step>, i: nat)
    requires Run(ps, steps) && i < |ps|
    ensures AllWellFormed(steps[..i])
    ensures ps[i].posted + ps[i].held + Lost(steps[..i]) == ps[0].posted + ps[0].held
  {
    hide After, LostIn;
    if i > 0 {
      Accounted(ps, steps, i - 1);
      StepAccounts(ps[i - 1], steps[i - 1]);
      assert steps[..i][..i - 1] == steps[..i - 1];
      AddsUp(ps[i].posted + ps[i].held, LostIn(steps[i - 1]), Lost(steps[..i - 1]), ps[i - 1].posted + ps[i - 1].held);
    }
  }

  lemma {:induction false} AddsUp(a: multiset<int>, x: multiset<int>, y: multiset<int>, b: multiset<int>)
    requires a + x == b
    ensures a + (y + x) == b + y
  {
  }

  /** Conservation: over any run, the buffers posted and held, with those whose post failed, are always exactly the
      buffers posted first. So none is lost if and only if every post succeeds. */
  lemma {:induction false} BuffersConserved(ps: seq<Pool>, steps: seq<Step>, i: nat)
    requires Run(ps, steps) && i < |ps| && ps[0].held == multiset{}
    ensures AllWellFormed(steps[..i]) && ps[i].posted + ps[i].held + Lost(steps[..i]) == ps[0].posted
    ensures ps[i].posted + ps[i].held == ps[0].posted <==> forall j :: 0 <= j < i ==> Succeeds(steps[j])
  {
    hide Enabled, After, Succeeds, Lost, WellFormed;
    Accounted(ps, steps, i);
    LostIff(steps[..i]);
    assert forall j :: 0 <= j < i ==> steps[..i][j] == steps[j];
    NothingLost(ps[i].posted + ps[i].held, Lost(steps[..i]));
  }

  /** One buffer, received and freed while posting fails, is neither posted nor held any more. */
  lemma {:induction false} FailedPostLoses(b: int)
    ensures exists ps: seq<Pool>, steps: seq<Step> ::
              Run(ps, steps) && ps[0] == Pool(multiset{b}, multiset{}) && ps[|steps|] == Pool(multiset{}, multiset{})
  {
    var p, q := Pool(multiset{b}, multiset{}), Pool(multiset{}, multiset{b});
    var completes, frees := Completes([b]), Frees([b], [false]);
    assert After(p, completes) == q;
    assert [b][..0] == [] && [false][..0] == [] && Successful([b], [false]) == Successful([], []) == [];
    assert After(q, frees) == Pool(multiset{}, multiset{});
    var ps, steps := [p, q, Pool(multiset{}, multiset{})], [completes, frees];
    forall i | 0 <= i < |steps|
      ensures Enabled(ps[i], steps[i]) && ps[i + 1] == After(ps[i], steps[i])
    {
      assert (ps[i] == p && steps[i] == completes) || (ps[i] == q && steps[i] == frees);
    }
    assert Run(ps, steps);
  }
}

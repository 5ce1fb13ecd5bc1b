/** One pass of the data thread over its twins conserves work. */
module Passes {
  import opened CText
  import opened TwinSteps

  /** The step a pass makes for the i-th twin. */
  predicate Treats(c: Context, t: Twin, i: nat, s: Step) {
    if IsSimulated(c, t) then s.Simulate? && s.twin == i else s.Deal? && s.twin == i
  }

  /** The steps so far of a pass. */
  predicate PassBegun(c: Context, twins: seq<Twin>, steps: seq<Step>) {
    && |steps| <= |twins|
    && forall k :: 0 <= k < |steps| ==> Treats(c, twins[k], k, steps[k])
  }

  lemma PassGoesOn(c: Context, twins: seq<Twin>, t: Twin, steps: seq<Step>, s: Step)
    requires PassBegun(c, twins, steps) && |steps| < |twins|
    requires t.propertyName == twins[|steps|].propertyName && Treats(c, t, |steps|, s)
    ensures PassBegun(c, twins, steps + [s])
  {
  }

  /** The steps of one pass: every twin is reconciled in order, or simulated. */
  predicate IsPass(c: Context, twins: seq<Twin>, steps: seq<Step>) {
    PassBegun(c, twins, steps) && |steps| == |twins|
  }

  /** How many of the first n twins are simulated. */
  function SimulatedIn(c: Context, twins: seq<Twin>, n: nat): nat
    requires n <= |twins|
  {
    if n == 0 then 0 else SimulatedIn(c, twins, n - 1) + (if IsSimulated(c, twins[n - 1]) then 1 else 0)
  }

  /** How many of the first n twins are out of sync. */
  function PendingIn(c: Context, twins: seq<Twin>, n: nat): nat
    requires n <= |twins|
  {
    if n == 0 then 0
    else PendingIn(c, twins, n - 1) + (if OutOfSync(c, twins[n - 1]) then 1 else 0)
  }

  function Pending(c: Context, twins: seq<Twin>): nat {
    PendingIn(c, twins, |twins|)
  }

  lemma {:induction false} PendingDependsOn(c: Context, a: seq<Twin>, b: seq<Twin>, n: nat)
    requires n <= |a| && n <= |b| && forall k :: 0 <= k < n ==> a[k] == b[k]
    ensures PendingIn(c, a, n) == PendingIn(c, b, n)
  {
    if n > 0 {
      PendingDependsOn(c, a, b, n - 1);
    }
  }

  function Successes(c: Context, m: Memory, steps: seq<Step>): nat {
    if steps == [] then 0
    else
      var before, s := steps[..|steps| - 1], steps[|steps| - 1];
      Successes(c, m, before)
      + (if Attempts(c, Run(c, m, before), s) && (s.Deal? ==> s.ok) then 1 else 0)
  }

  predicate AllSucceed(steps: seq<Step>) {
    forall k :: 0 <= k < |steps| && steps[k].Deal? ==> steps[k].ok
  }

  /** The first k steps have treated the first k twins and no other. */
  lemma {:induction false} PassSoFar(c: Context, m: Memory, steps: seq<Step>, k: nat)
    requires IsPass(c, m.twins, steps) && k <= |steps|
    ensures var m' := Run(c, m, steps[..k]);
            && |m'.twins| == |m.twins|
            && (forall j :: k <= j < |m.twins| ==> m'.twins[j] == m.twins[j])
            && WriteAttempts(c, m, steps[..k]) == PendingIn(c, m.twins, k)
            && PendingIn(c, m'.twins, k) + Successes(c, m, steps[..k]) == PendingIn(c, m.twins, k)
  {
    if k > 0 {
      PassSoFar(c, m, steps, k - 1);
      assert steps[..k][..k - 1] == steps[..k - 1];
      var before := Run(c, m, steps[..k - 1]);
      StepTreatsOne(c, before, steps[k - 1], k - 1);
      PendingDependsOn(c, before.twins, Apply(c, before, steps[k - 1]).twins, k - 1);
    }
  }

  lemma StepTreatsOne(c: Context, m: Memory, s: Step, i: nat)
    requires i < |m.twins| && Treats(c, m.twins[i], i, s)
    ensures var m' := Apply(c, m, s);
            && |m'.twins| == |m.twins|
            && (forall j :: 0 <= j < |m.twins| && j != i ==> m'.twins[j] == m.twins[j])
            && (Attempts(c, m, s) <==> OutOfSync(c, m.twins[i]))
            && (OutOfSync(c, m'.twins[i]) <==> OutOfSync(c, m.twins[i]) && !(s.Deal? && s.ok))
  {
  }

  /** A pass attempts one write for each pending twin, and pending work drops by exactly the
      successful writes, whatever their outcomes. */
  lemma PassConservesWork(c: Context, m: Memory, steps: seq<Step>)
    requires IsPass(c, m.twins, steps)
    ensures WriteAttempts(c, m, steps) == Pending(c, m.twins)
    ensures Pending(c, Run(c, m, steps).twins) == Pending(c, m.twins) - Successes(c, m, steps)
  {
    PassSoFar(c, m, steps, |steps|);
    assert steps[..|steps|] == steps;
  }

  lemma {:induction false} AllSuccessesCount(c: Context, m: Memory, steps: seq<Step>)
    requires AllSucceed(steps)
    ensures Successes(c, m, steps) == WriteAttempts(c, m, steps)
  {
    if steps != [] {
      AllSuccessesCount(c, m, steps[..|steps| - 1]);
    }
  }

  lemma {:induction false} NothingPending(c: Context, twins: seq<Twin>, n: nat)
    requires n <= |twins|
    ensures PendingIn(c, twins, n) == 0 <==> forall k :: 0 <= k < n ==> !OutOfSync(c, twins[k])
  {
    if n > 0 {
      NothingPending(c, twins, n - 1);
    }
  }

  lemma {:induction false} IdlePassSoFar(c: Context, m: Memory, steps: seq<Step>, k: nat)
    requires IsPass(c, m.twins, steps) && k <= |steps| && Pending(c, m.twins) == 0
    ensures var m' := Run(c, m, steps[..k]);
            && m'.registers == m.registers && |m'.twins| == |m.twins|
            && forall j :: 0 <= j < |m.twins| && (j >= k || !IsSimulated(c, m.twins[j])) ==> m'.twins[j] == m.twins[j]
  {
    if k > 0 {
      IdlePassSoFar(c, m, steps, k - 1);
      NothingPending(c, m.twins, |m.twins|);
      assert steps[..k][..k - 1] == steps[..k - 1];
      assert !Attempts(c, Run(c, m, steps[..k - 1]), steps[k - 1]);
    }
  }

  /** Once a pass has succeeded throughout, the next one attempts nothing and leaves the
      registers and all but the simulated twins as they are. */
  lemma SecondPassIsIdle(c: Context, m: Memory, first: seq<Step>, second: seq<Step>)
    requires IsPass(c, m.twins, first) && AllSucceed(first)
    requires IsPass(c, Run(c, m, first).twins, second)
    ensures var m' := Run(c, m, first);
            var m'' := Run(c, m', second);
            && WriteAttempts(c, m', second) == 0
            && m''.registers == m'.registers && |m''.twins| == |m'.twins|
            && (forall j :: 0 <= j < |m'.twins| && !IsSimulated(c, m'.twins[j]) ==> m''.twins[j] == m'.twins[j])
            && (!c.simulated ==> m'' == m')
  {
    var m' := Run(c, m, first);
    PassConservesWork(c, m, first);
    AllSuccessesCount(c, m, first);
    PassConservesWork(c, m', second);
    IdlePassSoFar(c, m', second, |second|);
    assert second[..|second|] == second;
  }
}

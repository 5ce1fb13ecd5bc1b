/** Which coherence between `reported` and the register survives every run of the
    competing writers. */
module Coherence {
  import opened CText
  import opened TwinSteps

  /** No two twins share a register. */
  predicate Distinct(twins: seq<Twin>) {
    forall i, j :: 0 <= i < j < |twins| && Known(twins[i]) ==> Offset(twins[i]) != Offset(twins[j])
  }

  function RegisterOf(c: Context, t: Twin): Register {
    Register(c.device, Offset(t))
  }

  predicate HasValue(m: Memory, r: Register, value: int) {
    r in m.registers && m.registers[r] == value
  }

  /** `reported` names a value that the twin's register does not hold. */
  predicate Stale(c: Context, m: Memory, i: nat) {
    && i < |m.twins|
    && Known(m.twins[i]) && m.twins[i].reported.value.Some?
    && !HasValue(m, RegisterOf(c, m.twins[i]), Atoi(m.twins[i].reported.value.value))
  }

  function StaleSet(c: Context, m: Memory): set<nat> {
    set i: nat | i < |m.twins| && Stale(c, m, i)
  }

  function Mark(dirty: set<nat>, i: nat, stale: bool): set<nat> {
    if stale then dirty + {i} else dirty - {i}
  }

  /** The bookkeeping of one step: a reconciling write cleans its twin, a forced write to the
      device cleans the twin of that name, and a direct write to the device leaves the twin
      of that name dirty exactly when `reported` means another value. Registers are looked at
      only for the two steps that set `reported` without writing to the device. */
  function Track(c: Context, m: Memory, dirty: set<nat>, s: Step): set<nat> {
    match s
    case SetDesired(_, _) => dirty
    case Deal(i, ok, _, _) => if Attempts(c, m, s) && ok then dirty - {i} else dirty
    case Direct(name, v, ok) =>
      var twin := FirstNamed(m.twins, name);
      if !(Attempts(c, m, s) && ok && c.direct == c.device && twin.Some?) then dirty
      else
        var reported := m.twins[twin.value].reported.value;
        Mark(dirty, twin.value, reported.Some? && Atoi(reported.value) != Atoi(CStr(v)))
    case Forced(name, v, ok, _) =>
      var twin := FirstNamed(m.twins, name);
      if !(Attempts(c, m, s) && ok && twin.Some?) then dirty
      else
        Mark(dirty, twin.value,
             c.direct != c.device
             && !HasValue(m, Register(c.device, OffsetOf(name)), Atoi(CStr(v))))
    case Simulate(i, v, _) =>
      if !(i < |m.twins| && Known(m.twins[i])) then dirty
      else Mark(dirty, i, !HasValue(m, RegisterOf(c, m.twins[i]), Atoi(v)))
  }

  function Dirty(c: Context, m: Memory, steps: seq<Step>): set<nat> {
    if steps == [] then StaleSet(c, m)
    else
      var before := steps[..|steps| - 1];
      Track(c, Run(c, m, before), Dirty(c, m, before), steps[|steps| - 1])
  }

  // ------------------------------------------------------------- one step

  lemma OffsetsNameTwins(t: Twin, name: string)
    requires Known(t)
    ensures t.propertyName == Some(name) <==> Offset(t) == OffsetOf(name)
  {
  }

  /** A twin whose register is neither written nor reported anew stays as it was. */
  lemma Untouched(c: Context, m: Memory, m': Memory, k: nat)
    requires k < |m.twins| == |m'.twins|
    requires m'.twins[k].propertyName == m.twins[k].propertyName
    requires m'.twins[k].reported.value == m.twins[k].reported.value
    requires Known(m.twins[k]) ==>
               var r := RegisterOf(c, m.twins[k]);
               (r in m'.registers <==> r in m.registers) && (r in m.registers ==> m'.registers[r] == m.registers[r])
    ensures Stale(c, m', k) <==> Stale(c, m, k)
  {
  }

  lemma DealIsTracked(c: Context, m: Memory, i: nat, ok: bool, late: bool, now: string, k: nat)
    requires Distinct(m.twins) && k < |m.twins|
    ensures var s := Deal(i, ok, late, now);
            Stale(c, Apply(c, m, s), k) <==> k in Track(c, m, StaleSet(c, m), s)
  {
    var s := Deal(i, ok, late, now);
    if Attempts(c, m, s) && ok && k != i {
      Untouched(c, m, Apply(c, m, s), k);
    }
  }

  lemma DirectIsTracked(c: Context, m: Memory, name: string, v: string, ok: bool, k: nat)
    requires Distinct(m.twins) && k < |m.twins|
    ensures var s := Direct(name, v, ok);
            Stale(c, Apply(c, m, s), k) <==> k in Track(c, m, StaleSet(c, m), s)
  {
    var s := Direct(name, v, ok);
    if Attempts(c, m, s) && ok && Known(m.twins[k]) {
      OffsetsNameTwins(m.twins[k], name);
      FirstIsOnly(m.twins, name, k);
    }
  }

  lemma ForcedIsTracked(c: Context, m: Memory, name: string, v: string, ok: bool, now: string, k: nat)
    requires Distinct(m.twins) && k < |m.twins|
    ensures var s := Forced(name, v, ok, now);
            Stale(c, Apply(c, m, s), k) <==> k in Track(c, m, StaleSet(c, m), s)
  {
    var s := Forced(name, v, ok, now);
    if Attempts(c, m, s) && ok && Known(m.twins[k]) {
      OffsetsNameTwins(m.twins[k], name);
      FirstIsOnly(m.twins, name, k);
    }
  }

  /** With distinct registers the twin of a known name is the first of that name. */
  lemma FirstIsOnly(twins: seq<Twin>, name: string, k: nat)
    requires Distinct(twins) && k < |twins| && OffsetOf(name) > 0
    ensures twins[k].propertyName == Some(name) <==> FirstNamed(twins, name) == Some(k)
  {
  }

  lemma OthersAreTracked(c: Context, m: Memory, s: Step, k: nat)
    requires Distinct(m.twins) && k < |m.twins| && (s.SetDesired? || s.Simulate?)
    ensures Stale(c, Apply(c, m, s), k) <==> k in Track(c, m, StaleSet(c, m), s)
  {
  }

  lemma {:induction false} StepIsTracked(c: Context, m: Memory, s: Step)
    requires Distinct(m.twins)
    ensures StaleSet(c, Apply(c, m, s)) == Track(c, m, StaleSet(c, m), s)
  {
    RunKeepsNames(c, m, [s]);
    RunNext(c, m, [], s);
    RunNothing(c, m);
    assert [] + [s] == [s];
    TrackStays(c, m, s);
    hide Apply, Stale, Track, Run;
    forall k: nat | k < |m.twins| ensures Stale(c, Apply(c, m, s), k) <==> k in Track(c, m, StaleSet(c, m), s) {
      match s
      case Deal(i, ok, late, at) => DealIsTracked(c, m, i, ok, late, at, k);
      case Direct(name, v, ok) => DirectIsTracked(c, m, name, v, ok, k);
      case Forced(name, v, ok, at) => ForcedIsTracked(c, m, name, v, ok, at, k);
      case _ => OthersAreTracked(c, m, s, k);
    }
  }

  lemma TrackStays(c: Context, m: Memory, s: Step)
    ensures forall k :: k in Track(c, m, StaleSet(c, m), s) ==> k < |m.twins|
  {
  }

  // ------------------------------------------------------------ every run

  /** Over every run, the twins whose register differs from `reported` are exactly the dirty
      ones of the bookkeeping. */
  lemma {:induction false} RunIsTracked(c: Context, m: Memory, steps: seq<Step>)
    requires Distinct(m.twins)
    ensures StaleSet(c, Run(c, m, steps)) == Dirty(c, m, steps)
  {
    if steps != [] {
      var before := steps[..|steps| - 1];
      RunIsTracked(c, m, before);
      RunKeepsNames(c, m, before);
      StepIsTracked(c, Run(c, m, before), steps[|steps| - 1]);
    }
  }

  /** Only a direct write to the device that means another value than `reported` makes a
      coherent twin stale, as long as the temperature is not simulated and every writer
      writes to the device. */
  lemma OnlyDirectWritesStale(c: Context, m: Memory, s: Step, i: nat)
    requires Distinct(m.twins) && c.direct == c.device && !s.Simulate?
    requires !Stale(c, m, i) && Stale(c, Apply(c, m, s), i)
    ensures s.Direct? && s.ok && m.twins[i].propertyName == Some(s.name)
    ensures m.twins[i].reported.value.Some?
         && Atoi(m.twins[i].reported.value.value) != Atoi(CStr(s.value))
  {
    StepIsTracked(c, m, s);
    RunKeepsNames(c, m, [s]);
    assert i !in StaleSet(c, m) && i in StaleSet(c, Apply(c, m, s));
  }

  /** A successful reconciling write leaves its twin coherent. */
  lemma WritesClean(c: Context, m: Memory, s: Step, i: nat)
    requires Distinct(m.twins) && Attempts(c, m, s)
    requires (s.Deal? && s.ok && s.twin == i)
          || (s.Forced? && s.ok && c.direct == c.device && FirstNamed(m.twins, s.name) == Some(i))
    ensures !Stale(c, Apply(c, m, s), i)
  {
    StepIsTracked(c, m, s);
    assert i !in StaleSet(c, Apply(c, m, s));
    RunKeepsNames(c, m, [s]);
  }

  predicate Acknowledged(steps: seq<Step>) {
    forall k :: 0 <= k < |steps| ==> !steps[k].Direct? && !steps[k].Simulate?
  }

  /** No two twins share a register, unless they are simulated and the later one reports nothing:
      that one is never reconciled and never acknowledged. */
  predicate Separate(c: Context, twins: seq<Twin>) {
    forall i, j :: 0 <= i < j < |twins| && Known(twins[i]) && Offset(twins[i]) == Offset(twins[j]) ==>
                     IsSimulated(c, twins[i]) && twins[j].reported.value.None?
  }

  /** All writers write to the device, or there is nothing to write. */
  predicate OneTarget(c: Context, twins: seq<Twin>) {
    c.direct == c.device || forall i :: 0 <= i < |twins| ==> !Known(twins[i])
  }

  predicate Coherent(c: Context, m: Memory) {
    forall k :: 0 <= k < |m.twins| ==> !Stale(c, m, k)
  }

  lemma DealStaysCoherent(c: Context, m: Memory, s: Step, k: nat)
    requires s.Deal? && Separate(c, m.twins) && Coherent(c, m) && k < |m.twins|
    ensures !Stale(c, Apply(c, m, s), k)
  {
    var i := s.twin;
    if Attempts(c, m, s) && s.ok && k != i {
      assert !Stale(c, m, k);
      assert if i < k then Offset(m.twins[i]) != Offset(m.twins[k])
             else Known(m.twins[k]) ==> Offset(m.twins[k]) != Offset(m.twins[i]);
      Untouched(c, m, Apply(c, m, s), k);
    }
  }

  lemma ForcedStaysCoherent(c: Context, m: Memory, s: Step, k: nat)
    requires s.Forced? && Separate(c, m.twins) && OneTarget(c, m.twins) && Coherent(c, m) && k < |m.twins|
    ensures !Stale(c, Apply(c, m, s), k)
  {
    assert !Stale(c, m, k);
    if Attempts(c, m, s) && s.ok && Known(m.twins[k]) {
      OffsetsNameTwins(m.twins[k], s.name);
      var first := FirstNamed(m.twins, s.name);
      if Offset(m.twins[k]) == OffsetOf(s.name) && first != Some(k) {
        assert Offset(m.twins[first.value]) == Offset(m.twins[k]);
      }
    }
  }

  lemma StepStaysCoherent(c: Context, m: Memory, s: Step)
    requires !s.Direct? && !s.Simulate? && Separate(c, m.twins) && OneTarget(c, m.twins) && Coherent(c, m)
    ensures Coherent(c, Apply(c, m, s))
  {
    RunKeepsNames(c, m, [s]);
    RunNext(c, m, [], s);
    RunNothing(c, m);
    assert [] + [s] == [s];
    hide Run;
    forall k | 0 <= k < |Apply(c, m, s).twins| ensures !Stale(c, Apply(c, m, s), k) {
      if s.Deal? {
        DealStaysCoherent(c, m, s, k);
      } else if s.Forced? {
        ForcedStaysCoherent(c, m, s, k);
      } else {
        assert !Stale(c, m, k);
      }
    }
  }

  lemma StepStaysSeparate(c: Context, m: Memory, s: Step)
    requires !s.Direct? && !s.Simulate? && Separate(c, m.twins) && OneTarget(c, m.twins)
    ensures Separate(c, Apply(c, m, s).twins) && OneTarget(c, Apply(c, m, s).twins)
  {
    RunKeepsNames(c, m, [s]);
    RunNext(c, m, [], s);
    RunNothing(c, m);
    assert [] + [s] == [s];
    hide Run;
    var after := Apply(c, m, s).twins;
    assert forall i :: 0 <= i < |after| ==> after[i].propertyName == m.twins[i].propertyName;
  }

  /** As long as no write goes unacknowledged, coherence survives every run. */
  lemma {:induction false} AcknowledgedRunStaysCoherent(c: Context, m: Memory, steps: seq<Step>)
    requires Coherent(c, m) && Separate(c, m.twins) && OneTarget(c, m.twins) && Acknowledged(steps)
    ensures var m' := Run(c, m, steps); Coherent(c, m') && Separate(c, m'.twins) && OneTarget(c, m'.twins)
  {
    if steps != [] {
      var before, s := steps[..|steps| - 1], steps[|steps| - 1];
      AcknowledgedRunStaysCoherent(c, m, before);
      hide Separate, OneTarget, Coherent, Apply;
      StepStaysCoherent(c, Run(c, m, before), s);
      StepStaysSeparate(c, Run(c, m, before), s);
    }
  }

  function SetAndDeal(i: nat, v: string): seq<Step> {
    [SetDesired(i, v), Deal(i, true, false, "")]
  }

  /** A new desired value and a successful reconciliation: reported takes the value, and if
      it was not reported before, the register does too. */
  lemma AfterSetAndDeal(c: Context, m: Memory, i: nat, v: string)
    requires i < |m.twins| && Known(m.twins[i]) && !IsSimulated(c, m.twins[i]) && CStr(v) == v != ""
    ensures var m' := Run(c, m, SetAndDeal(i, v));
            && |m'.twins| == |m.twins| && m'.twins[i].propertyName == m.twins[i].propertyName
            && m'.twins[i].reported.value == Some(v)
            && (forall k :: 0 <= k < |m.twins| && k != i ==> m'.twins[k] == m.twins[k])
            && (m.twins[i].reported.value != Some(v) ==> HasValue(m', RegisterOf(c, m.twins[i]), Atoi(v)))
  {
    hide Atoi, CStr;
    RunOfTwo(c, m, SetAndDeal(i, v));
  }

  /** Two digits for different numbers, the second not the text that was there. */
  lemma TwoDigits(before: Option<string>) returns (a: string, b: string)
    ensures CStr(a) == a != "" && CStr(b) == b != "" && Atoi(a) != Atoi(b) && before != Some(b)
  {
    a, b := "1", if before == Some("2") then "3" else "2";
    CStrUnique(a, a);
    CStrUnique(b, b);
    DigitIsNumber(a, 1);
    DigitIsNumber(b, if b == "3" then 3 else 2);
  }

  lemma OffsetsShare(c: Context, t: Twin, u: Twin)
    requires Known(t) && Offset(t) == Offset(u) && !IsSimulated(c, t)
    ensures Known(u) && !IsSimulated(c, u) && RegisterOf(c, t) == RegisterOf(c, u)
  {
  }

  /** Two twins on one register: reconciling one makes the other stale. */
  lemma SharedRegisterGoesStale(c: Context, m: Memory, i: nat, j: nat) returns (steps: seq<Step>)
    requires i < j < |m.twins| && Known(m.twins[i]) && Offset(m.twins[i]) == Offset(m.twins[j])
    requires !IsSimulated(c, m.twins[i])
    ensures Acknowledged(steps) && Stale(c, Run(c, m, steps), i)
  {
    hide Run, Atoi, CStr, Offset, Known, IsSimulated, HasValue, RegisterOf, Stale;
    var a, b := TwoDigits(m.twins[j].reported.value);
    OffsetsShare(c, m.twins[i], m.twins[j]);
    AfterSetAndDeal(c, m, i, a);
    AfterSetAndDeal(c, Run(c, m, SetAndDeal(i, a)), j, b);
    RunConcat(c, m, SetAndDeal(i, a), SetAndDeal(j, b));
    steps := SetAndDeal(i, a) + SetAndDeal(j, b);
    StaleByValue(c, Run(c, m, steps), m.twins[i], i, a, Atoi(b));
  }

  lemma StaleByValue(c: Context, m: Memory, t: Twin, i: nat, v: string, n: int)
    requires i < |m.twins| && Known(t) && m.twins[i].propertyName == t.propertyName
    requires m.twins[i].reported.value == Some(v) && HasValue(m, RegisterOf(c, t), n) && Atoi(v) != n
    ensures Stale(c, m, i)
  {
  }

  lemma DigitIsNumber(s: string, n: nat)
    requires n < 10 && s == ['0' + n as char]
    ensures Atoi(s) == n
  {
    assert SkipSpace(s) == s;
    assert DigitsValue(s, 0) == DigitsValue(s[1..], n) == n;
  }

  /** A digit that means another number than n. */
  lemma OtherDigit(n: int) returns (v: string)
    ensures v != "" && CStr(v) == v && Atoi(v) != n
  {
    v := if n == 1 then "2" else "1";
    CStrUnique(v, v);
    DigitIsNumber(v, if n == 1 then 2 else 1);
  }

  /** A forced write leaves stale whichever twin of the name reports another number than the
      register of the device holds afterwards. */
  lemma ForcedLeaves(c: Context, m: Memory, name: string, v: string, k: nat)
    requires OffsetOf(name) > 0 && CStr(v) == v && k < |m.twins| && m.twins[k].propertyName == Some(name)
    requires if FirstNamed(m.twins, name) == Some(k)
             then c.direct != c.device && !HasValue(m, Register(c.device, OffsetOf(name)), Atoi(v))
             else c.direct == c.device && m.twins[k].reported.value.Some? && Atoi(m.twins[k].reported.value.value) != Atoi(v)
    ensures Acknowledged([Forced(name, v, true, "")])
    ensures Stale(c, Run(c, m, [Forced(name, v, true, "")]), k)
  {
    hide Atoi, CStr, FirstNamed;
    var s := Forced(name, v, true, "");
    RunNext(c, m, [], s);
    RunNothing(c, m);
    assert [] + [s] == [s];
    assert Run(c, m, [s]) == Apply(c, m, s);
    hide Run;
    var written := Write(m, Register(c.direct, OffsetOf(name)), Atoi(v));
    assert written.twins == m.twins;
    assert Apply(c, m, s) == Acknowledge(written, name, v, "");
  }

  /** A forced write to another endpoint than the device's: its twin is acknowledged, and its
      register on the device is not written. */
  lemma OtherTargetGoesStale(c: Context, m: Memory, i: nat) returns (steps: seq<Step>, j: nat)
    requires c.direct != c.device && i < |m.twins| && Known(m.twins[i])
    ensures Acknowledged(steps) && Stale(c, Run(c, m, steps), j)
  {
    var name, r := m.twins[i].propertyName.value, RegisterOf(c, m.twins[i]);
    var v := OtherDigit(if r in m.registers then m.registers[r] else 0);
    j := FirstNamed(m.twins, name).value;
    hide Run, Apply, Stale;
    ForcedLeaves(c, m, name, v, j);
    steps := [Forced(name, v, true, "")];
  }

  /** Two simulated twins on one register: a forced write makes the later one stale. */
  lemma SharedSimulatedGoesStale(c: Context, m: Memory, i: nat, j: nat) returns (steps: seq<Step>)
    requires c.direct == c.device && i < j < |m.twins| && Known(m.twins[i]) && Offset(m.twins[i]) == Offset(m.twins[j])
    requires m.twins[j].reported.value.Some?
    ensures Acknowledged(steps) && Stale(c, Run(c, m, steps), j)
  {
    var name := m.twins[i].propertyName.value;
    OffsetsNameTwins(m.twins[j], name);
    var v := OtherDigit(Atoi(m.twins[j].reported.value.value));
    hide Run, Apply, Stale;
    ForcedLeaves(c, m, name, v, j);
    steps := [Forced(name, v, true, "")];
  }

  /** All acknowledged runs are coherent from their start on. */
  ghost predicate StaysCoherent(c: Context, m: Memory) {
    forall steps :: Acknowledged(steps) ==> Coherent(c, Run(c, m, steps))
  }

  /** Exactly what coherence needs: to begin with it, registers apart, and one target for all
      writers. */
  lemma {:induction false} CoherenceNeeds(c: Context, m: Memory)
    ensures StaysCoherent(c, m) <==> Coherent(c, m) && Separate(c, m.twins) && OneTarget(c, m.twins)
  {
    hide Run, Apply, Stale, IsSimulated, Known, Offset;
    if Coherent(c, m) && Separate(c, m.twins) && OneTarget(c, m.twins) {
      forall steps | Acknowledged(steps) ensures Coherent(c, Run(c, m, steps)) {
        AcknowledgedRunStaysCoherent(c, m, steps);
      }
    } else if StaysCoherent(c, m) {
      RunNothing(c, m);
      assert Acknowledged([]) && Coherent(c, m);
      var steps, k := GoesStale(c, m);
      StaleIsIncoherent(c, Run(c, m, steps), k);
      assert false;
    }
  }

  lemma StaleIsIncoherent(c: Context, m: Memory, k: nat)
    requires Stale(c, m, k)
    ensures !Coherent(c, m)
  {
  }

  lemma GoesStale(c: Context, m: Memory) returns (steps: seq<Step>, k: nat)
    requires !Separate(c, m.twins) || !OneTarget(c, m.twins)
    ensures Acknowledged(steps) && Stale(c, Run(c, m, steps), k)
  {
    hide Run, Apply, Stale;
    if !OneTarget(c, m.twins) {
      var i :| 0 <= i < |m.twins| && Known(m.twins[i]);
      steps, k := OtherTargetGoesStale(c, m, i);
    } else {
      var i, j :| 0 <= i < j < |m.twins| && Known(m.twins[i]) && Offset(m.twins[i]) == Offset(m.twins[j])
               && !(IsSimulated(c, m.twins[i]) && m.twins[j].reported.value.None?);
      if IsSimulated(c, m.twins[i]) {
        k := j;
        steps := SharedSimulatedGoesStale(c, m, i, j);
      } else {
        k := i;
        steps := SharedRegisterGoesStale(c, m, i, j);
      }
    }
  }

  // -------------------------------------------------------- the lost write

  /** A new desired value and a reconciliation whose write, if any, succeeds: the caller sees
      success in every case, and the register ends up with the value unless `reported` is
      already that text and the twin is stale. */
  lemma DeliveredUnlessStale(c: Context, m: Memory, i: nat, v: string, now: string)
    requires i < |m.twins| && Known(m.twins[i]) && !IsSimulated(c, m.twins[i]) && CStr(v) != ""
    ensures var m' := Apply(c, m, SetDesired(i, v));
            var s := Deal(i, true, false, now);
            && Succeeds(c, m', s)
            && (HasValue(Apply(c, m', s), RegisterOf(c, m.twins[i]), Atoi(CStr(v)))
                <==> !(m.twins[i].reported.value == Some(CStr(v)) && Stale(c, m, i)))
  {
  }

  /** The same after any run of all writers, told from the bookkeeping alone: the value arrives
      unless it is the reported text and the run has left the twin dirty. */
  lemma {:induction false} DeliveredUnlessDirty(c: Context, m: Memory, steps: seq<Step>, i: nat, v: string, now: string)
    requires Distinct(m.twins) && i < |m.twins| && Known(m.twins[i]) && !IsSimulated(c, m.twins[i]) && CStr(v) != ""
    ensures |Run(c, m, steps).twins| == |m.twins|
    ensures var before := Run(c, m, steps);
            var after := Run(c, m, steps + [SetDesired(i, v)] + [Deal(i, true, false, now)]);
            HasValue(after, RegisterOf(c, m.twins[i]), Atoi(CStr(v)))
            <==> !(before.twins[i].reported.value == Some(CStr(v)) && i in Dirty(c, m, steps))
  {
    RunKeepsNames(c, m, steps);
    RunIsTracked(c, m, steps);
    RunNext(c, m, steps, SetDesired(i, v));
    RunNext(c, m, steps + [SetDesired(i, v)], Deal(i, true, false, now));
    DeliveredUnlessStale(c, Run(c, m, steps), i, v, now);
    assert i in StaleSet(c, Run(c, m, steps)) <==> Stale(c, Run(c, m, steps), i);
  }

  function Threshold(desired: Option<string>, reported: TwinProperty): Twin {
    Twin(Some("threshold"), Unlinked, TwinProperty(desired, NOTHING.metadata), reported)
  }

  /** Both sides of the twin say 5, the register says 7. */
  function LostMemory(c: Context, now: string): Memory {
    Memory([Threshold(Some("5"), TwinProperty(Some("5"), Metadata(Some(now), None)))],
           map[Register(c.device, 2) := 7])
  }

  function ToFive(now: string): seq<Step> {
    [SetDesired(0, "5"), Deal(0, true, false, now)]
  }

  /** A reconciliation with 7 that fails, and the fallback direct write that gets through. */
  function ToSevenDirectly(now: string): seq<Step> {
    [SetDesired(0, "7"), Deal(0, false, false, now), Direct("threshold", "7", true)]
  }

  lemma LostWriteStart(c: Context, now: string)
    requires !c.simulated
    ensures Run(c, Memory([Threshold(None, NOTHING)], map[]), ToFive(now))
         == Memory([Threshold(Some("5"), TwinProperty(Some("5"), Metadata(Some(now), None)))],
                   map[Register(c.device, 2) := 5])
  {
    CStrUnique("5", "5");
    DigitIsNumber("5", 5);
    RunOfTwo(c, Memory([Threshold(None, NOTHING)], map[]), ToFive(now));
  }

  lemma LostWriteAway(c: Context, m: Memory, now: string)
    requires c.direct == c.device && !c.simulated
    requires |m.twins| == 1 && m.twins[0] == Threshold(Some("5"), m.twins[0].reported)
    requires m.registers == map[Register(c.device, 2) := 5]
    ensures Run(c, m, ToSevenDirectly(now))
         == Memory([Threshold(Some("7"), m.twins[0].reported)], map[Register(c.device, 2) := 7])
  {
    CStrUnique("7", "7");
    DigitIsNumber("7", 7);
    var two := ToSevenDirectly(now)[..2];
    RunOfTwo(c, m, two);
    RunNext(c, m, two, Direct("threshold", "7", true));
    assert two + [Direct("threshold", "7", true)] == ToSevenDirectly(now);
  }

  lemma LostWriteBack(c: Context, m: Memory, now: string)
    requires |m.twins| == 1 && m.twins[0] == Threshold(Some("7"), m.twins[0].reported)
    requires m.twins[0].reported.value == Some("5")
    ensures Run(c, m, ToFive(now)) == Memory([Threshold(Some("5"), m.twins[0].reported)], m.registers)
  {
    CStrUnique("5", "5");
    RunOfTwo(c, m, ToFive(now));
  }

  lemma RunOfTwo(c: Context, m: Memory, steps: seq<Step>)
    requires |steps| == 2
    ensures Run(c, m, steps) == Apply(c, Apply(c, m, steps[0]), steps[1])
  {
    RunNext(c, m, [], steps[0]);
    RunNext(c, m, [] + [steps[0]], steps[1]);
    assert steps == [] + [steps[0]] + [steps[1]];
  }
}

/** What the steps of the writers leave behind, told in names, texts and numbers alone. */
module Arrivals {
  import opened CText
  import opened TextLaws
  import opened TwinSteps

  /** The twin has that name, and no earlier one has. */
  predicate FirstOfName(twins: seq<Twin>, name: string, i: nat)
    requires i < |twins|
  {
    twins[i].propertyName == Some(name) && forall j :: 0 <= j < i ==> twins[j].propertyName != Some(name)
  }

  /** A reconciliation writes exactly where the twin is called threshold, or temperature while that is
      not simulated, and wants a text that is not empty and not the reported one. */
  lemma DealWritesExactly(c: Context, m: Memory, i: nat, ok: bool, late: bool, now: string)
    requires i < |m.twins|
    ensures var t := m.twins[i];
            Attempts(c, m, Deal(i, ok, late, now)) <==>
              && (t.propertyName == Some("threshold") || (t.propertyName == Some("temperature") && !c.simulated))
              && t.observedDesired.value.Some? && |t.observedDesired.value.value| > 0
              && t.reported.value != t.observedDesired.value
    ensures Succeeds(c, m, Deal(i, ok, late, now)) <==> !late && (ok || !Attempts(c, m, Deal(i, ok, late, now)))
  {
  }

  /** A direct or forced write is attempted exactly under these two names. */
  lemma DirectWritesExactly(c: Context, m: Memory, name: string, v: string, ok: bool, now: string)
    ensures Attempts(c, m, Direct(name, v, ok)) <==> name == "temperature" || name == "threshold"
    ensures Attempts(c, m, Forced(name, v, ok, now)) <==> name == "temperature" || name == "threshold"
    ensures Succeeds(c, m, Direct(name, v, ok)) <==> ok && (name == "temperature" || name == "threshold")
    ensures Succeeds(c, m, Forced(name, v, ok, now)) <==> ok && (name == "temperature" || name == "threshold")
  {
  }

  lemma RegisterNumbers()
    ensures OffsetOf("temperature") == 1 && OffsetOf("threshold") == 2
  {
  }

  /** A reconciliation that gets through with the text of a 32-bit number leaves the number in register 1
      for the temperature and in register 2 for the threshold, and its text in `reported`. */
  lemma {:induction false} DealLeavesNumber(c: Context, m: Memory, i: nat, late: bool, now: string, n: int)
    requires i < |m.twins| && -0x8000_0000 <= n <= 0x7fff_ffff
    requires m.twins[i].propertyName == Some("threshold") || (m.twins[i].propertyName == Some("temperature") && !c.simulated)
    requires m.twins[i].observedDesired.value == Some(Decimal(n)) && m.twins[i].reported.value != Some(Decimal(n))
    ensures var m' := Apply(c, m, Deal(i, true, late, now));
            && m'.registers == m.registers[Register(c.device, if m.twins[i].propertyName == Some("threshold") then 2 else 1) := n]
            && |m'.twins| == |m.twins| && m'.twins[i].reported.value == Some(Decimal(n))
            && m'.twins[i].reported.metadata == m.twins[i].reported.metadata.(timestamp := Some(now))
            && m'.twins[i].observedDesired == m.twins[i].observedDesired
            && forall k :: 0 <= k < |m.twins| && k != i ==> m'.twins[k] == m.twins[k]
    ensures Apply(c, m, Deal(i, false, late, now)) == m
  {
    DecimalHasNoEnd(n);
    AtoiUndoesDecimal(n);
    RegisterNumbers();
    DealWritesExactly(c, m, i, true, late, now);
    hide Decimal, Atoi, Attempts;
  }

  /** So does a direct write, which changes no twin. */
  lemma {:induction false} DirectLeavesNumber(c: Context, m: Memory, name: string, n: int)
    requires (name == "temperature" || name == "threshold") && -0x8000_0000 <= n <= 0x7fff_ffff
    ensures Apply(c, m, Direct(name, Decimal(n), true))
         == Memory(m.twins, m.registers[Register(c.direct, if name == "threshold" then 2 else 1) := n])
    ensures Apply(c, m, Direct(name, Decimal(n), false)) == m
  {
    DecimalHasNoEnd(n);
    AtoiUndoesDecimal(n);
    RegisterNumbers();
    DirectWritesExactly(c, m, name, Decimal(n), true, "");
    hide Decimal, Atoi, Attempts, CStr;
  }

  /** A forced write that gets through: the first twin of the name wants and reports the text, no other
      twin changes, and the next reconciliation has nothing to write. */
  lemma {:induction false} ForcedIsNotUndone(c: Context, m: Memory, name: string, v: string, now: string, i: nat)
    requires (name == "temperature" || name == "threshold") && i < |m.twins| && FirstOfName(m.twins, name, i)
    ensures var m' := Apply(c, m, Forced(name, v, true, now));
            && |m'.twins| == |m.twins|
            && m'.twins[i].observedDesired == m.twins[i].observedDesired.(value := Some(CStr(v)))
            && m'.twins[i].reported == TwinProperty(Some(CStr(v)), m.twins[i].reported.metadata.(timestamp := Some(now)))
            && (forall k :: 0 <= k < |m.twins| && k != i ==> m'.twins[k] == m.twins[k])
            && m'.registers == m.registers[Register(c.direct, if name == "threshold" then 2 else 1) := Atoi(CStr(v))]
            && forall ok, late, then_ :: !Attempts(c, m', Deal(i, ok, late, then_))
  {
    RegisterNumbers();
    DirectWritesExactly(c, m, name, v, true, now);
    assert FirstNamed(m.twins, name) == Some(i);
    hide Atoi, CStr, FirstNamed;
    var m' := Apply(c, m, Forced(name, v, true, now));
    forall ok, late, then_ ensures !Attempts(c, m', Deal(i, ok, late, then_)) {
      DealWritesExactly(c, m', i, ok, late, then_);
    }
  }

  /** With the text of a number, the number is in the register. */
  lemma {:induction false} ForcedLeavesNumber(c: Context, m: Memory, name: string, n: int, now: string)
    requires (name == "temperature" || name == "threshold") && -0x8000_0000 <= n <= 0x7fff_ffff
    ensures Apply(c, m, Forced(name, Decimal(n), true, now)).registers
         == m.registers[Register(c.direct, if name == "threshold" then 2 else 1) := n]
    ensures Apply(c, m, Forced(name, Decimal(n), false, now)) == m
  {
    DecimalHasNoEnd(n);
    AtoiUndoesDecimal(n);
    RegisterNumbers();
    DirectWritesExactly(c, m, name, Decimal(n), true, now);
    hide Decimal, Atoi, Attempts, CStr;
  }

  /** The simulation only reports. */
  lemma SimulationReports(c: Context, m: Memory, i: nat, v: string, now: string)
    requires i < |m.twins|
    ensures var m' := Apply(c, m, Simulate(i, v, now));
            && m'.registers == m.registers && |m'.twins| == |m.twins|
            && m'.twins[i].reported.value == Some(v) && m'.twins[i].observedDesired == m.twins[i].observedDesired
            && (m.twins[i].reported.value == Some(v) ==> m'.twins[i] == m.twins[i])
            && forall k :: 0 <= k < |m.twins| && k != i ==> m'.twins[k] == m.twins[k]
  {
  }
}

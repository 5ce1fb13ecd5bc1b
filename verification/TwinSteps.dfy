/** What the three competing writers do to one device, as atomic steps on values: the
    data thread's and the server's `device_deal_twin`, the server's new desired values,
    its direct writes, and its forced writes. */
module TwinSteps {
  import opened CText

  // ------------------------------------------------------------------ data

  datatype Metadata = Metadata(timestamp: Option<string>, kind: Option<string>)

  datatype TwinProperty = TwinProperty(value: Option<string>, metadata: Metadata)

  const NOTHING := TwinProperty(None, Metadata(None, None))

  /** A twin's `property` pointer: unset, at an entry of the device's own properties array,
      or at a copy of its own. */
  datatype Link = Unlinked | Entry(index: nat) | Copy(name: Option<string>)

  datatype Twin = Twin(propertyName: Option<string>, property: Link,
                       observedDesired: TwinProperty, reported: TwinProperty)

  datatype Endpoint = Endpoint(host: string, port: int)

  datatype Register = Register(at: Endpoint, offset: int)

  /** One device's twins and the registers everybody writes. */
  datatype Memory = Memory(twins: seq<Twin>, registers: map<Register, int>)

  /** Where `device_deal_twin` writes, where direct writes go, and whether the
      temperature is simulated. */
  datatype Context = Context(device: Endpoint, direct: Endpoint, simulated: bool)

  /** The register of a property name; negative when there is none. */
  function OffsetOf(name: string): int {
    if name == "temperature" then 1
    else if name == "threshold" then 2
    else -1
  }

  function Offset(t: Twin): int {
    if t.propertyName.Some? then OffsetOf(t.propertyName.value) else -1
  }

  predicate Known(t: Twin) {
    Offset(t) > 0
  }

  predicate IsSimulated(c: Context, t: Twin) {
    c.simulated && t.propertyName == Some("temperature")
  }

  /** A twin whose desired value still has to be written. */
  predicate OutOfSync(c: Context, t: Twin) {
    && !IsSimulated(c, t)
    && t.observedDesired.value.GetOr("") != ""
    && t.reported.value != t.observedDesired.value
    && Known(t)
  }

  function Report(t: Twin, value: Option<string>, now: string): Twin {
    t.(reported := TwinProperty(value, t.reported.metadata.(timestamp := Some(now))))
  }

  function Desire(t: Twin, value: Option<string>): Twin {
    t.(observedDesired := t.observedDesired.(value := value))
  }

  /** The first twin called `name`. */
  function FirstNamed(twins: seq<Twin>, name: string): (r: Option<nat>)
    ensures r.Some? ==> r.value < |twins| && twins[r.value].propertyName == Some(name)
    ensures forall k :: 0 <= k < r.GetOr(|twins|) ==> twins[k].propertyName != Some(name)
  {
    FirstNamedFrom(twins, name, 0)
  }

  function FirstNamedFrom(twins: seq<Twin>, name: string, from: nat): (r: Option<nat>)
    requires from <= |twins|
    ensures r.Some? ==> from <= r.value < |twins| && twins[r.value].propertyName == Some(name)
    ensures forall k :: from <= k < r.GetOr(|twins|) ==> twins[k].propertyName != Some(name)
    decreases |twins| - from
  {
    if from == |twins| then None
    else if twins[from].propertyName == Some(name) then Some(from)
    else FirstNamedFrom(twins, name, from + 1)
  }

  // ----------------------------------------------------------------- steps

  /** One atomic step; `ok` is the outcome of the write, if the step attempts one, and
      `late` says that the deadline of the caller had passed when it came back. */
  datatype Step =
    | SetDesired(twin: nat, value: string)
    | Deal(twin: nat, ok: bool, late: bool, now: string)
    | Direct(name: string, value: string, ok: bool)
    | Forced(name: string, value: string, ok: bool, now: string)
    | Simulate(twin: nat, value: string, now: string)

  /** Does the step attempt a write? */
  predicate Attempts(c: Context, m: Memory, s: Step) {
    match s
    case Deal(i, _, _, _) => i < |m.twins| && OutOfSync(c, m.twins[i])
    case Direct(name, _, _) => OffsetOf(name) >= 0
    case Forced(name, _, _, _) => OffsetOf(name) >= 0
    case _ => false
  }

  function Write(m: Memory, r: Register, value: int): Memory {
    m.(registers := m.registers[r := value])
  }

  function Put(m: Memory, i: nat, t: Twin): Memory
    requires i < |m.twins|
  {
    m.(twins := m.twins[i := t])
  }

  function Apply(c: Context, m: Memory, s: Step): Memory {
    match s
    case SetDesired(i, v) =>
      if i < |m.twins| then Put(m, i, Desire(m.twins[i], Some(CStr(v)))) else m
    case Deal(i, ok, _, now) =>
      if Attempts(c, m, s) && ok then
        var t := m.twins[i];
        Put(Write(m, Register(c.device, Offset(t)), Atoi(t.observedDesired.value.value)),
            i, Report(t, t.observedDesired.value, now))
      else m
    case Direct(name, v, ok) =>
      if Attempts(c, m, s) && ok then
        Write(m, Register(c.direct, OffsetOf(name)), Atoi(CStr(v)))
      else m
    case Forced(name, v, ok, now) =>
      if Attempts(c, m, s) && ok then
        Acknowledge(Write(m, Register(c.direct, OffsetOf(name)), Atoi(CStr(v))), name, v, now)
      else m
    case Simulate(i, v, now) =>
      if i < |m.twins| && m.twins[i].reported.value != Some(v)
      then Put(m, i, Report(m.twins[i], Some(v), now)) else m
  }

  /** After a forced write the first twin of that name takes the value on both sides. */
  function Acknowledge(m: Memory, name: string, v: string, now: string): Memory {
    match FirstNamed(m.twins, name)
    case None => m
    case Some(j) => Put(m, j, Report(Desire(m.twins[j], Some(CStr(v))), Some(CStr(v)), now))
  }

  /** Did the caller see success? A deadline turns any result into failure. */
  predicate Succeeds(c: Context, m: Memory, s: Step) {
    match s
    case Deal(_, ok, late, _) => !late && (Attempts(c, m, s) ==> ok)
    case Direct(_, _, ok) => Attempts(c, m, s) && ok
    case Forced(_, _, ok, _) => Attempts(c, m, s) && ok
    case _ => false
  }

  // ------------------------------------------------------------------ runs

  /** Any interleaving of the writers is a sequence of steps. */
  function Run(c: Context, m: Memory, steps: seq<Step>): Memory {
    if steps == [] then m
    else Apply(c, Run(c, m, steps[..|steps| - 1]), steps[|steps| - 1])
  }

  function WriteAttempts(c: Context, m: Memory, steps: seq<Step>): nat {
    if steps == [] then 0
    else
      var before := steps[..|steps| - 1];
      WriteAttempts(c, m, before)
      + (if Attempts(c, Run(c, m, before), steps[|steps| - 1]) then 1 else 0)
  }

  predicate AnySuccess(c: Context, m: Memory, steps: seq<Step>) {
    steps != [] &&
    var before := steps[..|steps| - 1];
    (AnySuccess(c, m, before) || Succeeds(c, Run(c, m, before), steps[|steps| - 1]))
  }

  lemma RunNothing(c: Context, m: Memory)
    ensures Run(c, m, []) == m && WriteAttempts(c, m, []) == 0 && !AnySuccess(c, m, [])
  {
  }

  lemma RunNext(c: Context, m: Memory, steps: seq<Step>, s: Step)
    ensures Run(c, m, steps + [s]) == Apply(c, Run(c, m, steps), s)
    ensures WriteAttempts(c, m, steps + [s])
         == WriteAttempts(c, m, steps) + (if Attempts(c, Run(c, m, steps), s) then 1 else 0)
    ensures AnySuccess(c, m, steps + [s])
       <==> AnySuccess(c, m, steps) || Succeeds(c, Run(c, m, steps), s)
  {
    assert (steps + [s])[..|steps|] == steps;
  }

  lemma {:induction false} RunConcat(c: Context, m: Memory, a: seq<Step>, b: seq<Step>)
    ensures Run(c, m, a + b) == Run(c, Run(c, m, a), b)
    ensures WriteAttempts(c, m, a + b) == WriteAttempts(c, m, a) + WriteAttempts(c, Run(c, m, a), b)
    ensures AnySuccess(c, m, a + b) <==> AnySuccess(c, m, a) || AnySuccess(c, Run(c, m, a), b)
  {
    if b == [] {
      assert a + b == a;
    } else {
      var b' := b[..|b| - 1];
      RunConcat(c, m, a, b');
      assert (a + b)[..|a + b| - 1] == a + b';
    }
  }

  lemma StepKeepsNames(c: Context, m: Memory, s: Step)
    ensures |Apply(c, m, s).twins| == |m.twins|
    ensures forall i :: 0 <= i < |m.twins| ==>
              && Apply(c, m, s).twins[i].propertyName == m.twins[i].propertyName
              && Apply(c, m, s).twins[i].property == m.twins[i].property
  {
  }

  /** No step renames, relinks, adds or drops a twin. */
  lemma {:induction false} RunKeepsNames(c: Context, m: Memory, steps: seq<Step>)
    ensures |Run(c, m, steps).twins| == |m.twins|
    ensures forall i :: 0 <= i < |m.twins| ==>
              && Run(c, m, steps).twins[i].propertyName == m.twins[i].propertyName
              && Run(c, m, steps).twins[i].property == m.twins[i].property
  {
    if steps != [] {
      RunKeepsNames(c, m, steps[..|steps| - 1]);
      StepKeepsNames(c, Run(c, m, steps[..|steps| - 1]), steps[|steps| - 1]);
      hide Apply;
    }
  }
}

/** The lost write as the cloud meets it: three update calls that all answer OK. */
module LostUpdates {
  import opened Coherence
  import opened CText
  import opened Devices
  import opened Server
  import opened TwinSteps

  const THRESHOLD: string := "threshold"

  /** A request that wants one value of the threshold. */
  function Request(name: string, v: string): CloudDevice {
    CloudDevice(name, "", Some([CloudProperty(THRESHOLD, Some(v))]))
  }

  /** These are the steps of a call that finds its device, is in time, and answers OK. */
  ghost predicate AnswersOk(c: Context, m: Memory, dev: CloudDevice, env: Env, steps: seq<Step>) {
    && IsWholePath(c, m, true, true, dev, env, false, [], steps, [])
    && Verdict(c, m, true, false, [], steps, [], OK)
  }

  predicate OneThreshold(m: Memory) {
    |m.twins| == 1 && m.twins[0].propertyName == Some(THRESHOLD)
  }

  lemma ServesOne(c: Context, m: Memory, name: string, v: string, env: Env, steps: seq<Step>)
    requires OneThreshold(m) && name != "" && v != "" && env.force != Some("1")
    requires Serves(c, m, CloudProperty(THRESHOLD, Some(v)), 0, steps) && AnySuccess(c, m, steps)
    ensures AnswersOk(c, m, Request(name, v), env, steps)
  {
    var properties := [CloudProperty(THRESHOLD, Some(v))];
    RunNothing(c, m);
    assert steps[..0] == [] && steps[0..] == steps;
    assert Follows(c, m, properties, 0, steps[..0]);
    assert Follows(c, m, properties, 1, steps);
    assert [] + steps + [] == steps;
  }

  lemma FirstIsTarget(m: Memory, p: CloudProperty)
    requires OneThreshold(m) && p.name == THRESHOLD
    ensures TargetOf(m.twins, p, 0) == Some(0)
  {
  }

  /** A value and a reconciliation that comes through in time. */
  lemma FiveIsServed(c: Context, m: Memory, name: string, env: Env, now: string)
    requires OneThreshold(m) && name != "" && env.force != Some("1")
    ensures AnswersOk(c, m, Request(name, "5"), env, ToFive(now))
  {
    var steps := ToFive(now);
    FirstIsTarget(m, CloudProperty(THRESHOLD, Some("5")));
    TwoSteps(c, m, steps[0], steps[1]);
    hide TargetOf, AnySuccess, AnswersOk, Atoi, FirstNamed;
    ServesOne(c, m, name, "5", env, steps);
  }

  lemma OneStep(c: Context, m: Memory, a: Step)
    ensures Run(c, m, [a]) == Apply(c, m, a)
  {
    RunNothing(c, m);
    RunNext(c, m, [], a);
    assert [] + [a] == [a];
  }

  lemma TwoSteps(c: Context, m: Memory, a: Step, b: Step)
    ensures Run(c, m, [a, b]) == Apply(c, Apply(c, m, a), b)
    ensures Succeeds(c, Apply(c, m, a), b) ==> AnySuccess(c, m, [a, b])
  {
    hide Apply, Succeeds;
    OneStep(c, m, a);
    RunNext(c, m, [a], b);
    assert [a] + [b] == [a, b];
  }

  lemma ThreeSteps(c: Context, m: Memory, a: Step, b: Step, s: Step)
    ensures Succeeds(c, Apply(c, Apply(c, m, a), b), s) ==> AnySuccess(c, m, [a, b, s])
  {
    hide Apply, Succeeds;
    TwoSteps(c, m, a, b);
    RunNext(c, m, [a, b], s);
    assert [a, b] + [s] == [a, b, s];
  }

  /** A value whose reconciliation fails, and the direct write that gets through. */
  lemma SevenIsServed(c: Context, m: Memory, name: string, env: Env, now: string)
    requires OneThreshold(m) && name != "" && env.force != Some("1") && !c.simulated
    requires m.twins[0].reported.value == Some("5")
    ensures AnswersOk(c, m, Request(name, "7"), env, ToSevenDirectly(now))
  {
    var steps := ToSevenDirectly(now);
    CStrUnique("7", "7");
    FirstIsTarget(m, CloudProperty(THRESHOLD, Some("7")));
    ThreeSteps(c, m, steps[0], steps[1], steps[2]);
    hide TargetOf, AnySuccess, AnswersOk, Atoi, FirstNamed;
    ServesOne(c, m, name, "7", env, steps);
  }

  /** Three requests, 5 then 7 then 5 again, each answered OK. After them the device wants and
      reports 5, and its register holds 7. */
  lemma {:induction false} ThreeRequestsLoseOne(c: Context, name: string, env: Env, now: string)
    returns (first: Memory, second: Memory, third: Memory)
    requires c.direct == c.device && !c.simulated && name != "" && env.force != Some("1")
    ensures var start := Memory([Threshold(None, NOTHING)], map[]);
            && AnswersOk(c, start, Request(name, "5"), env, ToFive(now)) && first == Run(c, start, ToFive(now))
            && AnswersOk(c, first, Request(name, "7"), env, ToSevenDirectly(now)) && second == Run(c, first, ToSevenDirectly(now))
            && AnswersOk(c, second, Request(name, "5"), env, ToFive(now)) && third == Run(c, second, ToFive(now))
    ensures third == LostMemory(c, now)
  {
    hide AnswersOk;
    var start := Memory([Threshold(None, NOTHING)], map[]);
    first := Run(c, start, ToFive(now));
    second := Run(c, first, ToSevenDirectly(now));
    third := Run(c, second, ToFive(now));
    LostWriteStart(c, now);
    LostWriteAway(c, first, now);
    LostWriteBack(c, second, now);
    FiveIsServed(c, start, name, env, now);
    SevenIsServed(c, first, name, env, now);
    FiveIsServed(c, second, name, env, now);
  }
}

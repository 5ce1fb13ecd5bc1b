/** grpcserver/server.cc: the update call that brings new desired values from the cloud. */
module Server {
  import opened CText
  import opened Devices
  import opened Manager
  import opened TwinSteps

  /** A property of the request; protobuf strings may hold any character. */
  datatype CloudProperty = CloudProperty(name: string, desired: Option<string>)

  datatype CloudDevice = CloudDevice(name: string, ns: string, spec: Option<seq<CloudProperty>>)

  datatype Status = OK | INVALID_ARGUMENT | NOT_FOUND

  /** The property asks for something. */
  predicate Wanted(p: CloudProperty) {
    p.desired.GetOr("") != ""
  }

  // ------------------------------------------------------------ where it goes

  /** Twin t is the first one called so. */
  predicate FirstCalledSo(twins: seq<Twin>, name: string, t: nat)
    requires t < |twins|
  {
    twins[t].propertyName == Some(name) && forall j :: 0 <= j < t ==> twins[j].propertyName != Some(name)
  }

  predicate NoneCalledSo(twins: seq<Twin>, name: string) {
    forall j :: 0 <= j < |twins| ==> twins[j].propertyName != Some(name)
  }

  /** The desired value of the i-th property belongs to twin t. */
  predicate GoesTo(twins: seq<Twin>, name: string, i: nat, t: nat)
    requires t < |twins|
  {
    FirstCalledSo(twins, name, t) || (NoneCalledSo(twins, name) && t == i)
  }

  /** Where the desired value of the i-th property goes: the first twin of its name, else the
      twin in its place. */
  function TargetOf(twins: seq<Twin>, p: CloudProperty, i: nat): (r: Option<nat>)
    ensures r.Some? ==> r.value < |twins|
  {
    var named := FirstNamed(twins, p.name);
    if named.Some? then named else if i < |twins| then Some(i) else None
  }

  /** The desired value twin t ends up with after the first n properties: that of the last
      one that wants something and goes to t. */
  function FinalDesired(twins: seq<Twin>, properties: seq<CloudProperty>, n: nat, t: nat): Option<string>
    requires n <= |properties| && t < |twins|
  {
    if n == 0 then twins[t].observedDesired.value
    else if Sets(twins, properties, n - 1, t)
    then Some(CStr(properties[n - 1].desired.value))
    else FinalDesired(twins, properties, n - 1, t)
  }

  /** The target in terms of names. */
  lemma TargetMeans(twins: seq<Twin>, p: CloudProperty, i: nat)
    ensures forall t :: 0 <= t < |twins| ==> (TargetOf(twins, p, i) == Some(t) <==> GoesTo(twins, p.name, i, t))
    ensures TargetOf(twins, p, i).None? <==> NoneCalledSo(twins, p.name) && i >= |twins|
  {
    var named := FirstNamed(twins, p.name);
    if named.Some? {
      assert FirstCalledSo(twins, p.name, named.value);
    }
  }

  /** Targets depend on names only. */
  lemma TargetByName(a: seq<Twin>, b: seq<Twin>, p: CloudProperty, i: nat)
    requires |a| == |b| && forall k :: 0 <= k < |a| ==> a[k].propertyName == b[k].propertyName
    ensures TargetOf(a, p, i) == TargetOf(b, p, i)
  {
  }

  /** The k-th property sets the desired value of twin t: it has one that is not empty, and t is the
      first twin of its name, or stands in its place where no twin has the name. */
  predicate Sets(twins: seq<Twin>, properties: seq<CloudProperty>, k: nat, t: nat)
    requires k < |properties| && t < |twins|
  {
    && properties[k].desired.Some? && |properties[k].desired.value| > 0
    && GoesTo(twins, properties[k].name, k, t)
  }

  /** FinalDesired in so many words. */
  lemma {:induction false} LastPropertyWins(twins: seq<Twin>, properties: seq<CloudProperty>, n: nat, t: nat,
                                            last: Option<nat>)
    requires n <= |properties| && t < |twins|
    requires last.Some? ==> last.value < n && Sets(twins, properties, last.value, t)
    requires forall k :: (if last.Some? then last.value + 1 else 0) <= k < n ==> !Sets(twins, properties, k, t)
    ensures FinalDesired(twins, properties, n, t)
         == if last.Some? then Some(CStr(properties[last.value].desired.value)) else twins[t].observedDesired.value
  {
    if n > 0 && last != Some(n - 1) {
      LastPropertyWins(twins, properties, n - 1, t, last);
    }
  }

  // ------------------------------------------------------------ direct writes

  /** The target device and the registers; without a device there are no twins. */
  ghost function MemoryOf(device: Device?, plant: Plant): Memory
    reads if device == null then {} else {device, device.twins}, plant
  {
    if device == null then Memory([], plant.registers) else device.MemoryWith(plant)
  }

  /** `write_modbus_direct`. */
  method WriteDirect(name: string, value: string, env: Env, plant: Plant, ghost device: Device?, ghost c: Context)
    returns (rc: int, ghost step: Step)
    requires c.direct == DirectEndpoint(env.modbus)
    modifies plant
    ensures step.Direct? && step.name == name && step.value == value
    ensures MemoryOf(device, plant) == Apply(c, old(MemoryOf(device, plant)), step)
    ensures plant.attempts == old(plant.attempts)
                            + (if Attempts(c, old(MemoryOf(device, plant)), step) then 1 else 0)
    ensures rc == if Succeeds(c, old(MemoryOf(device, plant)), step) then 0 else -1
  {
    var offset := OffsetOf(name);
    step := Direct(name, value, false);
    if offset < 0 {
      return -1, step;
    }
    var at := DirectEndpoint(env.modbus);
    var ok := plant.Poll(Register(at, offset), Atoi(CStr(value)));
    step := Direct(name, value, ok);
    rc := if ok then 0 else -1;
  }

  /** The step writes what p asks for, forced or not. */
  predicate IsWriteOf(p: CloudProperty, s: Step, forced: bool) {
    && (if forced then s.Forced? else s.Direct?)
    && s.name == p.name && p.desired == Some(s.value)
  }

  /** The property wants that value under that name. */
  predicate Asks(p: CloudProperty, name: string, value: string) {
    p.name == name && p.desired == Some(value) && |value| > 0
  }

  predicate Quiet(properties: seq<CloudProperty>) {
    forall k :: 0 <= k < |properties| ==> properties[k].desired.None? || properties[k].desired == Some("")
  }

  /** One write for each of the first n properties that wants something, in order. */
  predicate WritesFor(properties: seq<CloudProperty>, n: nat, steps: seq<Step>, forced: bool)
    requires n <= |properties|
  {
    if n == 0 then steps == []
    else if !Wanted(properties[n - 1]) then WritesFor(properties, n - 1, steps, forced)
    else
      && steps != [] && IsWriteOf(properties[n - 1], steps[|steps| - 1], forced)
      && WritesFor(properties, n - 1, steps[..|steps| - 1], forced)
  }

  /** Every write is one that a property asks for, and all that ask get one. */
  lemma {:induction false} WritesAreWants(properties: seq<CloudProperty>, n: nat, steps: seq<Step>, forced: bool)
    requires n <= |properties| && WritesFor(properties, n, steps, forced)
    ensures forall j :: 0 <= j < |steps| ==>
              && (if forced then steps[j].Forced? else steps[j].Direct?)
              && exists k :: 0 <= k < n && Asks(properties[k], steps[j].name, steps[j].value)
    ensures forall k :: 0 <= k < n && properties[k].desired.Some? && |properties[k].desired.value| > 0 ==>
              exists j :: 0 <= j < |steps| && Asks(properties[k], steps[j].name, steps[j].value)
  {
    if n > 0 {
      var p := properties[n - 1];
      if Wanted(p) {
        WritesAreWants(properties, n - 1, steps[..|steps| - 1], forced);
        assert Asks(p, steps[|steps| - 1].name, steps[|steps| - 1].value);
      } else {
        WritesAreWants(properties, n - 1, steps, forced);
      }
    }
  }

  lemma WritesForNext(properties: seq<CloudProperty>, n: nat, steps: seq<Step>, s: Step, forced: bool)
    requires n < |properties| && Wanted(properties[n])
    requires WritesFor(properties, n, steps, forced) && IsWriteOf(properties[n], s, forced)
    ensures WritesFor(properties, n + 1, steps + [s], forced)
  {
    assert (steps + [s])[..|steps|] == steps;
  }

  /** The loop that writes every wanted property directly; it occurs in three places. */
  method DirectWrites(properties: seq<CloudProperty>, env: Env, plant: Plant, ghost device: Device?, ghost c: Context)
    returns (ok: nat, ghost steps: seq<Step>)
    requires c.direct == DirectEndpoint(env.modbus)
    modifies plant
    ensures MemoryOf(device, plant) == Run(c, old(MemoryOf(device, plant)), steps)
    ensures plant.attempts == old(plant.attempts) + WriteAttempts(c, old(MemoryOf(device, plant)), steps)
    ensures WriteAttempts(c, old(MemoryOf(device, plant)), steps) <= |properties|
    ensures WritesFor(properties, |properties|, steps, false)
    ensures ok > 0 <==> AnySuccess(c, old(MemoryOf(device, plant)), steps)
  {
    ghost var m := MemoryOf(device, plant);
    ok, steps := 0, [];
    for i := 0 to |properties|
      invariant MemoryOf(device, plant) == Run(c, m, steps)
      invariant plant.attempts == old(plant.attempts) + WriteAttempts(c, m, steps)
      invariant WriteAttempts(c, m, steps) <= i
      invariant WritesFor(properties, i, steps, false)
      invariant ok > 0 <==> AnySuccess(c, m, steps)
    {
      if !Wanted(properties[i]) {
        continue;
      }
      ghost var step;
      var rc;
      rc, step := WriteDirect(properties[i].name, properties[i].desired.value, env, plant, device, c);
      if rc == 0 {
        ok := ok + 1;
      }
      RunNext(c, m, steps, step);
      WritesForNext(properties, i, steps, step, false);
      steps := steps + [step];
    }
  }

  // ------------------------------------------------------------ the normal path

  /** `device_deal_twin_with_timeout`: a deadline that fires does not stop the work, it only
      replaces the result. */
  method DealWithTimeout(d: Device, i: nat, env: Env, plant: Plant) returns (rc: int, ghost step: Step)
    requires i < d.twins.Length
    modifies d.twins, plant
    ensures step.Deal? && step.twin == i
    ensures d.MemoryWith(plant) == Apply(d.ContextIn(env), old(d.MemoryWith(plant)), step)
    ensures plant.attempts == old(plant.attempts)
                            + (if Attempts(d.ContextIn(env), old(d.MemoryWith(plant)), step) then 1 else 0)
    ensures rc == 0 <==> Succeeds(d.ContextIn(env), old(d.MemoryWith(plant)), step)
  {
    rc, step := d.DealTwin(i, env, plant);
    var late: bool := *;
    if late {
      rc, step := -2, step.(late := true);
    }
  }

  /** The search for the target twin: by name, else by place. */
  method FindTarget(d: Device, p: CloudProperty, i: nat) returns (target: Option<nat>)
    ensures target == TargetOf(d.twins[..], p, i)
    ensures target.Some? ==> target.value < d.twins.Length && GoesTo(d.twins[..], p.name, i, target.value)
    ensures target.None? ==> NoneCalledSo(d.twins[..], p.name) && i >= d.twins.Length
  {
    TargetMeans(d.twins[..], p, i);
    for t := 0 to d.twins.Length
      invariant FirstNamed(d.twins[..], p.name) == FirstNamedFrom(d.twins[..], p.name, t)
    {
      if d.twins[t].propertyName == Some(p.name) {
        return Some(t);
      }
    }
    target := if i < d.twins.Length then Some(i) else None;
  }

  /** Reconciling and direct writes leave names and desired values alone. */
  lemma WritesKeepDesired(c: Context, m: Memory, s: Step)
    requires s.Deal? || s.Direct?
    ensures var m' := Apply(c, m, s);
            && |m'.twins| == |m.twins|
            && forall t :: 0 <= t < |m.twins| ==>
                 && m'.twins[t].propertyName == m.twins[t].propertyName
                 && m'.twins[t].observedDesired == m.twins[t].observedDesired
  {
  }

  /** A new desired value for twin t and one reconciliation. */
  method Deliver(d: Device, t: nat, value: string, env: Env, plant: Plant) returns (rc: int, ghost steps: seq<Step>)
    requires t < d.twins.Length
    modifies d.twins, plant
    ensures var c, m := d.ContextIn(env), old(d.MemoryWith(plant));
            && d.MemoryWith(plant) == Run(c, m, steps)
            && plant.attempts == old(plant.attempts) + WriteAttempts(c, m, steps)
            && WriteAttempts(c, m, steps) <= 1
            && (rc == 0 <==> AnySuccess(c, m, steps))
            && |steps| == 2 && steps[0] == SetDesired(t, value) && steps[1].Deal? && steps[1].twin == t
            && (rc == 0 <==> Succeeds(c, Apply(c, m, steps[0]), steps[1]))
    ensures forall k :: 0 <= k < d.twins.Length ==>
              && d.twins[k].propertyName == old(d.twins[k].propertyName)
              && d.twins[k].observedDesired.value
              == if k == t then Some(CStr(value)) else old(d.twins[k].observedDesired.value)
  {
    ghost var c, m := d.ContextIn(env), d.MemoryWith(plant);
    d.twins[t] := Desire(d.twins[t], Some(CStr(value)));
    ghost var first := SetDesired(t, value);
    ghost var m' := Apply(c, m, first);
    assert d.MemoryWith(plant) == m';
    ghost var step;
    rc, step := DealWithTimeout(d, t, env, plant);
    WritesKeepDesired(c, m', step);
    RunNext(c, m, [], first);
    RunNext(c, m, [] + [first], step);
    steps := [] + [first] + [step];
  }

  /** The new desired value of twin t when p goes to `target`. */
  function AfterOne(twins: seq<Twin>, p: CloudProperty, target: Option<nat>, t: nat): Option<string>
    requires t < |twins| && Wanted(p)
  {
    if target == Some(t) then Some(CStr(p.desired.value)) else twins[t].observedDesired.value
  }

  /** The steps for one wanted property: where it has a target, a new desired value and a
      reconciliation; where it has none, or the reconciliation did not succeed, a direct write. */
  predicate Serves(c: Context, m: Memory, p: CloudProperty, i: nat, steps: seq<Step>)
    requires Wanted(p)
  {
    var target := TargetOf(m.twins, p, i);
    if target.None? then |steps| == 1 && IsWriteOf(p, steps[0], false)
    else
      && |steps| >= 2 && steps[0] == SetDesired(target.value, p.desired.value)
      && steps[1].Deal? && steps[1].twin == target.value
      && (if Succeeds(c, Apply(c, m, steps[0]), steps[1]) then |steps| == 2
          else |steps| == 3 && IsWriteOf(p, steps[2], false))
  }

  /** The steps of the loop over the first n properties. */
  ghost predicate Follows(c: Context, m: Memory, properties: seq<CloudProperty>, n: nat, steps: seq<Step>)
    requires n <= |properties|
  {
    if n == 0 then steps == []
    else if !Wanted(properties[n - 1]) then Follows(c, m, properties, n - 1, steps)
    else
      exists cut: nat :: cut <= |steps| && Follows(c, m, properties, n - 1, steps[..cut])
                      && Serves(c, Run(c, m, steps[..cut]), properties[n - 1], n - 1, steps[cut..])
  }

  lemma FollowsStart(c: Context, m: Memory, properties: seq<CloudProperty>)
    ensures Follows(c, m, properties, 0, [])
  {
  }

  lemma FollowsQuiet(c: Context, m: Memory, properties: seq<CloudProperty>, n: nat, steps: seq<Step>)
    requires n < |properties| && !Wanted(properties[n]) && Follows(c, m, properties, n, steps)
    ensures Follows(c, m, properties, n + 1, steps)
  {
  }

  lemma {:induction false} FollowsNext(c: Context, m: Memory, properties: seq<CloudProperty>, n: nat, steps: seq<Step>, more: seq<Step>)
    requires n < |properties| && Wanted(properties[n]) && Follows(c, m, properties, n, steps)
    requires Serves(c, Run(c, m, steps), properties[n], n, more)
    ensures Follows(c, m, properties, n + 1, steps + more)
  {
    hide Run, Serves;
    var all := steps + more;
    assert all[..|steps|] == steps && all[|steps|..] == more;
  }

  /** One wanted property of the request on a device that was found. */
  method ApplyOne(d: Device, p: CloudProperty, i: nat, env: Env, plant: Plant)
    returns (updated: bool, fallback: bool, ghost steps: seq<Step>)
    requires Wanted(p)
    modifies d.twins, plant
    ensures var c, m := d.ContextIn(env), old(d.MemoryWith(plant));
            && d.MemoryWith(plant) == Run(c, m, steps)
            && plant.attempts == old(plant.attempts) + WriteAttempts(c, m, steps)
            && WriteAttempts(c, m, steps) <= 2
            && (updated || fallback <==> AnySuccess(c, m, steps))
            && Serves(c, m, p, i, steps)
    ensures forall t :: 0 <= t < d.twins.Length ==>
              && d.twins[t].propertyName == old(d.twins[t].propertyName)
              && d.twins[t].observedDesired.value
              == AfterOne(old(d.twins[..]), p, TargetOf(old(d.twins[..]), p, i), t)
  {
    hide Run, AnySuccess, WriteAttempts, Attempts, Succeeds, TargetOf, Apply;
    ghost var c, m := d.ContextIn(env), d.MemoryWith(plant);
    updated, fallback, steps := false, false, [];
    RunNothing(c, m);
    var target := FindTarget(d, p, i);
    var rc := -1;
    if target.Some? {
      rc, steps := Deliver(d, target.value, p.desired.value, env, plant);
    }
    if rc == 0 {
      updated := true;
    } else {
      ghost var step;
      rc, step := WriteDirect(p.name, p.desired.value, env, plant, d, c);
      WritesKeepDesired(c, Run(c, m, steps), step);
      RunNext(c, m, steps, step);
      steps := steps + [step];
      fallback := rc == 0;
    }
  }

  /** What the loop over the properties has done to the device so far. */
  ghost predicate Applied(before: seq<Twin>, now: seq<Twin>, properties: seq<CloudProperty>, n: nat)
    requires n <= |properties|
  {
    && |now| == |before|
    && forall t :: 0 <= t < |before| ==>
         && now[t].propertyName == before[t].propertyName
         && now[t].observedDesired.value == FinalDesired(before, properties, n, t)
  }

  lemma AppliedStart(twins: seq<Twin>, properties: seq<CloudProperty>)
    ensures Applied(twins, twins, properties, 0)
  {
  }

  lemma AppliedNext(before: seq<Twin>, now: seq<Twin>, after: seq<Twin>, properties: seq<CloudProperty>, n: nat)
    requires n < |properties| && Applied(before, now, properties, n) && |after| == |now|
    requires if Wanted(properties[n])
             then forall t :: 0 <= t < |now| ==>
                    && after[t].propertyName == now[t].propertyName
                    && after[t].observedDesired.value
                    == AfterOne(now, properties[n], TargetOf(now, properties[n], n), t)
             else after == now
    ensures Applied(before, after, properties, n + 1)
  {
    var p := properties[n];
    TargetByName(before, now, p, n);
    TargetMeans(before, p, n);
    hide TargetOf, GoesTo;
    forall t | 0 <= t < |before|
      ensures after[t].propertyName == before[t].propertyName
      ensures after[t].observedDesired.value == FinalDesired(before, properties, n + 1, t)
    {
      assert Sets(before, properties, n, t) <==> Wanted(p) && TargetOf(before, p, n) == Some(t);
    }
  }

  /** The loop over the properties of a device that was found. */
  method ApplyAll(d: Device, properties: seq<CloudProperty>, env: Env, plant: Plant)
    returns (rc: int, ghost steps: seq<Step>)
    modifies d.twins, plant
    ensures var c, m := d.ContextIn(env), old(d.MemoryWith(plant));
            && d.MemoryWith(plant) == Run(c, m, steps)
            && plant.attempts == old(plant.attempts) + WriteAttempts(c, m, steps)
            && WriteAttempts(c, m, steps) <= 2 * |properties|
            && rc == (if AnySuccess(c, m, steps) then 0 else -1)
            && Follows(c, m, properties, |properties|, steps)
    ensures Applied(old(d.twins[..]), d.twins[..], properties, |properties|)
  {
    hide Run, WriteAttempts, AnySuccess, TargetOf, Serves, Applied, FinalDesired, AfterOne, Follows, DeviceEndpoint, DirectEndpoint, SimulationOn;
    ghost var c, m := d.ContextIn(env), d.MemoryWith(plant);
    var updated, fallbackOk := 0, 0;
    steps := [];
    RunNothing(c, m);
    AppliedStart(m.twins, properties);
    FollowsStart(c, m, properties);
    for i := 0 to |properties|
      invariant 0 <= updated && 0 <= fallbackOk
      invariant d.MemoryWith(plant) == Run(c, m, steps)
      invariant plant.attempts == old(plant.attempts) + WriteAttempts(c, m, steps)
      invariant WriteAttempts(c, m, steps) <= 2 * i
      invariant updated > 0 || fallbackOk > 0 <==> AnySuccess(c, m, steps)
      invariant Follows(c, m, properties, i, steps)
      invariant Applied(m.twins, d.twins[..], properties, i)
    {
      ghost var now := d.twins[..];
      if !Wanted(properties[i]) {
        AppliedNext(m.twins, now, now, properties, i);
        FollowsQuiet(c, m, properties, i, steps);
        continue;
      }
      ghost var more;
      var u, f;
      u, f, more := ApplyOne(d, properties[i], i, env, plant);
      AppliedNext(m.twins, now, d.twins[..], properties, i);
      RunConcat(c, m, steps, more);
      FollowsNext(c, m, properties, i, steps, more);
      steps := steps + more;
      updated := updated + (if u then 1 else 0);
      fallbackOk := fallbackOk + (if f then 1 else 0);
    }
    rc := if updated > 0 || fallbackOk > 0 then 0 else -1;
  }

  // ------------------------------------------------------------ the whole call

  /** The local device of the request: by name, else by namespace/name. */
  ghost function TargetDevice(mgr: DeviceManager?, dev: CloudDevice): Device?
    requires mgr != null ==> mgr.Valid()
    reads if mgr == null then {} else {mgr, mgr.devices}
  {
    if mgr == null then null
    else
      var names := NamesOf(mgr.Contents());
      var byName := Lookup(names, CStr(dev.name));
      if byName.Some? then DeviceAt(mgr.Contents(), byName)
      else if dev.ns != "" then DeviceAt(mgr.Contents(), Lookup(names, CStr(dev.ns + "/" + dev.name)))
      else null
  }

  /** The i-th device is the first one called so. */
  predicate FirstDeviceCalled(devices: seq<Device?>, name: string, i: nat)
    requires i < |devices|
  {
    && devices[i] != null && devices[i].name == Some(name)
    && forall j :: 0 <= j < i ==> devices[j] == null || devices[j].name != Some(name)
  }

  predicate NoDeviceCalled(devices: seq<Device?>, name: string) {
    forall j :: 0 <= j < |devices| ==> devices[j] == null || devices[j].name != Some(name)
  }

  /** Which device a request means, for a name without dots and slashes and a namespace without dots:
      the first one of that name; else, where the namespace is not empty, the first one called
      namespace/name; else none. */
  lemma DeviceMeant(mgr: DeviceManager, dev: CloudDevice, i: nat)
    requires mgr.Valid()
    requires NulFree(dev.name) && NulFree(dev.ns)
    requires Free(dev.name, '.') && Free(dev.name, '/') && Free(dev.ns, '.')
    ensures var ds, key := mgr.Contents(), dev.ns + "/" + dev.name;
            && (i < |ds| && FirstDeviceCalled(ds, dev.name, i) ==> TargetDevice(mgr, dev) == ds[i])
            && (NoDeviceCalled(ds, dev.name) ==>
                  && (dev.ns == "" || NoDeviceCalled(ds, key) ==> TargetDevice(mgr, dev) == null)
                  && (dev.ns != "" && i < |ds| && FirstDeviceCalled(ds, key, i) ==> TargetDevice(mgr, dev) == ds[i]))
  {
    var ds, key := mgr.Contents(), dev.ns + "/" + dev.name;
    var names := NamesOf(ds);
    CStrUnique(dev.name, dev.name);
    CStrUnique(key, key);
    hide CStr, Lookup;
    if i < |ds| && FirstDeviceCalled(ds, dev.name, i) {
      WholeIdWins(names, dev.name, i);
    }
    if NoDeviceCalled(ds, dev.name) {
      PlainIdHasNoPart(names, dev.name);
      if NoDeviceCalled(ds, key) {
        assert dev.ns + ['/'] + dev.name == key;
        LastPartDecides(names, dev.ns, '/', dev.name);
      } else if i < |ds| && FirstDeviceCalled(ds, key, i) {
        WholeIdWins(names, key, i);
      }
    }
  }

  method Locate(mgr: DeviceManager?, dev: CloudDevice) returns (device: Device?)
    requires mgr != null ==> mgr.Valid()
    ensures device == TargetDevice(mgr, dev)
  {
    device := null;
    if mgr != null {
      device := mgr.Get(CStr(dev.name));
      if device == null && dev.ns != "" {
        device := mgr.Get(CStr(dev.ns + "/" + dev.name));
      }
    }
  }

  ghost function ContextOf(device: Device?, env: Env): Context
  {
    if device == null then Context(DirectEndpoint(env.modbus), DirectEndpoint(env.modbus), SimulationOn(env))
    else device.ContextIn(env)
  }

  ghost function TwinsOf(device: Device?): set<object>
    reads device
  {
    if device == null then {} else {device.twins}
  }

  /** The local update after a forced write got through. */
  method AcknowledgeTwin(d: Device, name: string, value: string, ghost plant: Plant) returns (ghost now: string)
    modifies d.twins
    ensures d.MemoryWith(plant) == Acknowledge(old(d.MemoryWith(plant)), name, value, now)
  {
    now := "";
    for t := 0 to d.twins.Length
      invariant d.twins[..] == old(d.twins[..])
      invariant FirstNamed(d.twins[..], name) == FirstNamedFrom(d.twins[..], name, t)
    {
      if d.twins[t].propertyName == Some(name) {
        var time: string := *;
        now := time;
        d.twins[t] := Report(Desire(d.twins[t], Some(CStr(value))), Some(CStr(value)), time);
        return;
      }
    }
  }

  /** A forced write is a direct write that is then acknowledged if it succeeded. */
  lemma ForcedIsDirect(c: Context, m: Memory, name: string, value: string, ok: bool, now: string)
    ensures var direct, forced := Direct(name, value, ok), Forced(name, value, ok, now);
            && (Attempts(c, m, forced) <==> Attempts(c, m, direct))
            && (Succeeds(c, m, forced) <==> Succeeds(c, m, direct))
            && Apply(c, m, forced)
            == (if Succeeds(c, m, direct) then Acknowledge(Apply(c, m, direct), name, value, now) else Apply(c, m, direct))
            && (m.twins == [] ==> Apply(c, m, forced) == Apply(c, m, direct))
  {
  }

  /** One property on the forced path. */
  method ForceOne(mgr: DeviceManager?, dev: CloudDevice, p: CloudProperty, env: Env, plant: Plant,
                  ghost device: Device?)
    returns (rc: int, ghost step: Step)
    requires (mgr != null ==> mgr.Valid()) && device == TargetDevice(mgr, dev) && Wanted(p)
    modifies plant, TwinsOf(device)
    ensures (mgr != null ==> mgr.Valid()) && device == TargetDevice(mgr, dev)
    ensures IsWriteOf(p, step, true)
    ensures var c, m := ContextOf(device, env), old(MemoryOf(device, plant));
            && MemoryOf(device, plant) == Apply(c, m, step)
            && plant.attempts == old(plant.attempts) + (if Attempts(c, m, step) then 1 else 0)
            && (rc == 0 <==> Succeeds(c, m, step))
  {
    hide Apply, Attempts, Succeeds, Acknowledge, DirectEndpoint;
    ghost var c, m := ContextOf(device, env), MemoryOf(device, plant);
    var name, value := p.name, p.desired.value;
    ghost var direct, now := Direct("", "", false), "";
    rc, direct := WriteDirect(name, value, env, plant, device, c);
    if rc == 0 {
      var local := Locate(mgr, dev);
      if local != null {
        now := AcknowledgeTwin(local, name, value, plant);
      }
    }
    step := Forced(name, value, direct.ok, now);
    ForcedIsDirect(c, m, name, value, direct.ok, now);
  }

  /** The forced path. */
  method ForceAll(mgr: DeviceManager?, dev: CloudDevice, properties: seq<CloudProperty>, env: Env, plant: Plant,
                  ghost device: Device?)
    returns (ok: nat, ghost steps: seq<Step>)
    requires (mgr != null ==> mgr.Valid()) && device == TargetDevice(mgr, dev)
    modifies plant, TwinsOf(device)
    ensures (mgr != null ==> mgr.Valid()) && device == TargetDevice(mgr, dev)
    ensures var c, m := ContextOf(device, env), old(MemoryOf(device, plant));
            && MemoryOf(device, plant) == Run(c, m, steps)
            && plant.attempts == old(plant.attempts) + WriteAttempts(c, m, steps)
            && WriteAttempts(c, m, steps) <= |properties|
            && WritesFor(properties, |properties|, steps, true)
            && (ok > 0 <==> AnySuccess(c, m, steps))
  {
    hide Run, WriteAttempts, AnySuccess, Attempts, Succeeds, TargetDevice, ContextOf;
    ghost var c, m := ContextOf(device, env), MemoryOf(device, plant);
    ok, steps := 0, [];
    RunNothing(c, m);
    for i := 0 to |properties|
      invariant (mgr != null ==> mgr.Valid()) && device == TargetDevice(mgr, dev)
      invariant MemoryOf(device, plant) == Run(c, m, steps)
      invariant plant.attempts == old(plant.attempts) + WriteAttempts(c, m, steps)
      invariant WriteAttempts(c, m, steps) <= i
      invariant WritesFor(properties, i, steps, true)
      invariant ok > 0 <==> AnySuccess(c, m, steps)
    {
      if !Wanted(properties[i]) {
        continue;
      }
      ghost var step;
      var rc;
      rc, step := ForceOne(mgr, dev, properties[i], env, plant, device);
      if rc == 0 {
        ok := ok + 1;
      }
      RunNext(c, m, steps, step);
      WritesForNext(properties, i, steps, step, true);
      steps := steps + [step];
    }
  }

  /** The steps of the normal path: none without a name, the loop over the properties for a device
      that is found, and direct writes where there is no device or no manager. */
  ghost predicate IsNormalPath(c: Context, m: Memory, managed: bool, found: bool, dev: CloudDevice, steps: seq<Step>) {
    var properties := dev.spec.GetOr([]);
    if managed && dev.name == "" then steps == []
    else if managed && found then Follows(c, m, properties, |properties|, steps)
    else WritesFor(properties, |properties|, steps, false)
  }

  /** `apply_desired_to_device`. */
  method ApplyDesired(mgr: DeviceManager?, dev: CloudDevice, env: Env, plant: Plant, ghost device: Device?)
    returns (rc: int, ghost steps: seq<Step>)
    requires (mgr != null ==> mgr.Valid()) && device == TargetDevice(mgr, dev)
    modifies plant, TwinsOf(device)
    ensures (mgr != null ==> mgr.Valid()) && device == TargetDevice(mgr, dev)
    ensures var c, m := ContextOf(device, env), old(MemoryOf(device, plant));
            && MemoryOf(device, plant) == Run(c, m, steps)
            && plant.attempts == old(plant.attempts) + WriteAttempts(c, m, steps)
            && WriteAttempts(c, m, steps) <= 2 * |dev.spec.GetOr([])|
            && IsNormalPath(c, m, mgr != null, device != null, dev, steps)
            && rc == (if AnySuccess(c, m, steps) then 0 else -1)
    ensures device != null && dev.name != "" ==>
              Applied(old(MemoryOf(device, plant)).twins, MemoryOf(device, plant).twins,
                      dev.spec.GetOr([]), |dev.spec.GetOr([])|)
  {
    ghost var c := ContextOf(device, env);
    var properties := dev.spec.GetOr([]);
    var ok;
    if mgr == null {
      ok, steps := DirectWrites(properties, env, plant, device, c);
      rc := if ok > 0 then 0 else -1;
      return;
    }
    if dev.name == "" {
      return -1, [];
    }
    var local := Locate(mgr, dev);
    if local == null {
      ok, steps := DirectWrites(properties, env, plant, device, c);
      rc := if ok > 0 then 0 else -1;
      return;
    }
    rc, steps := ApplyAll(local, properties, env, plant);
  }

  /** What the normal path and the fallback answer together. */
  ghost predicate Answer(c: Context, m: Memory, spec: Option<seq<CloudProperty>>, late: bool,
                         applied: seq<Step>, fallback: seq<Step>, status: Status) {
    && status != INVALID_ARGUMENT
    && (status == NOT_FOUND <==>
        && spec.Some?
        && (late || !AnySuccess(c, m, applied))
        && !AnySuccess(c, Run(c, m, applied), fallback))
    && (if spec.Some? && (late || !AnySuccess(c, m, applied))
        then WritesFor(spec.value, |spec.value|, fallback, false) else fallback == [])
  }

  /** The normal path under its deadline, and the fallback when it did not succeed. */
  method ApplyOrFallBack(mgr: DeviceManager?, dev: CloudDevice, env: Env, plant: Plant, ghost device: Device?)
    returns (status: Status, ghost late: bool, ghost applied: seq<Step>, ghost fallback: seq<Step>)
    requires (mgr != null ==> mgr.Valid()) && device == TargetDevice(mgr, dev)
    modifies plant, TwinsOf(device)
    ensures var c, m := ContextOf(device, env), old(MemoryOf(device, plant));
            && MemoryOf(device, plant) == Run(c, m, applied + fallback)
            && plant.attempts == old(plant.attempts) + WriteAttempts(c, m, applied + fallback)
            && WriteAttempts(c, m, applied + fallback) <= 3 * |dev.spec.GetOr([])|
            && IsNormalPath(c, m, mgr != null, device != null, dev, applied)
            && Answer(c, m, dev.spec, late, applied, fallback, status)
  {
    ghost var c, m := ContextOf(device, env), MemoryOf(device, plant);
    var rc;
    rc, applied := ApplyDesired(mgr, dev, env, plant, device);
    fallback := [];
    var fired: bool := *;
    late := fired;
    if fired {
      rc := -2;
    }
    status := OK;
    if rc != 0 && dev.spec.Some? {
      var ok;
      ok, fallback := DirectWrites(dev.spec.value, env, plant, device, c);
      status := if ok > 0 then OK else NOT_FOUND;
    }
    RunConcat(c, m, applied, fallback);
  }

  /** The steps of the forced path: writes where they are asked for. */
  predicate IsForcedPath(dev: CloudDevice, env: Env, forced: seq<Step>) {
    if env.force == Some("1") && dev.spec.Some?
    then WritesFor(dev.spec.value, |dev.spec.value|, forced, true) else forced == []
  }

  /** Which steps the whole call takes: the forced path; without success there, the normal path;
      and without success in time there, direct writes. */
  ghost predicate IsWholePath(c: Context, m: Memory, managed: bool, found: bool, dev: CloudDevice, env: Env, late: bool,
                              forced: seq<Step>, applied: seq<Step>, fallback: seq<Step>) {
    && IsForcedPath(dev, env, forced)
    && (if AnySuccess(c, m, forced) then applied == fallback == []
        else
          var m' := Run(c, m, forced);
          && IsNormalPath(c, m', managed, found, dev, applied)
          && (if dev.spec.Some? && (late || !AnySuccess(c, m', applied))
              then WritesFor(dev.spec.value, |dev.spec.value|, fallback, false) else fallback == []))
  }

  /** The forced path, the normal path under a deadline, and the fallback. `late` says whether the
      outer deadline fired. In all cases at most four writes are attempted for each property.
      Unless the deadline fires, the answer is NOT_FOUND exactly when nothing succeeded in the
      call; when it fires, a success of the normal path is not seen. */
  method Update(mgr: DeviceManager?, dev: CloudDevice, env: Env, plant: Plant, ghost device: Device?)
    returns (status: Status, ghost late: bool,
             ghost forced: seq<Step>, ghost applied: seq<Step>, ghost fallback: seq<Step>)
    requires (mgr != null ==> mgr.Valid()) && device == TargetDevice(mgr, dev)
    modifies plant, TwinsOf(device)
    ensures var c, m := ContextOf(device, env), old(MemoryOf(device, plant));
            && MemoryOf(device, plant) == Run(c, m, forced + applied + fallback)
            && plant.attempts == old(plant.attempts) + WriteAttempts(c, m, forced + applied + fallback)
            && WriteAttempts(c, m, forced + applied + fallback) <= 4 * |dev.spec.GetOr([])|
            && IsWholePath(c, m, mgr != null, device != null, dev, env, late, forced, applied, fallback)
            && Verdict(c, m, dev.spec.Some?, late, forced, applied, fallback, status)
  {
    hide Run, WriteAttempts, AnySuccess, IsNormalPath, WritesFor, Answer, Verdict, IsForcedPath, IsWholePath, TargetDevice, ContextOf;
    ghost var c, m := ContextOf(device, env), MemoryOf(device, plant);
    var ok;
    ok, forced := TryForced(mgr, dev, env, plant, device);
    if ok > 0 {
      ForcedDecides(c, m, mgr != null, device != null, dev, env, forced);
      return OK, false, forced, [], [];
    }
    status, late, applied, fallback := ApplyOrFallBack(mgr, dev, env, plant, device);
    Compose(c, m, mgr != null, device != null, dev, env, late, forced, applied, fallback, status);
  }

  /** The forced path, where the environment asks for it. */
  method TryForced(mgr: DeviceManager?, dev: CloudDevice, env: Env, plant: Plant, ghost device: Device?)
    returns (ok: nat, ghost forced: seq<Step>)
    requires (mgr != null ==> mgr.Valid()) && device == TargetDevice(mgr, dev)
    modifies plant, TwinsOf(device)
    ensures (mgr != null ==> mgr.Valid()) && device == TargetDevice(mgr, dev)
    ensures var c, m := ContextOf(device, env), old(MemoryOf(device, plant));
            && MemoryOf(device, plant) == Run(c, m, forced)
            && plant.attempts == old(plant.attempts) + WriteAttempts(c, m, forced)
            && WriteAttempts(c, m, forced) <= |dev.spec.GetOr([])|
            && IsForcedPath(dev, env, forced)
            && (ok > 0 <==> AnySuccess(c, m, forced))
  {
    ok, forced := 0, [];
    if env.force == Some("1") && dev.spec.Some? {
      ok, forced := ForceAll(mgr, dev, dev.spec.value, env, plant, device);
    }
  }

  lemma {:induction false} QuietFollows(c: Context, m: Memory, properties: seq<CloudProperty>, n: nat, steps: seq<Step>)
    requires n <= |properties| && Quiet(properties) && Follows(c, m, properties, n, steps)
    ensures steps == []
  {
    if n > 0 {
      QuietFollows(c, m, properties, n - 1, steps);
    }
  }

  lemma {:induction false} QuietWrites(properties: seq<CloudProperty>, n: nat, steps: seq<Step>, forced: bool)
    requires n <= |properties| && Quiet(properties) && WritesFor(properties, n, steps, forced)
    ensures steps == []
  {
    if n > 0 {
      QuietWrites(properties, n - 1, steps, forced);
    }
  }

  /** A request that wants nothing takes no step on any path. */
  lemma QuietRequest(c: Context, m: Memory, managed: bool, found: bool, dev: CloudDevice, env: Env, late: bool,
                     forced: seq<Step>, applied: seq<Step>, fallback: seq<Step>)
    requires Quiet(dev.spec.GetOr([])) && IsWholePath(c, m, managed, found, dev, env, late, forced, applied, fallback)
    ensures forced == applied == fallback == []
  {
    var properties := dev.spec.GetOr([]);
    if forced != [] { QuietWrites(properties, |properties|, forced, true); }
    if fallback != [] { QuietWrites(properties, |properties|, fallback, false); }
    if applied != [] {
      if managed && found {
        QuietFollows(c, Run(c, m, forced), properties, |properties|, applied);
      } else {
        QuietWrites(properties, |properties|, applied, false);
      }
    }
  }

  /** `UpdateDevice`: a request without a device is refused and touches nothing. */
  method UpdateDevice(mgr: DeviceManager?, request: Option<CloudDevice>, env: Env, plant: Plant,
                      ghost device: Device?)
    returns (status: Status, ghost late: bool,
             ghost forced: seq<Step>, ghost applied: seq<Step>, ghost fallback: seq<Step>)
    requires mgr != null ==> mgr.Valid()
    requires device == if request.Some? then TargetDevice(mgr, request.value) else null
    modifies plant, TwinsOf(device)
    ensures request.None? <==> status == INVALID_ARGUMENT
    ensures request.None? ==> plant.registers == old(plant.registers) && plant.attempts == old(plant.attempts)
    ensures request.Some? ==>
              var c, m := ContextOf(device, env), old(MemoryOf(device, plant));
              && MemoryOf(device, plant) == Run(c, m, forced + applied + fallback)
              && plant.attempts == old(plant.attempts) + WriteAttempts(c, m, forced + applied + fallback)
              && WriteAttempts(c, m, forced + applied + fallback) <= 4 * |request.value.spec.GetOr([])|
              && IsWholePath(c, m, mgr != null, device != null, request.value, env, late, forced, applied, fallback)
              && Verdict(c, m, request.value.spec.Some?, late, forced, applied, fallback, status)
  {
    if request.None? {
      return INVALID_ARGUMENT, false, [], [], [];
    }
    status, late, forced, applied, fallback := Update(mgr, request.value, env, plant, device);
  }

  /** The answer after a forced path with a success is the answer of the call. */
  lemma ForcedDecides(c: Context, m: Memory, managed: bool, found: bool, dev: CloudDevice, env: Env, forced: seq<Step>)
    requires AnySuccess(c, m, forced) && IsForcedPath(dev, env, forced)
    requires WriteAttempts(c, m, forced) <= |dev.spec.GetOr([])|
    ensures forced + [] + [] == forced
    ensures WriteAttempts(c, m, forced + [] + []) <= 4 * |dev.spec.GetOr([])|
    ensures IsWholePath(c, m, managed, found, dev, env, false, forced, [], [])
    ensures Verdict(c, m, dev.spec.Some?, false, forced, [], [], OK)
  {
    assert forced + [] + [] == forced;
  }

  /** The answer after a forced path without success is the answer of the call. */
  lemma Compose(c: Context, m: Memory, managed: bool, found: bool, dev: CloudDevice, env: Env, late: bool,
                forced: seq<Step>, applied: seq<Step>, fallback: seq<Step>, status: Status)
    requires !AnySuccess(c, m, forced) && IsForcedPath(dev, env, forced)
    requires WriteAttempts(c, m, forced) <= |dev.spec.GetOr([])|
    requires IsNormalPath(c, Run(c, m, forced), managed, found, dev, applied)
    requires WriteAttempts(c, Run(c, m, forced), applied + fallback) <= 3 * |dev.spec.GetOr([])|
    requires Answer(c, Run(c, m, forced), dev.spec, late, applied, fallback, status)
    ensures Verdict(c, m, dev.spec.Some?, late, forced, applied, fallback, status)
    ensures IsWholePath(c, m, managed, found, dev, env, late, forced, applied, fallback)
    ensures Run(c, m, forced + applied + fallback) == Run(c, Run(c, m, forced), applied + fallback)
    ensures WriteAttempts(c, m, forced + applied + fallback)
         == WriteAttempts(c, m, forced) + WriteAttempts(c, Run(c, m, forced), applied + fallback)
    ensures WriteAttempts(c, m, forced + applied + fallback) <= 4 * |dev.spec.GetOr([])|
  {
    hide Run, WriteAttempts, AnySuccess, WritesFor, IsNormalPath;
    RunConcat(c, m, forced, applied);
    RunConcat(c, m, forced + applied, fallback);
    RunConcat(c, Run(c, m, forced), applied, fallback);
  }

  /** What the answer to a request with a device says. */
  ghost predicate Verdict(c: Context, m: Memory, hasSpec: bool, late: bool,
                          forced: seq<Step>, applied: seq<Step>, fallback: seq<Step>, status: Status) {
    && status != INVALID_ARGUMENT
    && (!hasSpec ==> status == OK)
    && (hasSpec && !late ==> (status == NOT_FOUND <==> !AnySuccess(c, m, forced + applied + fallback)))
    && (hasSpec && late ==>
          (status == NOT_FOUND
           <==> !AnySuccess(c, m, forced) && !AnySuccess(c, Run(c, m, forced + applied), fallback)))
  }
}

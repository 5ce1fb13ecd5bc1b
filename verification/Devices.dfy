/** device/device.c and device/devicestatus.c: a device whose twins, status and running flag
    are changed in place, and the Modbus side it writes to. */
module Devices {
  import opened CText
  import opened HostText
  import opened JsonScan
  import opened Linking
  import opened Passes
  import opened TextLaws
  import opened TwinSteps
  import opened Wave

  // ------------------------------------------------------------ surroundings

  /** The environment variables read on the way to a register. */
  datatype Env = Env(modbus: ModbusEnv, simulate: Option<CString>, force: Option<CString>)

  /** `sim_temperature_enabled`. */
  predicate SimulationOn(env: Env) {
    env.simulate.Some? && env.simulate.value != "" &&
    var v := env.simulate.value;
    v[0] == '1' || SameIgnoringCase(v, "true") || SameIgnoringCase(v, "on")
  }

  /** The simulation is on for a text that begins with 1, and for true and on in letters of either case. */
  lemma SimulationMeans(env: Env)
    ensures SimulationOn(env) <==>
              env.simulate.Some?
              && ((|env.simulate.value| > 0 && env.simulate.value[0] == '1')
                  || SaysTrue(env.simulate.value) || SaysOn(env.simulate.value))
  {
    if env.simulate.Some? {
      TrueInAnyCase(env.simulate.value);
      OnInAnyCase(env.simulate.value);
    }
  }

  /** The registers behind `mbpoll`; whether a write gets through is not ours to know. */
  class Plant {
    var registers: map<Register, int>
    var attempts: nat

    constructor ()
      ensures registers == map[] && attempts == 0
    {
      registers, attempts := map[], 0;
    }

    method Poll(r: Register, value: int) returns (ok: bool)
      modifies this
      ensures attempts == old(attempts) + 1
      ensures registers == if ok then old(registers)[r := value] else old(registers)
    {
      attempts := attempts + 1;
      ok := *;
      if ok {
        registers := registers[r := value];
      }
    }
  }

  // ------------------------------------------------------- where a write goes

  const DEFAULT_IP: CString := "127.0.0.1"

  /** The `ip` of the protocol configuration as scanned and cleaned. */
  function ConfiguredIp(config: Option<CString>): string {
    if config.None? then DEFAULT_IP
    else AfterEscapes(ValueOf(config.value, "ip", 63).GetOr(DEFAULT_IP))
  }

  /** The endpoint `device_deal_twin` writes to. */
  function DeviceEndpoint(config: Option<CString>, env: ModbusEnv): Endpoint {
    Endpoint(NormalHost(Some(ConfiguredIp(config)), env, 128),
             NormalPort(IntOf(config, "port").GetOr(1502), env))
  }

  method ConfiguredIpOf(config: Option<CString>) returns (ip: CString)
    ensures ip == ConfiguredIp(config)
  {
    var buf := new char[64];
    Print(buf, DEFAULT_IP);
    ghost var text := DEFAULT_IP;
    if config.Some? {
      var rc := JsonGetStr(config, "ip", buf);
      text := ValueOf(config.value, "ip", 63).GetOr(DEFAULT_IP);
      assert Holds(buf, text);
      CleanupEscapePrefix(buf, text);
      text := AfterEscapes(text);
    }
    var n := StrLen(buf, text);
    ip := buf[..n];
  }

  method ResolveEndpoint(config: Option<CString>, env: ModbusEnv) returns (e: Endpoint)
    ensures e == DeviceEndpoint(config, env)
  {
    var ip := ConfiguredIpOf(config);
    var port := JsonGetInt(config, "port");
    var host := new char[128];
    var fixedPort := NormalizeHostPort(Some(ip), port.GetOr(1502), env, host);
    var n := StrLen(host, NormalHost(Some(ip), env, 128));
    e := Endpoint(host[..n], fixedPort);
  }

  /** The endpoint direct writes go to: the environment, not cleaned, or the defaults. */
  function DirectEndpoint(env: ModbusEnv): Endpoint {
    var port := if env.port.Some? && env.port.value != "" then Atoi(env.port.value) else 1502;
    Endpoint(if env.addr.Some? && env.addr.value != "" then env.addr.value else DEFAULT_IP,
             if port <= 0 then 1502 else port)
  }

  /** Direct writes go to the host and port of the environment as they are, and to the defaults where it
      names none. */
  lemma DirectTarget(env: ModbusEnv, n: int)
    ensures DirectEndpoint(env).host
         == if env.addr.Some? && |env.addr.value| > 0 then env.addr.value else "127.0.0.1"
    ensures 1 <= n <= 0x7fff_ffff && env.port == Some(Decimal(n)) ==> DirectEndpoint(env).port == n
    ensures env.port.None? || env.port == Some("") ==> DirectEndpoint(env).port == 1502
  {
    if 1 <= n <= 0x7fff_ffff {
      AtoiUndoesDecimal(n);
      DecimalHasNoEnd(n);
    }
    hide Atoi, Decimal;
  }

  lemma CutKeepsLetters(w: string, n: nat)
    requires n > 9
    ensures forall k :: 0 <= k <= 3 && LettersThenDigit(Take(w, n), k) ==> LettersThenDigit(w, k)
  {
  }

  /** From printed members to the endpoint: the ip that is configured, cut to the 63 characters of its
      buffer, without one or two stray escape letters in front of a digit, whatever the environment. */
  lemma {:induction false} ConfiguredHostIsUsed(config: CString, p: nat, head: string, ws: string, e: string, w: string, env: ModbusEnv)
    requires Member(config, p, head, ws, e + w) && Find(config, "ip") == Some(p)
    requires w != "" && AllAllowed(w)
    requires if e == "" then !LettersThenDigit(w, 1) && !LettersThenDigit(w, 2) && !LettersThenDigit(w, 3)
             else |e| <= 2 && '0' <= w[0] <= '9' && forall i :: 0 <= i < |e| ==> e[i] == 'n' || e[i] == 't' || e[i] == 'r'
    ensures DeviceEndpoint(Some(config), env).host == Take(w, 63 - |e|)
  {
    var v := Take(w, 63 - |e|);
    assert Take(e + w, 63) == e + v;
    assert AllAllowed(v) by { assert forall c :: c in v ==> c in w; }
    CutKeepsLetters(w, 63 - |e|);
    hide NormalHost, LettersThenDigit, NormalPort, IntOf, Member, Find, AllAllowed, Value, Start;
    ScanUndoesPrint(config, p, head, ws, e + w, "ip", 63);
    HostPrecedence(v, env, 128);
    if e == "" {
      assert e + v == v;
      PromiseFailsOnThree(v);
      assert Promised(v) == v;
    } else {
      EscapesGo(e, v);
    }
    hide AfterEscapes, ValueOf;
  }

  /** And the port that is configured, quoted or not. */
  lemma {:induction false} ConfiguredPortIsUsed(config: CString, p: nat, head: string, ws: string, n: int, env: ModbusEnv)
    requires BareMember(config, p, head, ws, Decimal(n)) || Member(config, p, head, ws, Decimal(n))
    requires Find(config, "port") == Some(p) && 1 <= n <= 65535
    ensures DeviceEndpoint(Some(config), env).port == n
  {
    hide BareMember, Member, Find, Decimal, IntOf, NormalHost, ConfiguredIp;
    NumberUndoesPrint(config, p, head, ws, n, "port");
    PortPrecedence(n, env, n);
  }

  /** The two sides write to one host: where the configuration gives a usable host, if the
      environment names the same, or names none and it is the default; where it gives none, if the
      environment's host is clean, or there is none. */
  predicate HostsAgree(config: Option<CString>, env: ModbusEnv) {
    var ip, addr := Clean(ConfiguredIp(config), 128), env.addr.GetOr("");
    if ip == "" then addr == Clean(addr, 128)
    else ip == if addr != "" then addr else DEFAULT_IP
  }

  /** And to one port: where the configured port is in range, if the environment gives it, or gives
      none and it is the default; where it is not, if the environment does not exceed the range. */
  predicate PortsAgree(p: int, env: ModbusEnv) {
    var ep := Atoi(env.port.GetOr(""));
    if GoodPort(p) then p == if ep > 0 then ep else DEFAULT_PORT
    else ep <= 65535
  }

  lemma OneHost(config: Option<CString>, env: ModbusEnv)
    ensures DirectEndpoint(env).host == DeviceEndpoint(config, env).host <==> HostsAgree(config, env)
  {
    CleanOfNothing(128);
    DefaultIsClean();
    hide Clean, Atoi, ConfiguredIp, IntOf;
  }

  lemma DefaultIsClean()
    ensures Clean(DEFAULT_IP, 128) == DEFAULT_IP
  {
    assert AllAllowed(DEFAULT_HOST);
    TrimIsRedundant(DEFAULT_IP);
    KeepFixes(DEFAULT_IP);
  }

  lemma OnePort(config: Option<CString>, env: ModbusEnv)
    ensures DirectEndpoint(env).port == DeviceEndpoint(config, env).port
       <==> PortsAgree(IntOf(config, "port").GetOr(DEFAULT_PORT), env)
  {
    assert Atoi("") == 0;
    hide Atoi, NormalHost, ConfiguredIp, IntOf;
  }

  /** Reconciliation and direct writes have one endpoint, for every configuration and environment,
      if and only if they have one host and one port. */
  lemma EndpointsAgree(config: Option<CString>, env: ModbusEnv)
    ensures DirectEndpoint(env) == DeviceEndpoint(config, env)
       <==> HostsAgree(config, env) && PortsAgree(IntOf(config, "port").GetOr(DEFAULT_PORT), env)
  {
    hide DirectEndpoint, DeviceEndpoint, HostsAgree, PortsAgree, IntOf;
    OneHost(config, env);
    OnePort(config, env);
  }

  lemma UnconfiguredDevice(env: ModbusEnv)
    ensures DeviceEndpoint(None, env) == Endpoint(DEFAULT_IP, DEFAULT_PORT)
  {
    DefaultIsClean();
    hide Atoi, Clean;
  }

  /** Without a configuration the device writes to the default endpoint; direct writes go there too
      exactly where the environment names no other host and port. */
  lemma UnconfiguredEndpoint(env: ModbusEnv)
    ensures DeviceEndpoint(None, env) == Endpoint(DEFAULT_IP, DEFAULT_PORT)
    ensures DirectEndpoint(env) == DeviceEndpoint(None, env)
       <==> ((env.addr.GetOr("") == "" || env.addr.value == DEFAULT_IP)
             && (Atoi(env.port.GetOr("")) <= 0 || Atoi(env.port.GetOr("")) == DEFAULT_PORT))
  {
    UnconfiguredDevice(env);
    DefaultIsClean();
    hide Atoi, Clean, DeviceEndpoint, DirectEndpoint;
    EndpointsAgree(None, env);
  }

  // ---------------------------------------------------------------- rebuild

  /** A property's name as the automatically built twins use it. */
  function NameOf(p: Property): string {
    p.name.GetOr("unknown")
  }

  function BuiltTwin(properties: seq<Property>, i: nat): Twin
    requires i < |properties|
  {
    Twin(Some(NameOf(properties[i])), Entry(i), NOTHING, NOTHING)
  }

  function BuiltTwins(properties: seq<Property>): (r: seq<Twin>)
    ensures |r| == |properties| && forall i :: 0 <= i < |r| ==> r[i] == BuiltTwin(properties, i)
  {
    seq(|properties|, i requires 0 <= i < |properties| => BuiltTwin(properties, i))
  }

  predicate AllLinked(twins: seq<Twin>) {
    forall i :: 0 <= i < |twins| ==> !twins[i].property.Unlinked?
  }

  predicate NeedsRebuild(twins: seq<Twin>, properties: seq<Property>) {
    (|properties| > 0 && |twins| == 0) || !AllLinked(twins)
  }

  function Rebuilt(twins: seq<Twin>, properties: seq<Property>): seq<Twin> {
    if NeedsRebuild(twins, properties) then BuiltTwins(properties) else twins
  }

  /** A rebuild takes place where a twin is unlinked, or there is none for the properties. Then twin i has
      the name of property i, or `unknown`, is linked to it, and wants and reports nothing. */
  lemma RebuildNames(twins: seq<Twin>, properties: seq<Property>, i: nat)
    requires i < |properties|
    ensures twins == [] || (exists k :: 0 <= k < |twins| && twins[k].property == Unlinked) ==>
              && |Rebuilt(twins, properties)| == |properties|
              && var t := Rebuilt(twins, properties)[i];
                 && t.propertyName == Some(if properties[i].name.Some? then properties[i].name.value else "unknown")
                 && t.property == Entry(i)
                 && t.observedDesired.value == t.observedDesired.metadata.timestamp == t.observedDesired.metadata.kind == None
                 && t.reported.value == t.reported.metadata.timestamp == t.reported.metadata.kind == None
    ensures twins != [] && (forall k :: 0 <= k < |twins| ==> twins[k].property != Unlinked) ==> Rebuilt(twins, properties) == twins
  {
  }

  /** A rebuild leaves every twin linked, a second one changes nothing, and no later step of
      any writer brings the need back. */
  lemma RebuildSettles(twins: seq<Twin>, properties: seq<Property>, c: Context,
                       registers: map<Register, int>, steps: seq<Step>)
    ensures var once := Rebuilt(twins, properties);
            && AllLinked(once)
            && !NeedsRebuild(Run(c, Memory(once, registers), steps).twins, properties)
            && Rebuilt(Run(c, Memory(once, registers), steps).twins, properties)
            == Run(c, Memory(once, registers), steps).twins
  {
    RunKeepsNames(c, Memory(Rebuilt(twins, properties), registers), steps);
  }

  // ------------------------------------------------------------------ status

  const UNKNOWN := "unknown"
  const OK := "ok"
  const OFFLINE := "offline"

  // ------------------------------------------------------- the simulated values

  /** The simulated twins of a pass get the temperatures that follow after k steps, in order. */
  predicate CarriesWave(c: Context, twins: seq<Twin>, steps: seq<Step>, k: nat)
    requires |steps| <= |twins|
  {
    forall i :: 0 <= i < |steps| && IsSimulated(c, twins[i]) ==>
                  steps[i].Simulate? && steps[i].value == Decimal(Triangle(k + SimulatedIn(c, twins, i) + 1))
  }

  /** A simulated twin takes one step of the simulation and its value, another twin none. */
  predicate FollowsWave(c: Context, t: Twin, s: Step, before: Point, after: Point) {
    if IsSimulated(c, t) then s.Simulate? && after == Next(before) && s.value == Decimal(after.current)
    else after == before
  }

  lemma WaveGoesOn(c: Context, twins: seq<Twin>, t: Twin, steps: seq<Step>, s: Step, k: nat, before: Point, after: Point)
    requires |steps| < |twins| && CarriesWave(c, twins, steps, k) && t.propertyName == twins[|steps|].propertyName
    requires before == After(k + SimulatedIn(c, twins, |steps|)) && FollowsWave(c, t, s, before, after)
    ensures CarriesWave(c, twins, steps + [s], k)
    ensures after == After(k + SimulatedIn(c, twins, |steps| + 1))
  {
    assert IsSimulated(c, t) <==> IsSimulated(c, twins[|steps|]);
    hide Triangle, Decimal, CarriesWave, After, Next, IsSimulated;
    AfterNext(k + SimulatedIn(c, twins, |steps|));
    WaveIsTriangle(k + SimulatedIn(c, twins, |steps|) + 1);
    WaveAppend(c, twins, steps, s, k);
  }

  lemma WaveAppend(c: Context, twins: seq<Twin>, steps: seq<Step>, s: Step, k: nat)
    requires |steps| < |twins| && CarriesWave(c, twins, steps, k)
    requires IsSimulated(c, twins[|steps|]) ==>
               s.Simulate? && s.value == Decimal(Triangle(k + SimulatedIn(c, twins, |steps|) + 1))
    ensures CarriesWave(c, twins, steps + [s], k)
  {
    hide Triangle, Decimal, SimulatedIn, IsSimulated;
  }

  // ------------------------------------------------------------------ device

  /** The parts of the registered instance a device is made of. */
  datatype Instance = Instance(name: Option<CString>, config: Option<CString>, hasProtocol: bool,
                               twins: seq<Twin>, properties: seq<Property>)

  /** `device_new` gives a linked twin a property of its own, with the same name. */
  function Copied(t: Twin, properties: seq<Property>): Twin {
    match t.property
    case Unlinked => t
    case Entry(i) => t.(property := Copy(if i < |properties| then properties[i].name else None))
    case Copy(_) => t
  }

  function NewTwins(instance: Instance): (r: seq<Twin>) {
    if |instance.twins| > 0
    then seq(|instance.twins|, i requires 0 <= i < |instance.twins| => Copied(instance.twins[i], instance.properties))
    else BuiltTwins(instance.properties)
  }

  /** A new device has a copy of each twin of the instance: same name and values, and where it is linked, a
      property of its own with the name of the linked one. Without twins there is one for each property. */
  lemma NewTwinsAreCopies(instance: Instance, i: nat)
    requires i < |instance.twins|
    ensures |NewTwins(instance)| == |instance.twins|
    ensures var t, u := NewTwins(instance)[i], instance.twins[i];
            && t.propertyName == u.propertyName && t.observedDesired == u.observedDesired && t.reported == u.reported
            && (t.property == Unlinked <==> u.property == Unlinked) && !t.property.Entry?
            && (u.property.Entry? && u.property.index < |instance.properties| ==>
                  t.property == Copy(instance.properties[u.property.index].name))
  {
  }

  /** The instance the register call hands to `device_new`. */
  function Registered(d: GrpcDevice, model: Option<seq<string>>): Instance {
    Instance(Some(d.name), None, d.protocolName.Some?,
             seq(|d.properties|, i requires 0 <= i < |d.properties| => LinkedTwin(d, model, i)),
             seq(|d.properties|, i requires 0 <= i < |d.properties| => LinkedProperty(d, model, i)))
  }

  /** The twins of a device that was registered, created and started. */
  function StartedTwins(d: GrpcDevice, model: Option<seq<string>>): seq<Twin> {
    var instance := Registered(d, model);
    Rebuilt(NewTwins(instance), instance.properties)
  }

  /** From the request to the running device: there is one twin for each property, under its
      name, and the cloud's desired values get through exactly when a model was given. The
      register call gives none (grpcclient/register.cc:142). */
  lemma DesiredNeedsModel(d: GrpcDevice, model: Option<seq<string>>, i: nat)
    requires i < |d.properties|
    ensures |StartedTwins(d, model)| == |d.properties|
    ensures var twin := StartedTwins(d, model)[i];
            && twin.propertyName == Some(d.properties[i].name) && twin.reported.value == None
            && (model.Some? ==>
                  IsDesired(d.properties[i], twin.observedDesired) && twin.property == Copy(Some(d.properties[i].name)))
            && (model.None? ==> twin.observedDesired.value == None && twin.property == Entry(i))
  {
    TwinCarriesDesired(d.properties[i]);
    hide IsDesired;
    var instance := Registered(d, model);
    var created := NewTwins(instance);
    assert |created| == |d.properties|;
    if model.Some? {
      forall k | 0 <= k < |created| ensures !created[k].property.Unlinked? {
        TwinsLinkToFirst(d, model.value, k);
      }
    } else {
      assert created[i].property.Unlinked?;
    }
  }

  class Device {
    const name: Option<CString>
    const namespace_: string
    const config: Option<CString>
    const hasClient: bool
    const properties: seq<Property>
    var twins: array<Twin>
    var status: Option<string>
    var dataThreadRunning: bool
    var stopChan: bool

    predicate Valid()
      reads this
    {
      && (dataThreadRunning <==> status == Some(OK))
      && (status == Some(UNKNOWN) || status == Some(OK) || status == Some(OFFLINE))
    }

    /** `device_new`. The namespace of the instance is copied and then overwritten. */
    constructor (instance: Instance)
      ensures Valid() && status == Some(UNKNOWN) && fresh(twins)
      ensures name == instance.name && config == instance.config && hasClient == instance.hasProtocol
      ensures properties == instance.properties && namespace_ == "test"
      ensures twins[..] == NewTwins(instance)
    {
      name, namespace_, config := instance.name, "test", instance.config;
      hasClient, properties := instance.hasProtocol, instance.properties;
      twins := new Twin[|instance.twins|];
      status, dataThreadRunning, stopChan := Some(UNKNOWN), false, false;
      new;
      for i := 0 to twins.Length
        invariant fresh(twins) && twins.Length == |instance.twins|
        invariant forall k :: 0 <= k < i ==> twins[k] == Copied(instance.twins[k], instance.properties)
        modifies twins
      {
        twins[i] := Copied(instance.twins[i], instance.properties);
      }
      if twins.Length == 0 && |properties| > 0 {
        BuildFromProperties();
      }
      assert twins[..] == NewTwins(instance);
    }

    /** A new twin array, one twin for each property. */
    method BuildFromProperties()
      modifies this`twins
      ensures fresh(twins) && twins[..] == BuiltTwins(properties)
    {
      var built := new Twin[|properties|];
      for i := 0 to built.Length
        invariant forall k :: 0 <= k < i ==> built[k] == BuiltTwin(properties, k)
      {
        built[i] := BuiltTwin(properties, i);
      }
      twins := built;
    }

    /** `device_runtime_rebuild`: the array is replaced only when it has to be. */
    method Rebuild()
      modifies this`twins
      ensures twins[..] == Rebuilt(old(twins[..]), properties)
      ensures if NeedsRebuild(old(twins[..]), properties) then fresh(twins) else twins == old(twins)
    {
      var rebuild := false;
      if |properties| > 0 && twins.Length == 0 {
        rebuild := true;
      } else {
        for i := 0 to twins.Length
          invariant !rebuild && forall k :: 0 <= k < i ==> !twins[k].property.Unlinked?
        {
          if twins[i].property.Unlinked? {
            rebuild := true;
            break;
          }
        }
      }
      if rebuild {
        BuildFromProperties();
      }
    }

    /** `device_status_update`; an empty status means unknown. */
    method SetStatus(newStatus: Option<string>)
      modifies this`status
      ensures status == Some(if newStatus.GetOr("") == "" then UNKNOWN else newStatus.value)
    {
      var next := if newStatus.None? || newStatus.value == "" then UNKNOWN else newStatus.value;
      if status.None? {
        status := Some(next);
        return;
      }
      if status.value == next {
        return;
      }
      status := Some(next);
    }

    /** `device_start`, given whether the client initialises and the thread is created. */
    method Start(initOk: bool, createOk: bool) returns (rc: int)
      requires Valid()
      modifies this`twins, this`status, this`dataThreadRunning
      ensures Valid()
      ensures twins[..] == Rebuilt(old(twins[..]), properties) && AllLinked(twins[..])
      ensures NeedsRebuild(old(twins[..]), properties) || twins == old(twins)
      ensures dataThreadRunning <==> old(dataThreadRunning) || ((hasClient ==> initOk) && createOk)
      ensures !dataThreadRunning ==> status == Some(OFFLINE)
      ensures rc == if dataThreadRunning then 0 else -1
    {
      Rebuild();
      if dataThreadRunning {
        return 0;
      }
      if hasClient {
        if !initOk {
          SetStatus(Some(OFFLINE));
          return -1;
        }
      }
      SetStatus(Some(OK));
      dataThreadRunning := true;
      if !createOk {
        dataThreadRunning := false;
        SetStatus(Some(OFFLINE));
        return -1;
      }
      return 0;
    }

    /** `device_stop`. */
    method Stop() returns (rc: int)
      modifies this`status, this`dataThreadRunning, this`stopChan
      ensures Valid() && !dataThreadRunning && status == Some(OFFLINE) && rc == 0
    {
      stopChan := true;
      dataThreadRunning := false;
      SetStatus(Some(OFFLINE));
      rc := 0;
    }

    /** This device and the registers, as the steps see them. */
    ghost function MemoryWith(plant: Plant): Memory
      reads this, twins, plant
    {
      Memory(twins[..], plant.registers)
    }

    function ContextIn(env: Env): Context {
      Context(DeviceEndpoint(config, env.modbus), DirectEndpoint(env.modbus), SimulationOn(env))
    }

    /** `device_deal_twin` on the i-th twin. */
    method DealTwin(i: nat, env: Env, plant: Plant) returns (rc: int, ghost step: Step)
      requires i < twins.Length
      modifies twins, plant
      ensures step.Deal? && step.twin == i && !step.late
      ensures MemoryWith(plant) == Apply(ContextIn(env), old(MemoryWith(plant)), step)
      ensures plant.attempts == old(plant.attempts)
                              + (if Attempts(ContextIn(env), old(MemoryWith(plant)), step) then 1 else 0)
      ensures rc == if Succeeds(ContextIn(env), old(MemoryWith(plant)), step) then 0 else -1
    {
      var twin := twins[i];
      step := Deal(i, true, false, "");
      if SimulationOn(env) && twin.propertyName == Some("temperature") {
        return 0, step;
      }
      var desired := twin.observedDesired.value;
      if desired.None? || desired.value == "" {
        return 0, step;
      }
      if twin.reported.value == desired {
        return 0, step;
      }
      var at := ResolveEndpoint(config, env.modbus);
      var offset := Offset(twin);
      if offset <= 0 {
        return 0, step;
      }
      var ok := plant.Poll(Register(at, offset), Atoi(desired.value));
      var now: string := *;
      step := Deal(i, ok, false, now);
      if !ok {
        return -1, step;
      }
      twins[i] := Report(twin, desired, now);
      rc := 0;
    }

    /** One pass of the data thread while the device is ok. The thread's own simulation has made k
        steps before it and makes one more for each simulated twin, whose step carries its value. */
    method DataPass(env: Env, plant: Plant, simulation: Simulation, ghost k: nat) returns (ghost steps: seq<Step>)
      requires simulation.Here() == After(k)
      modifies twins, plant, simulation
      ensures |steps| == |old(twins[..])| == twins.Length
      ensures Passed(ContextIn(env), old(MemoryWith(plant)), old(plant.attempts), steps, k, plant, simulation)
    {
      ghost var c, m, attempts := ContextIn(env), MemoryWith(plant), plant.attempts;
      steps := [];
      PassStarts(c, plant, simulation, k);
      hide Passed, ContextIn;
      for i := 0 to twins.Length
        invariant |steps| == i && twins.Length == |m.twins|
        invariant Passed(c, m, attempts, steps, k, plant, simulation)
      {
        steps := TreatNext(env, plant, simulation, m, attempts, steps, k, i);
      }
    }

    /** What a pass has done after some steps: it has reconciled or simulated as many twins in order,
        memory and write attempts are those of the run of these steps, the simulation has gone on
        by the number of simulated twins among them, and their steps carry its values. */
    ghost predicate Passed(c: Context, m: Memory, attempts: nat, steps: seq<Step>, k: nat, plant: Plant, simulation: Simulation)
      reads this, twins, plant, simulation
    {
      && PassBegun(c, m.twins, steps)
      && MemoryWith(plant) == Run(c, m, steps)
      && plant.attempts == attempts + WriteAttempts(c, m, steps)
      && simulation.Here() == After(k + SimulatedIn(c, m.twins, |steps|))
      && CarriesWave(c, m.twins, steps, k)
    }

    lemma PassStarts(c: Context, plant: Plant, simulation: Simulation, k: nat)
      requires simulation.Here() == After(k)
      ensures Passed(c, MemoryWith(plant), plant.attempts, [], k, plant, simulation)
    {
      RunNothing(c, MemoryWith(plant));
    }

    /** The next twin of a pass. */
    method TreatNext(env: Env, plant: Plant, simulation: Simulation,
                     ghost m: Memory, ghost attempts: nat, ghost before: seq<Step>, ghost k: nat, i: nat)
      returns (ghost steps: seq<Step>)
      requires i == |before| < twins.Length == |m.twins| && Passed(ContextIn(env), m, attempts, before, k, plant, simulation)
      modifies twins, plant, simulation
      ensures |steps| == |before| + 1 && Passed(ContextIn(env), m, attempts, steps, k, plant, simulation)
    {
      hide Run, WriteAttempts, Attempts, Apply, After, Next, SimulatedIn, CarriesWave, FollowsWave, IsSimulated, Treats, ContextIn;
      ghost var c := ContextIn(env);
      RunKeepsNames(c, m, before);
      ghost var t, at := twins[i], simulation.Here();
      assert t.propertyName == m.twins[i].propertyName;
      ghost var step := TreatTwin(i, env, plant, simulation);
      RunNext(c, m, before, step);
      PassGoesOn(c, m.twins, t, before, step);
      WaveGoesOn(c, m.twins, t, before, step, k, at, simulation.Here());
      steps := before + [step];
    }

    /** What a pass does with one twin. */
    method TreatTwin(i: nat, env: Env, plant: Plant, simulation: Simulation) returns (ghost step: Step)
      requires i < twins.Length
      modifies twins, plant, simulation
      ensures Treats(ContextIn(env), old(twins[i]), i, step)
      ensures MemoryWith(plant) == Apply(ContextIn(env), old(MemoryWith(plant)), step)
      ensures plant.attempts == old(plant.attempts)
                              + (if Attempts(ContextIn(env), old(MemoryWith(plant)), step) then 1 else 0)
      ensures FollowsWave(ContextIn(env), old(twins[i]), step, old(simulation.Here()), simulation.Here())
    {
      if twins[i].propertyName == Some("temperature") && SimulationOn(env) {
        ghost var before := MemoryWith(plant);
        var value := simulation.Step();
        assert MemoryWith(plant) == before;
        step := SimulateTwin(i, plant, value, ContextIn(env));
      } else {
        var rc;
        rc, step := DealTwin(i, env, plant);
      }
    }

    /** The simulated value replaces `reported` when its text differs. */
    method SimulateTwin(i: nat, ghost plant: Plant, value: int, ghost c: Context) returns (ghost step: Step)
      requires i < twins.Length
      modifies twins
      ensures step.Simulate? && step.twin == i && step.value == Decimal(value)
      ensures MemoryWith(plant) == Apply(c, old(MemoryWith(plant)), step)
    {
      var text := Decimal(value);
      var twin := twins[i];
      step := Simulate(i, text, "");
      if twin.reported.value != Some(text) {
        var now: string := *;
        step := Simulate(i, text, now);
        twins[i] := Report(twin, Some(text), now);
      }
    }
  }
}

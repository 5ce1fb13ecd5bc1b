/** Which blocks of memory a device owns (device/device.c): construction by deep copy, the
    rebuild before a start, and destruction. Contents of strings do not matter here, only where
    they are. */
module Ownership {

  type Ptr = nat
  const NULL: Ptr := 0

  /** `sizeof(DeviceProperty)`: the distance between two elements of a properties array. */
  const PROPERTY_SIZE: nat := 80

  // -------------------------------------------------------------------- memory

  /** The allocator. It may place a block anywhere that is free, also where an earlier block
      was. `Free` demands a live block, so a caller that verifies frees none twice. */
  class Heap {
    var live: map<Ptr, nat>

    ghost predicate Valid()
      reads this
    {
      && NULL !in live
      && (forall a :: a in live ==> live[a] > 0)
      && (forall a, b :: a in live && b in live && a < b ==> a + live[a] <= b)
    }

    ghost function Blocks(): multiset<Ptr>
      reads this
    {
      multiset(live.Keys)
    }

    method Alloc(size: nat) returns (p: Ptr)
      requires Valid()
      modifies this
      ensures Valid() && p != NULL && p !in old(live)
      ensures live == old(live)[p := if size == 0 then 1 else size]
      ensures Blocks() == old(Blocks()) + multiset{p}
    {
      var n := if size == 0 then 1 else size;
      assert Fits(live, End(live), n);
      var free: Ptr :| free != NULL && free !in live && Fits(live, free, n);
      assert Fits(live, free, n);
      p := free;
      live := live[p := n];
    }

    method Free(p: Ptr)
      requires Valid() && (p == NULL || p in live)
      modifies this
      ensures Valid() && live == old(live) - {p}
      ensures old(Blocks()) == Blocks() + One(p)
    {
      live := live - {p};
    }
  }

  /** A block of n bytes at p would overlap no other. */
  predicate Fits(live: map<Ptr, nat>, p: Ptr, n: nat) {
    forall a :: a in live ==> p + n <= a || a + live[a] <= p
  }

  /** An address past all blocks. */
  ghost function End(live: map<Ptr, nat>): (e: nat)
    ensures e > 0 && e !in live && forall a :: a in live ==> a + live[a] <= e
    decreases |live|
  {
    if live == map[] then 1
    else
      var a :| a in live;
      var rest := live - {a};
      assert forall b :: b in live ==> b == a || b in rest;
      var e := End(rest);
      if e <= a + live[a] then a + live[a] + 1 else e
  }

  function One(p: Ptr): multiset<Ptr> {
    if p == NULL then multiset{} else multiset{p}
  }

  /** How often each pointer occurs in the list from position i on, NULL apart. */
  function Bag(ps: seq<Ptr>, i: nat): multiset<Ptr>
    requires i <= |ps|
    decreases |ps| - i
  {
    if i == |ps| then multiset{} else One(ps[i]) + Bag(ps, i + 1)
  }

  lemma {:induction false} BagAppend(ps: seq<Ptr>, p: Ptr, i: nat)
    requires i <= |ps|
    ensures Bag(ps + [p], i) == Bag(ps, i) + One(p)
    decreases |ps| - i
  {
    if i < |ps| {
      BagAppend(ps, p, i + 1);
      Swap(One(ps[i]), Bag(ps, i + 1), One(p));
    } else {
      assert Bag(ps + [p], i + 1) == multiset{};
    }
  }

  lemma Swap(a: multiset<Ptr>, b: multiset<Ptr>, c: multiset<Ptr>)
    ensures a + (b + c) == a + b + c
  {
  }

  /** The bags of the lists from position i on, together. */
  function Total(lists: seq<seq<Ptr>>, i: nat): multiset<Ptr>
    requires i <= |lists|
    decreases |lists| - i
  {
    if i == |lists| then multiset{} else Bag(lists[i], 0) + Total(lists, i + 1)
  }

  lemma {:induction false} TotalAppend(lists: seq<seq<Ptr>>, ps: seq<Ptr>, i: nat)
    requires i <= |lists|
    ensures Total(lists + [ps], i) == Total(lists, i) + Bag(ps, 0)
    decreases |lists| - i
  {
    if i < |lists| {
      TotalAppend(lists, ps, i + 1);
    } else {
      assert Total(lists + [ps], i + 1) == multiset{};
    }
  }

  lemma OneOf(blocks: multiset<Ptr>, rest: multiset<Ptr>, p: Ptr, more: multiset<Ptr>)
    requires blocks == rest + (One(p) + more)
    ensures p != NULL ==> p in blocks
  {
  }

  lemma Without(blocks: multiset<Ptr>, after: multiset<Ptr>, rest: multiset<Ptr>, p: Ptr, more: multiset<Ptr>)
    requires blocks == rest + (One(p) + more) && blocks == after + One(p)
    ensures after == rest + more
  {
    assert blocks - One(p) == after;
    assert rest + (One(p) + more) - One(p) == rest + more;
  }

  /** A run of `free`s. */
  method FreeEach(h: Heap, ps: seq<Ptr>, ghost rest: multiset<Ptr>)
    requires h.Valid() && h.Blocks() == rest + Bag(ps, 0)
    modifies h
    ensures h.Valid() && h.Blocks() == rest
  {
    var i := 0;
    while i < |ps|
      invariant i <= |ps|
      invariant h.Valid() && h.Blocks() == rest + Bag(ps, i)
    {
      ghost var before := h.Blocks();
      OneOf(before, rest, ps[i], Bag(ps, i + 1));
      h.Free(ps[i]);
      Without(before, h.Blocks(), rest, ps[i], Bag(ps, i + 1));
      i := i + 1;
    }
  }

  /** `if (x) y = strdup(x)`. */
  method CopyString(h: Heap, from: Ptr) returns (to: Ptr)
    requires h.Valid()
    modifies h
    ensures h.Valid() && h.Blocks() == old(h.Blocks()) + One(to) && (to == NULL <==> from == NULL)
  {
    to := NULL;
    Nothing(h.Blocks());
    if from != NULL {
      to := h.Alloc(1);
    }
  }

  /** A run of such copies. */
  method CopyEach(h: Heap, from: seq<Ptr>) returns (to: seq<Ptr>)
    requires h.Valid()
    modifies h
    ensures h.Valid() && h.Blocks() == old(h.Blocks()) + Bag(to, 0)
    ensures SameNulls(to, from)
  {
    to := [];
    Nothing(h.Blocks());
    while |to| < |from|
      invariant |to| <= |from|
      invariant h.Valid() && h.Blocks() == old(h.Blocks()) + Bag(to, 0)
      invariant forall i :: 0 <= i < |to| ==> (to[i] == NULL <==> from[i] == NULL)
    {
      ghost var between := h.Blocks();
      var p := CopyString(h, from[|to|]);
      BagAppend(to, p, 0);
      Grow(old(h.Blocks()), between, h.Blocks(), Bag(to, 0), One(p));
      to := to + [p];
    }
  }

  lemma {:induction false} BagConcat(a: seq<Ptr>, b: seq<Ptr>, i: nat)
    requires i <= |a|
    ensures Bag(a + b, i) == Bag(a, i) + Bag(b, 0)
    decreases |a| - i
  {
    if i < |a| {
      BagConcat(a, b, i + 1);
      Swap(One(a[i]), Bag(a, i + 1), Bag(b, 0));
    } else {
      BagShift(a, b, 0);
    }
  }

  lemma {:induction false} BagShift(a: seq<Ptr>, b: seq<Ptr>, i: nat)
    requires i <= |b|
    ensures Bag(a + b, |a| + i) == Bag(b, i)
    decreases |b| - i
  {
    if i < |b| {
      BagShift(a, b, i + 1);
    }
  }

  lemma Grow(before: multiset<Ptr>, between: multiset<Ptr>, after: multiset<Ptr>, a: multiset<Ptr>, b: multiset<Ptr>)
    requires between == before + a && after == between + b
    ensures after == before + (a + b)
  {
  }

  lemma Nothing(rest: multiset<Ptr>)
    ensures rest + multiset{} == rest
  {
  }

  lemma Rotate(a: multiset<Ptr>, b: multiset<Ptr>, c: multiset<Ptr>)
    ensures a + (b + c) == a + c + b
  {
  }

  // ------------------------------------------------------------------- records

  datatype Reading = Reading(value: Ptr, timestamp: Ptr, kind: Ptr)

  /** `recordName` is the `name` field of the DeviceProperty that `property` points to. */
  datatype Twin = Twin(name: Ptr, desired: Reading, reported: Reading, property: Ptr, recordName: Ptr)

  datatype Property = Property(name: Ptr, propertyName: Ptr, modelName: Ptr, protocol: Ptr)

  datatype Method = Method(name: Ptr, description: Ptr, namesAt: Ptr, names: seq<Ptr>)

  datatype ModelProperty = ModelProperty(name: Ptr, dataType: Ptr, description: Ptr, accessMode: Ptr,
                                         minimum: Ptr, maximum: Ptr, unit: Ptr)

  datatype Instance = Instance(id: Ptr, name: Ptr, namespace_: Ptr, model: Ptr, protocolName: Ptr,
                               configName: Ptr, configData: Ptr,
                               twinsAt: Ptr, twins: seq<Twin>,
                               propertiesAt: Ptr, properties: seq<Property>,
                               methodsAt: Ptr, methods: seq<Method>)

  datatype Model = Model(id: Ptr, name: Ptr, namespace_: Ptr, description: Ptr,
                         propertiesAt: Ptr, properties: seq<ModelProperty>)

  /** The test of `device_free`: does p point into the properties array? */
  predicate Embedded(p: Ptr, base: Ptr, count: nat) {
    base != NULL && base <= p < base + count * PROPERTY_SIZE
  }

  function TwinStrings(t: Twin): seq<Ptr> {
    [t.name, t.desired.value, t.desired.timestamp, t.desired.kind,
     t.reported.value, t.reported.timestamp, t.reported.kind]
  }

  /** What freeing a twin frees. */
  function TwinList(t: Twin, base: Ptr, count: nat): seq<Ptr> {
    TwinStrings(t) + if Embedded(t.property, base, count) then [] else RecordList(t.recordName, t.property)
  }

  /** A property record of its own, if there is one. */
  function RecordList(name: Ptr, at: Ptr): seq<Ptr> {
    if at == NULL then [] else [name, at]
  }

  function TwinLists(ts: seq<Twin>, base: Ptr, count: nat): (r: seq<seq<Ptr>>)
    ensures |r| == |ts|
  {
    seq(|ts|, i requires 0 <= i < |ts| => TwinList(ts[i], base, count))
  }

  function PropertyList(p: Property): seq<Ptr> {
    [p.name, p.propertyName, p.modelName, p.protocol]
  }

  function PropertyLists(ps: seq<Property>): seq<seq<Ptr>> {
    seq(|ps|, i requires 0 <= i < |ps| => PropertyList(ps[i]))
  }

  function MethodList(m: Method): seq<Ptr> {
    [m.name, m.description] + if m.namesAt != NULL then m.names + [m.namesAt] else []
  }

  function MethodLists(ms: seq<Method>): (r: seq<seq<Ptr>>)
    ensures |r| == |ms|
  {
    seq(|ms|, i requires 0 <= i < |ms| => MethodList(ms[i]))
  }

  function ModelPropertyList(p: ModelProperty): seq<Ptr> {
    [p.name, p.dataType, p.description, p.accessMode, p.minimum, p.maximum, p.unit]
  }

  function ModelPropertyLists(ps: seq<ModelProperty>): seq<seq<Ptr>> {
    seq(|ps|, i requires 0 <= i < |ps| => ModelPropertyList(ps[i]))
  }

  /** An array and what its elements own. */
  function ArrayBag(at: Ptr, lists: seq<seq<Ptr>>): multiset<Ptr> {
    if at == NULL then multiset{} else Total(lists, 0) + One(at)
  }

  function InstanceStrings(d: Instance): seq<Ptr> {
    [d.name, d.namespace_, d.model, d.protocolName, d.configName, d.configData]
  }

  /** What freeing an instance frees: all it points to except its id. */
  function InstanceBag(d: Instance): multiset<Ptr> {
    Bag(InstanceStrings(d), 0)
    + (ArrayBag(d.twinsAt, TwinLists(d.twins, d.propertiesAt, |d.properties|))
       + (ArrayBag(d.propertiesAt, PropertyLists(d.properties)) + ArrayBag(d.methodsAt, MethodLists(d.methods))))
  }

  function ModelStrings(m: Model): seq<Ptr> {
    [m.name, m.namespace_, m.description]
  }

  /** What freeing a model frees: all it points to except its id. */
  function ModelBag(m: Model): multiset<Ptr> {
    Bag(ModelStrings(m), 0) + ArrayBag(m.propertiesAt, ModelPropertyLists(m.properties))
  }

  // ----------------------------------------------------------------------- free

  /** `if (array) { for each element free what it owns; free(array); }` */
  method FreeArray(h: Heap, at: Ptr, lists: seq<seq<Ptr>>, ghost rest: multiset<Ptr>)
    requires h.Valid() && h.Blocks() == rest + ArrayBag(at, lists)
    modifies h
    ensures h.Valid() && h.Blocks() == rest
  {
    if at == NULL { return; }
    Rotate(rest, Total(lists, 0), One(at));
    var i := 0;
    while i < |lists|
      invariant i <= |lists|
      invariant h.Valid() && h.Blocks() == rest + One(at) + Total(lists, i)
    {
      Rotate(rest + One(at), Bag(lists[i], 0), Total(lists, i + 1));
      FreeEach(h, lists[i], rest + One(at) + Total(lists, i + 1));
      i := i + 1;
    }
    FreeEach(h, [at], rest);
  }

  method FreeInstance(h: Heap, d: Instance, ghost rest: multiset<Ptr>)
    requires h.Valid() && h.Blocks() == rest + InstanceBag(d)
    modifies h
    ensures h.Valid() && h.Blocks() == rest
  {
    ghost var twins := ArrayBag(d.twinsAt, TwinLists(d.twins, d.propertiesAt, |d.properties|));
    ghost var properties := ArrayBag(d.propertiesAt, PropertyLists(d.properties));
    ghost var methods := ArrayBag(d.methodsAt, MethodLists(d.methods));
    Rotate(rest, Bag(InstanceStrings(d), 0), twins + (properties + methods));
    FreeEach(h, InstanceStrings(d), rest + (twins + (properties + methods)));
    Rotate(rest, twins, properties + methods);
    FreeArray(h, d.twinsAt, TwinLists(d.twins, d.propertiesAt, |d.properties|), rest + (properties + methods));
    Rotate(rest, properties, methods);
    FreeArray(h, d.propertiesAt, PropertyLists(d.properties), rest + methods);
    FreeArray(h, d.methodsAt, MethodLists(d.methods), rest);
  }

  method FreeModel(h: Heap, m: Model, ghost rest: multiset<Ptr>)
    requires h.Valid() && h.Blocks() == rest + ModelBag(m)
    modifies h
    ensures h.Valid() && h.Blocks() == rest
  {
    ghost var properties := ArrayBag(m.propertiesAt, ModelPropertyLists(m.properties));
    Rotate(rest, Bag(ModelStrings(m), 0), properties);
    FreeEach(h, ModelStrings(m), rest + properties);
    FreeArray(h, m.propertiesAt, ModelPropertyLists(m.properties), rest);
  }

  // ----------------------------------------------------------------------- copy

  lemma {:induction false} BagHas(ps: seq<Ptr>, i: nat, k: nat)
    requires i <= k < |ps| && ps[k] != NULL
    ensures ps[k] in Bag(ps, i)
    decreases |ps| - i
  {
    if i < k {
      BagHas(ps, i + 1, k);
    }
  }

  lemma {:induction false} TotalHas(lists: seq<seq<Ptr>>, i: nat, k: nat)
    requires i <= k < |lists|
    ensures Bag(lists[k], 0) <= Total(lists, i)
    decreases |lists| - i
  {
    if i < k {
      TotalHas(lists, i + 1, k);
    }
  }

  /** The strings of every element of an array, copied where they are present. */
  method CopyLists(h: Heap, from: seq<seq<Ptr>>) returns (to: seq<seq<Ptr>>)
    requires h.Valid()
    modifies h
    ensures h.Valid() && h.Blocks() == old(h.Blocks()) + Total(to, 0)
    ensures |to| == |from| && forall i :: 0 <= i < |to| ==> SameNulls(to[i], from[i])
  {
    hide SameNulls;
    to := [];
    while |to| < |from|
      invariant |to| <= |from| && forall i :: 0 <= i < |to| ==> SameNulls(to[i], from[i])
      invariant h.Valid() && h.Blocks() == old(h.Blocks()) + Total(to, 0)
    {
      ghost var between := h.Blocks();
      var copy := CopyEach(h, from[|to|]);
      TotalAppend(to, copy, 0);
      Grow(old(h.Blocks()), between, h.Blocks(), Total(to, 0), Bag(copy, 0));
      to := to + [copy];
    }
  }

  function TwinOf(s: seq<Ptr>, property: Ptr, recordName: Ptr): (t: Twin)
    requires |s| == 7
    ensures TwinStrings(t) == s && t.property == property && t.recordName == recordName
  {
    Twin(s[0], Reading(s[1], s[2], s[3]), Reading(s[4], s[5], s[6]), property, recordName)
  }

  predicate SameNulls(a: seq<Ptr>, b: seq<Ptr>) {
    |a| == |b| && forall i :: 0 <= i < |a| ==> (a[i] == NULL <==> b[i] == NULL)
  }

  /** Both are set or none is. */
  predicate SameText(p: Ptr, q: Ptr) {
    p == NULL <==> q == NULL
  }

  predicate LikeReading(r: Reading, s: Reading) {
    SameText(r.value, s.value) && SameText(r.timestamp, s.timestamp) && SameText(r.kind, s.kind)
  }

  /** The twins have the same strings and the same property record, though in other blocks. */
  predicate Alike(t: Twin, u: Twin) {
    && SameText(t.name, u.name) && LikeReading(t.desired, u.desired) && LikeReading(t.reported, u.reported)
    && SameText(t.property, u.property)
    && (t.property != NULL ==> SameText(t.recordName, u.recordName))
  }

  lemma AlikeByStrings(t: Twin, u: Twin)
    requires SameNulls(TwinStrings(t), TwinStrings(u)) && SameText(t.property, u.property)
    requires t.property != NULL ==> SameText(t.recordName, u.recordName)
    ensures Alike(t, u)
  {
    var a, b := TwinStrings(t), TwinStrings(u);
    assert SameText(a[0], b[0]) && SameText(a[1], b[1]) && SameText(a[2], b[2]) && SameText(a[3], b[3]);
    assert SameText(a[4], b[4]) && SameText(a[5], b[5]) && SameText(a[6], b[6]);
  }

  predicate LikeProperty(p: Property, q: Property) {
    && SameText(p.name, q.name) && SameText(p.propertyName, q.propertyName)
    && SameText(p.modelName, q.modelName) && SameText(p.protocol, q.protocol)
  }

  /** Of a method without names the copy has no array. */
  predicate LikeMethod(m: Method, n: Method) {
    && SameText(m.name, n.name) && SameText(m.description, n.description)
    && (m.namesAt == NULL <==> n.namesAt == NULL || n.names == [])
    && (m.namesAt == NULL ==> m.names == [])
    && (m.namesAt != NULL ==> SameNulls(m.names, n.names))
  }

  predicate LikeModelProperty(p: ModelProperty, q: ModelProperty) {
    && SameText(p.name, q.name) && SameText(p.dataType, q.dataType) && SameText(p.description, q.description)
    && SameText(p.accessMode, q.accessMode) && SameText(p.minimum, q.minimum)
    && SameText(p.maximum, q.maximum) && SameText(p.unit, q.unit)
  }

  /** The twins so far are like their sources. */
  predicate AllAlike(to: seq<Twin>, from: seq<Twin>) {
    |to| <= |from| && forall i :: 0 <= i < |to| ==> Alike(to[i], from[i])
  }

  method CopyTwin(h: Heap, from: Twin) returns (to: Twin)
    requires h.Valid()
    modifies h
    ensures h.Valid() && h.Blocks() == old(h.Blocks()) + Bag(TwinList(to, NULL, 0), 0)
    ensures Alike(to, from)
  {
    hide SameNulls, Bag;
    var s := CopyEach(h, TwinStrings(from));
    ghost var between := h.Blocks();
    var record := CopyRecord(h, from);
    to := TwinOf(s, record.1, record.0);
    AlikeByStrings(to, from);
    BagConcat(s, RecordList(record.0, record.1), 0);
    Grow(old(h.Blocks()), between, h.Blocks(), Bag(s, 0), Bag(RecordList(record.0, record.1), 0));
  }

  /** The deep copy of the property a twin points to: the record and its name. */
  method CopyRecord(h: Heap, from: Twin) returns (copy: (Ptr, Ptr))
    requires h.Valid()
    modifies h
    ensures h.Valid() && (copy.1 == NULL <==> from.property == NULL)
    ensures copy.1 != NULL ==> (copy.0 == NULL <==> from.recordName == NULL)
    ensures h.Blocks() == old(h.Blocks()) + Bag(RecordList(copy.0, copy.1), 0)
  {
    copy := (NULL, NULL);
    if from.property != NULL {
      var p := h.Alloc(PROPERTY_SIZE);
      var name := CopyEach(h, [from.recordName]);
      copy := (name[0], p);
      assert name == [name[0]] && [name[0], p] == name + [p];
      BagConcat(name, [p], 0);
      Rotate(old(h.Blocks()), Bag(name, 0), One(p));
      assert Bag([p], 0) == One(p) by { assert Bag([p], 1) == multiset{}; }
    }
  }

  lemma AlikeAppend(to: seq<Twin>, from: seq<Twin>, t: Twin)
    requires AllAlike(to, from) && |to| < |from| && Alike(t, from[|to|])
    ensures AllAlike(to + [t], from)
  {
  }

  lemma TwinAppend(ts: seq<Twin>, t: Twin, base: Ptr, count: nat)
    ensures Total(TwinLists(ts + [t], base, count), 0) == Total(TwinLists(ts, base, count), 0) + Bag(TwinList(t, base, count), 0)
  {
    assert TwinLists(ts + [t], base, count) == TwinLists(ts, base, count) + [TwinList(t, base, count)];
    TotalAppend(TwinLists(ts, base, count), TwinList(t, base, count), 0);
  }

  method CopyTwins(h: Heap, from: seq<Twin>) returns (to: seq<Twin>)
    requires h.Valid()
    modifies h
    ensures h.Valid() && h.Blocks() == old(h.Blocks()) + Total(TwinLists(to, NULL, 0), 0)
    ensures |to| == |from| && AllAlike(to, from)
  {
    to := [];
    while |to| < |from|
      invariant |to| <= |from| && AllAlike(to, from)
      invariant h.Valid() && h.Blocks() == old(h.Blocks()) + Total(TwinLists(to, NULL, 0), 0)
    {
      ghost var between := h.Blocks();
      var t := CopyTwin(h, from[|to|]);
      TwinAppend(to, t, NULL, 0);
      AlikeAppend(to, from, t);
      Grow(old(h.Blocks()), between, h.Blocks(), Total(TwinLists(to, NULL, 0), 0), Bag(TwinList(t, NULL, 0), 0));
      to := to + [t];
    }
  }

  method CopyMethod(h: Heap, from: Method) returns (to: Method)
    requires h.Valid()
    modifies h
    ensures h.Valid() && h.Blocks() == old(h.Blocks()) + Bag(MethodList(to), 0) && LikeMethod(to, from)
  {
    var s := CopyEach(h, [from.name, from.description]);
    ghost var between := h.Blocks();
    to := Method(s[0], s[1], NULL, []);
    assert MethodList(to) == s;
    if from.namesAt != NULL && |from.names| > 0 {
      var at, names := CopyNames(h, from.names);
      to := Method(s[0], s[1], at, names);
      assert MethodList(to) == s + (names + [at]);
      BagConcat(s, names + [at], 0);
      Grow(old(h.Blocks()), between, h.Blocks(), Bag(s, 0), Bag(names + [at], 0));
    }
  }

  method CopyNames(h: Heap, from: seq<Ptr>) returns (at: Ptr, names: seq<Ptr>)
    requires h.Valid()
    modifies h
    ensures h.Valid() && at != NULL && SameNulls(names, from)
    ensures h.Blocks() == old(h.Blocks()) + Bag(names + [at], 0)
  {
    at := h.Alloc(|from|);
    names := CopyEach(h, from);
    BagAppend(names, at, 0);
    Rotate(old(h.Blocks()), Bag(names, 0), One(at));
  }

  /** The methods so far are like their sources. */
  predicate AllLike(to: seq<Method>, from: seq<Method>) {
    |to| <= |from| && forall i :: 0 <= i < |to| ==> LikeMethod(to[i], from[i])
  }

  lemma NoneYet(from: seq<Method>)
    ensures AllLike([], from)
  {
  }

  lemma OneMore(to: seq<Method>, from: seq<Method>, m: Method)
    requires AllLike(to, from) && |to| < |from| && LikeMethod(m, from[|to|])
    ensures AllLike(to + [m], from)
  {
    hide LikeMethod;
  }

  method CopyMethods(h: Heap, from: seq<Method>) returns (to: seq<Method>)
    requires h.Valid()
    modifies h
    ensures h.Valid() && h.Blocks() == old(h.Blocks()) + Total(MethodLists(to), 0)
    ensures |to| == |from| && AllLike(to, from)
  {
    hide LikeMethod, AllLike;
    to := [];
    NoneYet(from);
    while |to| < |from|
      invariant |to| <= |from| && AllLike(to, from)
      invariant h.Valid() && h.Blocks() == old(h.Blocks()) + Total(MethodLists(to), 0)
    {
      ghost var between := h.Blocks();
      var m := CopyMethod(h, from[|to|]);
      assert MethodLists(to + [m]) == MethodLists(to) + [MethodList(m)];
      TotalAppend(MethodLists(to), MethodList(m), 0);
      Grow(old(h.Blocks()), between, h.Blocks(), Total(MethodLists(to), 0), Bag(MethodList(m), 0));
      OneMore(to, from, m);
      to := to + [m];
    }
  }

  // --------------------------------------------------------------- construction

  lemma BagOne(p: Ptr)
    ensures Bag([p], 0) == One(p)
  {
    assert Bag([p], 1) == multiset{};
  }

  /** The strings of an instance. Where no namespace is given, or an empty one, it becomes
      "default"; then it is set to "test" whatever it was, and `first` is lost. */
  method CopyStrings(h: Heap, from: Instance, emptyNamespace: bool) returns (id: Ptr, first: Ptr, to: seq<Ptr>)
    requires h.Valid()
    modifies h
    ensures h.Valid() && h.Blocks() == old(h.Blocks()) + (Bag(to, 0) + (One(id) + One(first)))
    ensures |to| == 6 && SameText(id, from.id) && first != NULL
    ensures to[1] != NULL && SameText(to[0], from.name) && SameText(to[2], from.model)
    ensures SameText(to[3], from.protocolName) && SameText(to[4], from.configName) && SameText(to[5], from.configData)
  {
    hide Bag;
    var heads := CopyEach(h, [from.id, from.name]);
    ghost var b1 := h.Blocks();
    first := CopyNamespace(h, from.namespace_, emptyNamespace);
    ghost var b2 := h.Blocks();
    var test := h.Alloc(5);
    ghost var b3 := h.Blocks();
    var tails := CopyEach(h, [from.model, from.protocolName, from.configName, from.configData]);
    id, to := heads[0], [heads[1], test] + tails;
    StringsGather(old(h.Blocks()), b1, b2, b3, h.Blocks(), heads, first, test, tails);
  }

  lemma StringsGather(b0: multiset<Ptr>, b1: multiset<Ptr>, b2: multiset<Ptr>, b3: multiset<Ptr>, b4: multiset<Ptr>,
                      heads: seq<Ptr>, first: Ptr, test: Ptr, tails: seq<Ptr>)
    requires |heads| == 2 && b1 == b0 + Bag(heads, 0) && b2 == b1 + One(first)
    requires b3 == b2 + One(test) && b4 == b3 + Bag(tails, 0)
    ensures b4 == b0 + (Bag([heads[1], test] + tails, 0) + (One(heads[0]) + One(first)))
  {
    assert heads == [heads[0], heads[1]];
    BagTwo(heads[0], heads[1]);
    BagTwo(heads[1], test);
    BagConcat([heads[1], test], tails, 0);
    Gather6(b0, One(heads[0]), One(heads[1]), One(first), One(test), Bag(tails, 0));
  }

  lemma BagTwo(p: Ptr, q: Ptr)
    ensures Bag([p, q], 0) == One(p) + One(q)
  {
    BagOne(q);
    BagConcat([p], [q], 0);
    BagOne(p);
    assert [p] + [q] == [p, q];
  }

  lemma Gather6(b: multiset<Ptr>, i: multiset<Ptr>, n: multiset<Ptr>, f: multiset<Ptr>, t: multiset<Ptr>, r: multiset<Ptr>)
    ensures b + (i + n) + f + t + r == b + ((n + t + r) + (i + f))
  {
  }

  method CopyNamespace(h: Heap, from: Ptr, emptyNamespace: bool) returns (first: Ptr)
    requires h.Valid()
    modifies h
    ensures h.Valid() && first != NULL && h.Blocks() == old(h.Blocks()) + One(first)
  {
    first := CopyString(h, from);
    if first == NULL || emptyNamespace {
      BagOne(first);
      FreeEach(h, [first], old(h.Blocks()));
      first := h.Alloc(8);
    }
  }

  method CopyTwinArray(h: Heap, from: Instance) returns (at: Ptr, to: seq<Twin>)
    requires h.Valid()
    modifies h
    ensures h.Valid() && h.Blocks() == old(h.Blocks()) + ArrayBag(at, TwinLists(to, NULL, 0))
    ensures at == NULL <==> to == []
    ensures to != [] ==> |to| == |from.twins| && AllAlike(to, from.twins)
    ensures to == [] <==> from.twinsAt == NULL || from.twins == []
  {
    at, to := NULL, [];
    if from.twinsAt != NULL && |from.twins| > 0 {
      at := h.Alloc(|from.twins|);
      to := CopyTwins(h, from.twins);
      Rotate(old(h.Blocks()), Total(TwinLists(to, NULL, 0), 0), One(at));
    }
  }

  /** One property like each of the instance's. */
  predicate PropertiesCopied(from: Instance, to: seq<Property>) {
    && |to| == (if from.propertiesAt == NULL then 0 else |from.properties|)
    && forall i :: 0 <= i < |to| ==> LikeProperty(to[i], from.properties[i])
  }

  lemma PropertiesByLists(ps: seq<Property>, qs: seq<Property>)
    requires |ps| == |qs|
    requires forall i :: 0 <= i < |ps| ==> SameNulls(PropertyLists(ps)[i], PropertyLists(qs)[i])
    ensures forall i :: 0 <= i < |ps| ==> LikeProperty(ps[i], qs[i])
  {
    forall i | 0 <= i < |ps| ensures LikeProperty(ps[i], qs[i]) {
      var a, b := PropertyLists(ps)[i], PropertyLists(qs)[i];
      assert SameNulls(a, b) && a == PropertyList(ps[i]) && b == PropertyList(qs[i]);
      assert SameText(a[0], b[0]) && SameText(a[1], b[1]) && SameText(a[2], b[2]) && SameText(a[3], b[3]);
    }
  }

  /** No block that was live before lies inside the new array. */
  method CopyPropertyArray(h: Heap, from: Instance) returns (at: Ptr, to: seq<Property>)
    requires h.Valid()
    modifies h
    ensures h.Valid() && h.Blocks() == old(h.Blocks()) + ArrayBag(at, PropertyLists(to))
    ensures (at == NULL <==> to == []) && PropertiesCopied(from, to)
    ensures forall p :: p in old(h.Blocks()) ==> !Embedded(p, at, |to|)
  {
    at, to := NULL, [];
    if from.propertiesAt != NULL && |from.properties| > 0 {
      at := h.Alloc(|from.properties| * PROPERTY_SIZE);
      FreshApart(old(h.live), h.live, at, |from.properties|);
      var lists := CopyLists(h, PropertyLists(from.properties));
      to := PropertiesOf(lists);
      PropertiesByLists(to, from.properties);
      Rotate(old(h.Blocks()), Total(lists, 0), One(at));
    }
  }

  lemma FreshApart(before: map<Ptr, nat>, after: map<Ptr, nat>, at: Ptr, count: nat)
    requires at !in before && after == before[at := count * PROPERTY_SIZE]
    requires forall a, b :: a in after && b in after && a < b ==> a + after[a] <= b
    ensures forall p :: p in multiset(before.Keys) ==> !Embedded(p, at, count)
  {
    forall p | p in multiset(before.Keys) ensures !Embedded(p, at, count) {
      assert p in after && at in after && p != at;
      if at < p {
        assert at + after[at] <= p;
      }
    }
  }

  function PropertyOf(s: seq<Ptr>): (p: Property)
    requires |s| == 4
    ensures PropertyList(p) == s
  {
    Property(s[0], s[1], s[2], s[3])
  }

  function PropertiesOf(lists: seq<seq<Ptr>>): (ps: seq<Property>)
    requires forall i :: 0 <= i < |lists| ==> |lists[i]| == 4
    ensures |ps| == |lists| && PropertyLists(ps) == lists
  {
    var ps := seq(|lists|, i requires 0 <= i < |lists| => PropertyOf(lists[i]));
    assert forall i :: 0 <= i < |lists| ==> PropertyLists(ps)[i] == lists[i];
    ps
  }

  predicate MethodsCopied(from: Instance, to: seq<Method>) {
    && |to| == (if from.methodsAt == NULL then 0 else |from.methods|)
    && forall i :: 0 <= i < |to| ==> LikeMethod(to[i], from.methods[i])
  }

  method CopyMethodArray(h: Heap, from: Instance) returns (at: Ptr, to: seq<Method>)
    requires h.Valid()
    modifies h
    ensures h.Valid() && h.Blocks() == old(h.Blocks()) + ArrayBag(at, MethodLists(to))
    ensures (at == NULL <==> to == []) && MethodsCopied(from, to)
  {
    at, to := NULL, [];
    if from.methodsAt != NULL && |from.methods| > 0 {
      at := h.Alloc(|from.methods|);
      to := CopyMethods(h, from.methods);
      Rotate(old(h.Blocks()), Total(MethodLists(to), 0), One(at));
    }
  }

  /** The deep copies of the twins' properties are told apart from the elements of the new
      array, so what freeing the twins frees is what copying them allocated. */
  lemma CopiesStayApart(ts: seq<Twin>, blocks: multiset<Ptr>, at: Ptr, count: nat)
    requires Total(TwinLists(ts, NULL, 0), 0) <= blocks
    requires forall p :: p in blocks ==> !Embedded(p, at, count)
    ensures TwinLists(ts, at, count) == TwinLists(ts, NULL, 0)
    ensures forall i :: 0 <= i < |ts| ==> !Embedded(ts[i].property, at, count)
  {
    forall i | 0 <= i < |ts| ensures !Embedded(ts[i].property, at, count) {
      if ts[i].property != NULL {
        var list := TwinList(ts[i], NULL, 0);
        assert TwinLists(ts, NULL, 0)[i] == list && list[8] == ts[i].property;
        BagHas(list, 0, 8);
        TotalHas(TwinLists(ts, NULL, 0), 0, i);
      }
    }
  }

  predicate WellBuilt(d: Instance) {
    && (d.twinsAt == NULL ==> d.twins == [])
    && (d.propertiesAt == NULL <==> d.properties == [])
    && (d.methodsAt == NULL <==> d.methods == [])
  }

  function InstanceOf(id: Ptr, s: seq<Ptr>, twinsAt: Ptr, twins: seq<Twin>, propertiesAt: Ptr, properties: seq<Property>,
                      methodsAt: Ptr, methods: seq<Method>): (d: Instance)
    requires |s| == 6
    ensures InstanceStrings(d) == s && d.id == id && d.twinsAt == twinsAt && d.twins == twins
    ensures d.propertiesAt == propertiesAt && d.properties == properties
    ensures d.methodsAt == methodsAt && d.methods == methods
  {
    Instance(id, s[0], s[1], s[2], s[3], s[4], s[5], twinsAt, twins, propertiesAt, properties, methodsAt, methods)
  }

  /** The same texts are set, the namespace always. */
  predicate TextsCopied(from: Instance, d: Instance) {
    && SameText(d.id, from.id) && SameText(d.name, from.name) && d.namespace_ != NULL
    && SameText(d.model, from.model) && SameText(d.protocolName, from.protocolName)
    && SameText(d.configName, from.configName) && SameText(d.configData, from.configData)
  }

  lemma TextsByStrings(from: Instance, d: Instance, s: seq<Ptr>)
    requires |s| == 6 && InstanceStrings(d) == s && SameText(d.id, from.id)
    requires s[1] != NULL && SameText(s[0], from.name) && SameText(s[2], from.model)
    requires SameText(s[3], from.protocolName) && SameText(s[4], from.configName) && SameText(s[5], from.configData)
    ensures TextsCopied(from, d)
  {
  }

  predicate TwinsCopied(from: Instance, d: Instance) {
    && (d.twins == [] <==> from.twinsAt == NULL || from.twins == [])
    && (d.twins == [] ==> d.twinsAt == NULL)
    && (d.twins != [] ==> Mirrors(d, from.twins))
  }

  /** The twins are like these, and no property record of theirs is taken for embedded. */
  predicate Mirrors(d: Instance, shape: seq<Twin>) {
    && |d.twins| == |shape| && AllAlike(d.twins, shape)
    && forall i :: 0 <= i < |d.twins| ==> !Embedded(d.twins[i].property, d.propertiesAt, |d.properties|)
  }

  method CopyInstance(h: Heap, from: Instance, emptyNamespace: bool) returns (d: Instance, first: Ptr)
    requires h.Valid()
    modifies h
    ensures h.Valid() && WellBuilt(d)
    ensures h.Blocks() == old(h.Blocks()) + (InstanceBag(d) + (One(d.id) + One(first)))
    ensures first != NULL && TextsCopied(from, d) && TwinsCopied(from, d)
    ensures PropertiesCopied(from, d.properties) && MethodsCopied(from, d.methods)
  {
    hide PropertiesCopied, MethodsCopied;
    var id, lost, s := CopyStrings(h, from, emptyNamespace);
    first := lost;
    ghost var b1 := h.Blocks();
    var twinsAt, twins := CopyTwinArray(h, from);
    ghost var b2 := h.Blocks();
    var propertiesAt, properties := CopyPropertyArray(h, from);
    if twinsAt != NULL {
      CopiesStayApart(twins, b2, propertiesAt, |properties|);
    }
    ghost var b3 := h.Blocks();
    var methodsAt, methods := CopyMethodArray(h, from);
    d := InstanceOf(id, s, twinsAt, twins, propertiesAt, properties, methodsAt, methods);
    TextsByStrings(from, d, s);
    InstanceGather(old(h.Blocks()), b1, b2, b3, h.Blocks(), d, first);
  }

  lemma InstanceGather(b0: multiset<Ptr>, b1: multiset<Ptr>, b2: multiset<Ptr>, b3: multiset<Ptr>, b4: multiset<Ptr>,
                       d: Instance, first: Ptr)
    requires b1 == b0 + (Bag(InstanceStrings(d), 0) + (One(d.id) + One(first)))
    requires b2 == b1 + ArrayBag(d.twinsAt, TwinLists(d.twins, NULL, 0))
    requires d.twinsAt != NULL ==> TwinLists(d.twins, d.propertiesAt, |d.properties|) == TwinLists(d.twins, NULL, 0)
    requires b3 == b2 + ArrayBag(d.propertiesAt, PropertyLists(d.properties))
    requires b4 == b3 + ArrayBag(d.methodsAt, MethodLists(d.methods))
    ensures b4 == b0 + (InstanceBag(d) + (One(d.id) + One(first)))
  {
    Gather5(b0, Bag(InstanceStrings(d), 0), One(d.id) + One(first),
            ArrayBag(d.twinsAt, TwinLists(d.twins, d.propertiesAt, |d.properties|)),
            ArrayBag(d.propertiesAt, PropertyLists(d.properties)), ArrayBag(d.methodsAt, MethodLists(d.methods)));
  }

  lemma Gather5(b: multiset<Ptr>, s: multiset<Ptr>, e: multiset<Ptr>, t: multiset<Ptr>, p: multiset<Ptr>, m: multiset<Ptr>)
    ensures b + (s + e) + t + p + m == b + ((s + (t + (p + m))) + e)
  {
  }

  function ModelOf(id: Ptr, s: seq<Ptr>, at: Ptr, properties: seq<ModelProperty>): (m: Model)
    requires |s| == 3
    ensures ModelStrings(m) == s && m.id == id && m.propertiesAt == at && m.properties == properties
  {
    Model(id, s[0], s[1], s[2], at, properties)
  }

  /** The same texts are set, and there is one property like each of the model's. */
  predicate LikeModel(m: Model, from: Model) {
    && SameText(m.id, from.id) && SameText(m.name, from.name) && SameText(m.namespace_, from.namespace_)
    && SameText(m.description, from.description) && ModelPropertiesCopied(from, m.properties)
  }

  predicate ModelPropertiesCopied(from: Model, to: seq<ModelProperty>) {
    && |to| == (if from.propertiesAt == NULL then 0 else |from.properties|)
    && forall i :: 0 <= i < |to| ==> LikeModelProperty(to[i], from.properties[i])
  }

  lemma ModelByStrings(m: Model, from: Model, s: seq<Ptr>)
    requires ModelStrings(m) == s && SameNulls(s, ModelStrings(from)) && SameText(m.id, from.id)
    requires ModelPropertiesCopied(from, m.properties)
    ensures LikeModel(m, from)
  {
    var b := ModelStrings(from);
    assert SameText(s[0], b[0]) && SameText(s[1], b[1]) && SameText(s[2], b[2]);
  }

  method CopyModel(h: Heap, from: Model) returns (m: Model)
    requires h.Valid()
    modifies h
    ensures h.Valid() && h.Blocks() == old(h.Blocks()) + (ModelBag(m) + One(m.id))
    ensures LikeModel(m, from)
  {
    var id := CopyString(h, from.id);
    var s := CopyEach(h, ModelStrings(from));
    var at, properties := CopyModelProperties(h, from);
    m := ModelOf(id, s, at, properties);
    ModelByStrings(m, from, s);
    Gather3(old(h.Blocks()), One(id), Bag(s, 0), ArrayBag(at, ModelPropertyLists(properties)));
  }

  lemma Gather3(b: multiset<Ptr>, i: multiset<Ptr>, s: multiset<Ptr>, p: multiset<Ptr>)
    ensures b + i + s + p == b + ((s + p) + i)
  {
  }

  lemma ModelPropertiesByLists(ps: seq<ModelProperty>, qs: seq<ModelProperty>)
    requires |ps| == |qs|
    requires forall i :: 0 <= i < |ps| ==> SameNulls(ModelPropertyLists(ps)[i], ModelPropertyLists(qs)[i])
    ensures forall i :: 0 <= i < |ps| ==> LikeModelProperty(ps[i], qs[i])
  {
    forall i | 0 <= i < |ps| ensures LikeModelProperty(ps[i], qs[i]) {
      var a, b := ModelPropertyLists(ps)[i], ModelPropertyLists(qs)[i];
      assert SameNulls(a, b) && a == ModelPropertyList(ps[i]) && b == ModelPropertyList(qs[i]);
      assert SameText(a[0], b[0]) && SameText(a[1], b[1]) && SameText(a[2], b[2]) && SameText(a[3], b[3]);
      assert SameText(a[4], b[4]) && SameText(a[5], b[5]) && SameText(a[6], b[6]);
    }
  }

  method CopyModelProperties(h: Heap, from: Model) returns (at: Ptr, to: seq<ModelProperty>)
    requires h.Valid()
    modifies h
    ensures h.Valid() && h.Blocks() == old(h.Blocks()) + ArrayBag(at, ModelPropertyLists(to))
    ensures ModelPropertiesCopied(from, to)
  {
    at, to := NULL, [];
    if from.propertiesAt != NULL && |from.properties| > 0 {
      at := h.Alloc(|from.properties|);
      var lists := CopyLists(h, ModelPropertyLists(from.properties));
      to := ModelPropertiesOf(lists);
      ModelPropertiesByLists(to, from.properties);
      Rotate(old(h.Blocks()), Total(lists, 0), One(at));
    }
  }

  function ModelPropertyOf(s: seq<Ptr>): (p: ModelProperty)
    requires |s| == 7
    ensures ModelPropertyList(p) == s
  {
    ModelProperty(s[0], s[1], s[2], s[3], s[4], s[5], s[6])
  }

  function ModelPropertiesOf(lists: seq<seq<Ptr>>): (ps: seq<ModelProperty>)
    requires forall i :: 0 <= i < |lists| ==> |lists[i]| == 7
    ensures |ps| == |lists| && ModelPropertyLists(ps) == lists
  {
    var ps := seq(|lists|, i requires 0 <= i < |lists| => ModelPropertyOf(lists[i]));
    assert forall i :: 0 <= i < |lists| ==> ModelPropertyLists(ps)[i] == lists[i];
    ps
  }

  // ------------------------------------------------- twins built from properties

  /** Address of element i of the properties array. */
  function Element(base: Ptr, i: nat): Ptr {
    base + i * PROPERTY_SIZE
  }

  /** Every twin points to the element of the properties array at its own index. */
  predicate LinkedInOrder(ts: seq<Twin>, base: Ptr) {
    forall i :: 0 <= i < |ts| ==> ts[i].property == base + i * PROPERTY_SIZE
  }

  const UNSET := Reading(NULL, NULL, NULL)

  /** One twin per property: named, linked to it, and neither wanting nor reporting anything. */
  predicate TwinPerProperty(ts: seq<Twin>, base: Ptr, properties: seq<Property>) {
    && |ts| == |properties| && LinkedInOrder(ts, base)
    && forall i :: 0 <= i < |ts| ==>
         ts[i].name != NULL && ts[i].recordName == properties[i].name && ts[i].desired == UNSET && ts[i].reported == UNSET
  }

  /** The default method `SetProperty`: a name, no description, and one name per property. */
  predicate DefaultMethod(ms: seq<Method>, count: nat) {
    && |ms| == 1 && ms[0].name != NULL && ms[0].description == NULL && ms[0].namesAt != NULL
    && |ms[0].names| == count && NULL !in ms[0].names
  }

  predicate NeedsRebuild(d: Instance) {
    || (|d.properties| > 0 && (|d.twins| == 0 || d.twinsAt == NULL))
    || exists i :: 0 <= i < |d.twins| && d.twins[i].property == NULL
  }

  function AutoTwin(name: Ptr, property: Ptr, recordName: Ptr): Twin {
    TwinOf([name] + [NULL, NULL, NULL, NULL, NULL, NULL], property, recordName)
  }

  lemma AutoTwinOwnsItsName(name: Ptr, base: Ptr, i: nat, count: nat, recordName: Ptr)
    requires base != NULL && i < count
    ensures Embedded(Element(base, i), base, count)
    ensures Bag(TwinList(AutoTwin(name, Element(base, i), recordName), base, count), 0) == One(name)
  {
    var none := [NULL, NULL, NULL, NULL, NULL, NULL];
    assert TwinList(AutoTwin(name, Element(base, i), recordName), base, count) == [name] + none;
    BagConcat([name], none, 0);
    BagOne(name);
    NoPointers(none, 0);
  }

  lemma {:induction false} NoPointers(ps: seq<Ptr>, i: nat)
    requires i <= |ps| && forall k :: 0 <= k < |ps| ==> ps[k] == NULL
    ensures Bag(ps, i) == multiset{}
    decreases |ps| - i
  {
    if i < |ps| {
      NoPointers(ps, i + 1);
    }
  }

  method BuildTwins(h: Heap, base: Ptr, properties: seq<Property>) returns (at: Ptr, ts: seq<Twin>)
    requires h.Valid() && (base == NULL <==> properties == [])
    modifies h
    ensures h.Valid() && at != NULL && TwinPerProperty(ts, base, properties)
    ensures h.Blocks() == old(h.Blocks()) + ArrayBag(at, TwinLists(ts, base, |properties|))
  {
    at := h.Alloc(|properties|);
    ts := [];
    ghost var start := h.Blocks();
    while |ts| < |properties|
      invariant |ts| <= |properties| && TwinPerProperty(ts, base, properties[..|ts|])
      invariant h.Valid() && h.Blocks() == start + Total(TwinLists(ts, base, |properties|), 0)
    {
      ghost var between := h.Blocks();
      var name := h.Alloc(1);
      var t := AutoTwin(name, Element(base, |ts|), properties[|ts|].name);
      AutoTwinOwnsItsName(name, base, |ts|, |properties|, properties[|ts|].name);
      TwinAppend(ts, t, base, |properties|);
      Grow(start, between, h.Blocks(), Total(TwinLists(ts, base, |properties|), 0), One(name));
      OneTwinMore(ts, base, properties, t, name);
      ts := ts + [t];
    }
    assert properties[..|ts|] == properties;
    Rotate(old(h.Blocks()), Total(TwinLists(ts, base, |properties|), 0), One(at));
  }

  lemma OneTwinMore(ts: seq<Twin>, base: Ptr, properties: seq<Property>, t: Twin, name: Ptr)
    requires |ts| < |properties| && TwinPerProperty(ts, base, properties[..|ts|])
    requires name != NULL && t == AutoTwin(name, Element(base, |ts|), properties[|ts|].name)
    ensures TwinPerProperty(ts + [t], base, properties[..|ts + [t]|])
  {
  }

  method AllocEach(h: Heap, n: nat) returns (ps: seq<Ptr>)
    requires h.Valid()
    modifies h
    ensures h.Valid() && |ps| == n && NULL !in ps && h.Blocks() == old(h.Blocks()) + Bag(ps, 0)
  {
    ps := [];
    while |ps| < n
      invariant |ps| <= n && NULL !in ps
      invariant h.Valid() && h.Blocks() == old(h.Blocks()) + Bag(ps, 0)
    {
      ghost var between := h.Blocks();
      var p := h.Alloc(1);
      BagAppend(ps, p, 0);
      Grow(old(h.Blocks()), between, h.Blocks(), Bag(ps, 0), One(p));
      ps := ps + [p];
    }
  }

  /** The default method `SetProperty`, with one name per property. */
  method BuildMethods(h: Heap, count: nat) returns (at: Ptr, ms: seq<Method>)
    requires h.Valid()
    modifies h
    ensures h.Valid() && at != NULL && DefaultMethod(ms, count)
    ensures h.Blocks() == old(h.Blocks()) + ArrayBag(at, MethodLists(ms))
  {
    at := h.Alloc(1);
    var name := h.Alloc(1);
    var namesAt := h.Alloc(count);
    var names := AllocEach(h, count);
    ms := [Method(name, NULL, namesAt, names)];
    DefaultMethodBag(ms, name, namesAt, names);
    Gather4(old(h.Blocks()), One(at), One(name), One(namesAt), Bag(names, 0));
  }

  lemma DefaultMethodBag(ms: seq<Method>, name: Ptr, namesAt: Ptr, names: seq<Ptr>)
    requires namesAt != NULL && ms == [Method(name, NULL, namesAt, names)]
    ensures Total(MethodLists(ms), 0) == One(name) + (Bag(names, 0) + One(namesAt))
  {
    var list := [name, NULL] + (names + [namesAt]);
    assert MethodLists(ms) == [list];
    assert Total([list], 1) == multiset{};
    BagConcat([name, NULL], names + [namesAt], 0);
    BagTwo(name, NULL);
    BagAppend(names, namesAt, 0);
  }

  lemma Gather4(b: multiset<Ptr>, a: multiset<Ptr>, n: multiset<Ptr>, s: multiset<Ptr>, e: multiset<Ptr>)
    ensures b + a + n + s + e == b + ((n + (e + s)) + a)
  {
  }

  /** A device that lost its twins gets new ones. */
  method GiveTwins(h: Heap, d: Instance, ghost rest: multiset<Ptr>) returns (e: Instance)
    requires h.Valid() && WellBuilt(d) && d.twinsAt == NULL && h.Blocks() == rest + InstanceBag(d)
    modifies h
    ensures h.Valid() && WellBuilt(e) && h.Blocks() == rest + InstanceBag(e)
    ensures e == d.(twinsAt := e.twinsAt, twins := e.twins)
    ensures e.twinsAt != NULL && TwinPerProperty(e.twins, e.propertiesAt, e.properties)
  {
    var at, ts := BuildTwins(h, d.propertiesAt, d.properties);
    e := d.(twinsAt := at, twins := ts);
    Insert(rest, Bag(InstanceStrings(d), 0), ArrayBag(at, TwinLists(ts, d.propertiesAt, |d.properties|)),
           ArrayBag(d.propertiesAt, PropertyLists(d.properties)) + ArrayBag(d.methodsAt, MethodLists(d.methods)));
  }

  lemma Insert(rest: multiset<Ptr>, s: multiset<Ptr>, t: multiset<Ptr>, pm: multiset<Ptr>)
    ensures rest + (s + (multiset{} + pm)) + t == rest + (s + (t + pm))
  {
  }

  method GiveMethods(h: Heap, d: Instance, ghost rest: multiset<Ptr>) returns (e: Instance)
    requires h.Valid() && WellBuilt(d) && d.methodsAt == NULL && h.Blocks() == rest + InstanceBag(d)
    modifies h
    ensures h.Valid() && WellBuilt(e) && h.Blocks() == rest + InstanceBag(e)
    ensures e == d.(methodsAt := e.methodsAt, methods := e.methods) && DefaultMethod(e.methods, |d.properties|)
  {
    var at, ms := BuildMethods(h, |d.properties|);
    e := d.(methodsAt := at, methods := ms);
    InsertLast(rest, Bag(InstanceStrings(d), 0), ArrayBag(d.twinsAt, TwinLists(d.twins, d.propertiesAt, |d.properties|)),
               ArrayBag(d.propertiesAt, PropertyLists(d.properties)), ArrayBag(at, MethodLists(ms)));
  }

  lemma InsertLast(rest: multiset<Ptr>, s: multiset<Ptr>, t: multiset<Ptr>, p: multiset<Ptr>, m: multiset<Ptr>)
    ensures rest + (s + (t + (p + multiset{}))) + m == rest + (s + (t + (p + m)))
  {
  }

  /** The array is freed, what its elements own is not: from here on no pointer leads to it. */
  method DropTwins(h: Heap, d: Instance, ghost rest: multiset<Ptr>) returns (e: Instance)
    requires h.Valid() && WellBuilt(d) && h.Blocks() == rest + InstanceBag(d)
    modifies h
    ensures h.Valid() && e == d.(twinsAt := NULL, twins := []) && WellBuilt(e)
    ensures h.Blocks() == rest + OwnedByTwins(d) + InstanceBag(e)
  {
    e := d.(twinsAt := NULL, twins := []);
    ghost var pm := ArrayBag(d.propertiesAt, PropertyLists(d.properties)) + ArrayBag(d.methodsAt, MethodLists(d.methods));
    if d.twinsAt == NULL {
      assert Total(TwinLists(d.twins, d.propertiesAt, |d.properties|), 0) == multiset{};
      Nothing(rest);
    } else {
      TakeOut(rest, Bag(InstanceStrings(d), 0), OwnedByTwins(d), One(d.twinsAt), pm);
      BagOne(d.twinsAt);
      FreeEach(h, [d.twinsAt], rest + OwnedByTwins(d) + InstanceBag(e));
    }
  }

  function OwnedByTwins(d: Instance): multiset<Ptr> {
    Total(TwinLists(d.twins, d.propertiesAt, |d.properties|), 0)
  }

  lemma TakeOut(rest: multiset<Ptr>, s: multiset<Ptr>, t: multiset<Ptr>, a: multiset<Ptr>, pm: multiset<Ptr>)
    ensures rest + (s + ((t + a) + pm)) == rest + t + (s + (multiset{} + pm)) + a
  {
  }

  /** Twins that all have a property are kept. Others make way for one twin per property, linked
      to it, and what they owned is lost. Either way there is nothing left to rebuild. */
  ghost predicate Rebuilt(d: Instance, e: Instance, lost: multiset<Ptr>) {
    && lost == (if NeedsRebuild(d) then OwnedByTwins(d) else multiset{})
    && !NeedsRebuild(e)
    && (!NeedsRebuild(d) ==> e.twinsAt == d.twinsAt && e.twins == d.twins)
    && (NeedsRebuild(d) ==> TwinPerProperty(e.twins, e.propertiesAt, e.properties))
    && MethodsGiven(d, e)
    && e == d.(twinsAt := e.twinsAt, twins := e.twins, methodsAt := e.methodsAt, methods := e.methods)
  }

  /** Where there are properties and no method, there is the default method now. */
  predicate MethodsGiven(d: Instance, e: Instance) {
    if d.methods == [] && d.properties != [] then DefaultMethod(e.methods, |d.properties|) else e.methods == d.methods
  }

  /** `device_runtime_rebuild`. */
  method Rebuild(h: Heap, d: Instance, ghost rest: multiset<Ptr>) returns (e: Instance, ghost lost: multiset<Ptr>)
    requires h.Valid() && WellBuilt(d) && h.Blocks() == rest + InstanceBag(d)
    modifies h
    ensures h.Valid() && WellBuilt(e) && h.Blocks() == rest + lost + InstanceBag(e)
    ensures Rebuilt(d, e, lost)
  {
    hide InstanceBag, OwnedByTwins, TwinPerProperty, DefaultMethod;
    e, lost := d, multiset{};
    if NeedsRebuild(d) {
      lost := OwnedByTwins(d);
      e := DropTwins(h, d, rest);
      e := GiveTwins(h, e, rest + lost);
      InOrderNeedsNone(e);
    } else {
      Nothing(rest);
    }
    if |e.methods| == 0 && |e.properties| > 0 {
      e := GiveMethods(h, e, rest + lost);
    }
  }

  lemma InOrderNeedsNone(d: Instance)
    requires WellBuilt(d) && TwinPerProperty(d.twins, d.propertiesAt, d.properties) && d.twinsAt != NULL
    ensures !NeedsRebuild(d)
  {
    forall i | 0 <= i < |d.twins| ensures d.twins[i].property != NULL {
      assert d.twins[i].property == d.propertiesAt + i * PROPERTY_SIZE;
    }
  }

  // ---------------------------------------------------------------- replacement

  function WithString(t: Twin, k: nat, p: Ptr): Twin
    requires k < 7
  {
    TwinOf(TwinStrings(t)[k := p], t.property, t.recordName)
  }

  function WithTwinString(d: Instance, i: nat, k: nat, p: Ptr): Instance
    requires i < |d.twins| && k < 7
  {
    d.(twins := d.twins[i := WithString(d.twins[i], k, p)])
  }

  lemma {:induction false} BagOut(ps: seq<Ptr>, k: nat, i: nat)
    requires i <= k < |ps|
    ensures Bag(ps, i) == Bag(ps[k := NULL], i) + One(ps[k])
    decreases |ps| - i
  {
    if i < k {
      BagOut(ps, k, i + 1);
      BagOutBefore(ps, k, i);
    } else {
      BagOutHere(ps, k);
    }
  }

  lemma BagOutBefore(ps: seq<Ptr>, k: nat, i: nat)
    requires i < k < |ps| && Bag(ps, i + 1) == Bag(ps[k := NULL], i + 1) + One(ps[k])
    ensures Bag(ps, i) == Bag(ps[k := NULL], i) + One(ps[k])
  {
    hide One;
    Swap(One(ps[i]), Bag(ps[k := NULL], i + 1), One(ps[k]));
  }

  lemma BagOutHere(ps: seq<Ptr>, k: nat)
    requires k < |ps|
    ensures Bag(ps, k) == Bag(ps[k := NULL], k) + One(ps[k])
  {
    BagDependsOn(ps, ps[k := NULL], k + 1);
    assert One(NULL) == multiset{};
    Exchange(One(ps[k]), Bag(ps, k + 1));
    hide One;
  }

  lemma {:induction false} BagDependsOn(a: seq<Ptr>, b: seq<Ptr>, i: nat)
    requires i <= |a| == |b| && forall j :: i <= j < |a| ==> a[j] == b[j]
    ensures Bag(a, i) == Bag(b, i)
    decreases |a| - i
  {
    if i < |a| {
      BagDependsOn(a, b, i + 1);
    }
  }

  lemma Exchange(a: multiset<Ptr>, b: multiset<Ptr>)
    ensures a + b == multiset{} + b + a
  {
  }

  lemma {:induction false} TotalOut(lists: seq<seq<Ptr>>, k: nat, out: seq<Ptr>, p: multiset<Ptr>, i: nat)
    requires i <= k < |lists| && Bag(lists[k], 0) == Bag(out, 0) + p
    ensures Total(lists, i) == Total(lists[k := out], i) + p
    decreases |lists| - i
  {
    if i < k {
      TotalOut(lists, k, out, p, i + 1);
      Swap(Bag(lists[i], 0), Total(lists[k := out], i + 1), p);
    } else {
      TotalDependsOn(lists, lists[k := out], i + 1);
      Rotate(multiset{}, Bag(out, 0) + p, Total(lists, i + 1));
      MoveLast(Bag(out, 0), p, Total(lists, i + 1));
    }
  }

  lemma {:induction false} TotalDependsOn(a: seq<seq<Ptr>>, b: seq<seq<Ptr>>, i: nat)
    requires i <= |a| == |b| && forall j :: i <= j < |a| ==> a[j] == b[j]
    ensures Total(a, i) == Total(b, i)
    decreases |a| - i
  {
    if i < |a| {
      TotalDependsOn(a, b, i + 1);
    }
  }

  lemma MoveLast(a: multiset<Ptr>, p: multiset<Ptr>, b: multiset<Ptr>)
    ensures a + p + b == a + b + p
  {
  }

  /** A string of a twin is one block of what the instance owns. */
  lemma StringOut(d: Instance, i: nat, k: nat)
    requires WellBuilt(d) && i < |d.twins| && k < 7
    ensures InstanceBag(d) == InstanceBag(WithTwinString(d, i, k, NULL)) + One(TwinStrings(d.twins[i])[k])
  {
    var e, n := WithTwinString(d, i, k, NULL), |d.properties|;
    var p := TwinStrings(d.twins[i])[k];
    var lists := TwinLists(d.twins, d.propertiesAt, n);
    var out, list: seq<Ptr> := TwinList(e.twins[i], d.propertiesAt, n), lists[i];
    assert out == list[k := NULL] && list[k] == p;
    BagOut(list, k, 0);
    assert TwinLists(e.twins, d.propertiesAt, n) == lists[i := out];
    TotalOut(lists, i, out, One(p), 0);
    TakeString(Bag(InstanceStrings(d), 0), Total(lists[i := out], 0), One(p), One(d.twinsAt),
               ArrayBag(d.propertiesAt, PropertyLists(d.properties)) + ArrayBag(d.methodsAt, MethodLists(d.methods)));
  }

  lemma TakeString(s: multiset<Ptr>, t: multiset<Ptr>, p: multiset<Ptr>, a: multiset<Ptr>, pm: multiset<Ptr>)
    ensures s + ((t + p + a) + pm) == s + ((t + a) + pm) + p
  {
  }

  /** `free(twin->field); twin->field = strdup(value);` */
  method ReplaceString(h: Heap, d: Instance, i: nat, k: nat, ghost rest: multiset<Ptr>) returns (e: Instance)
    requires h.Valid() && WellBuilt(d) && i < |d.twins| && k < 7 && h.Blocks() == rest + InstanceBag(d)
    modifies h
    ensures h.Valid() && WellBuilt(e) && h.Blocks() == rest + InstanceBag(e)
    ensures exists p :: p != NULL && e == WithTwinString(d, i, k, p)
  {
    hide InstanceBag;
    var was, none := TwinStrings(d.twins[i])[k], WithTwinString(d, i, k, NULL);
    StringOut(d, i, k);
    BagOne(was);
    Swap(rest, InstanceBag(none), One(was));
    FreeEach(h, [was], rest + InstanceBag(none));
    var p := h.Alloc(1);
    e := WithTwinString(d, i, k, p);
    assert WithTwinString(e, i, k, NULL) == none by { Overwrite(d, i, k, p); }
    StringOut(e, i, k);
    Swap(rest, InstanceBag(none), One(p));
  }

  lemma Overwrite(d: Instance, i: nat, k: nat, p: Ptr)
    requires i < |d.twins| && k < 7
    ensures WithTwinString(WithTwinString(d, i, k, p), i, k, NULL) == WithTwinString(d, i, k, NULL)
    ensures TwinStrings(WithTwinString(d, i, k, p).twins[i])[k] == p
  {
    var s: seq<Ptr> := TwinStrings(d.twins[i]);
    var t: seq<Ptr> := s[k := p];
    assert t[k := NULL] == s[k := NULL];
  }

  /** A twin that has a desired value, or that reports a value and its time. */
  function Touched(t: Twin, desired: bool, p: Ptr, q: Ptr): Twin {
    if desired then t.(desired := t.desired.(value := p))
    else t.(reported := t.reported.(value := p, timestamp := q))
  }

  ghost predicate Written(d: Instance, e: Instance, i: nat, desired: bool) {
    if i >= |d.twins| then e == d
    else exists p, q :: p != NULL && q != NULL && e == d.(twins := d.twins[i := Touched(d.twins[i], desired, p, q)])
  }

  /** Desired values are replaced by the server, reported ones and their times by both sides. */
  method WriteTwin(h: Heap, d: Instance, i: nat, desired: bool, ghost rest: multiset<Ptr>) returns (e: Instance)
    requires h.Valid() && WellBuilt(d) && h.Blocks() == rest + InstanceBag(d)
    modifies h
    ensures h.Valid() && WellBuilt(e) && h.Blocks() == rest + InstanceBag(e) && Written(d, e, i, desired)
  {
    hide InstanceBag, WellBuilt;
    e := d;
    if i < |d.twins| {
      if desired {
        e := ReplaceString(h, d, i, 1, rest);
        ghost var p :| p != NULL && e == WithTwinString(d, i, 1, p);
        assert e == d.(twins := d.twins[i := Touched(d.twins[i], desired, p, p)]);
      } else {
        var half := ReplaceString(h, d, i, 4, rest);
        ghost var p :| p != NULL && half == WithTwinString(d, i, 4, p);
        e := ReplaceString(h, half, i, 5, rest);
        ghost var q :| q != NULL && e == WithTwinString(half, i, 5, q);
        assert e.twins == d.twins[i := Touched(d.twins[i], desired, p, q)];
      }
    }
  }

  // --------------------------------------------------------------------- device

  datatype Client = Client(at: Ptr, protocolName: Ptr, configData: Ptr)

  const NO_CLIENT: Client := Client(NULL, NULL, NULL)

  function ClientBag(c: Client): multiset<Ptr> {
    ArrayBag(c.at, [[c.protocolName, c.configData]])
  }

  /** A device as the blocks that it and its parts point to. */
  class Device {
    const at: Ptr
    const model: Model
    var instance: Instance
    var client: Client
    var status: Ptr

    constructor (at: Ptr, instance: Instance, model: Model, status: Ptr)
      ensures this.at == at && this.instance == instance && this.model == model && this.status == status
      ensures client == NO_CLIENT
    {
      this.at, this.instance, this.model, this.status := at, instance, model, status;
      client := NO_CLIENT;
    }

    /** What `device_free` frees. */
    ghost function Owned(): multiset<Ptr>
      reads this
    {
      ClientBag(client) + (InstanceBag(instance) + (ModelBag(model) + Bag([status, at], 0)))
    }

    /** `device_free`, once the data thread is gone. */
    method Free(h: Heap, ghost rest: multiset<Ptr>)
      requires h.Valid() && h.Blocks() == rest + Owned()
      modifies h
      ensures h.Valid() && h.Blocks() == rest
    {
      ghost var tail := ModelBag(model) + Bag([status, at], 0);
      Rotate(rest, ClientBag(client), InstanceBag(instance) + tail);
      FreeArray(h, client.at, [[client.protocolName, client.configData]], rest + (InstanceBag(instance) + tail));
      Rotate(rest, InstanceBag(instance), tail);
      FreeInstance(h, instance, rest + tail);
      Rotate(rest, ModelBag(model), Bag([status, at], 0));
      FreeModel(h, model, rest + Bag([status, at], 0));
      FreeEach(h, [status, at], rest);
    }

    method AddClient(h: Heap, ghost rest: multiset<Ptr>)
      requires h.Valid() && client == NO_CLIENT && h.Blocks() == rest + Owned()
      modifies this`client, h
      ensures h.Valid() && h.Blocks() == rest + Owned()
      ensures client.at != NULL && SameText(client.protocolName, instance.configName)
      ensures SameText(client.configData, instance.configData)
    {
      ghost var others := InstanceBag(instance) + (ModelBag(model) + Bag([status, at], 0));
      client := NewClient(h, instance.configName, instance.configData);
      InsertClient(rest, ClientBag(client), others);
    }

    /** The end of `device_new`: twins from properties when there are none, and a method. */
    method Complete(h: Heap, ghost rest: multiset<Ptr>)
      requires h.Valid() && WellBuilt(instance) && (instance.twins == [] ==> instance.twinsAt == NULL)
      requires h.Blocks() == rest + Owned()
      modifies this`instance, h
      ensures h.Valid() && WellBuilt(instance) && h.Blocks() == rest + Owned()
      ensures Completed(old(instance), instance)
    {
      hide InstanceBag, ModelBag, ClientBag;
      Around(rest, ClientBag(client), InstanceBag(instance), ModelBag(model) + Bag([status, at], 0));
      instance := CompleteInstance(h, instance, rest + ClientBag(client) + (ModelBag(model) + Bag([status, at], 0)));
      Around(rest, ClientBag(client), InstanceBag(instance), ModelBag(model) + Bag([status, at], 0));
    }

    method RebuildTwins(h: Heap, ghost rest: multiset<Ptr>) returns (ghost lost: multiset<Ptr>)
      requires WellBuilt(instance) && h.Valid()
      requires h.Blocks() == rest + Owned()
      modifies this`instance, h
      ensures h.Valid() && WellBuilt(instance) && h.Blocks() == rest + lost + Owned()
      ensures Rebuilt(old(instance), instance, lost)
    {
      hide InstanceBag, ModelBag, ClientBag;
      ghost var tail := ModelBag(model) + Bag([status, at], 0);
      Around(rest, ClientBag(client), InstanceBag(instance), tail);
      instance, lost := Rebuild(h, instance, rest + ClientBag(client) + tail);
      AroundLost(rest, ClientBag(client), InstanceBag(instance), tail, lost);
    }

    /** What `device_start` does to memory: the rebuild, and a new status string. */
    method Start(h: Heap, ghost rest: multiset<Ptr>) returns (ghost lost: multiset<Ptr>)
      requires WellBuilt(instance) && h.Valid()
      requires h.Blocks() == rest + Owned()
      modifies this`instance, this`status, h
      ensures h.Valid() && WellBuilt(instance) && h.Blocks() == rest + lost + Owned()
      ensures Rebuilt(old(instance), instance, lost) && status != NULL
    {
      hide *;
      lost := RebuildTwins(h, rest);
      SetStatus(h, rest + lost);
    }

    /** A writer replaces the desired value of a twin, or what it reports. */
    method Write(h: Heap, i: nat, desired: bool, ghost rest: multiset<Ptr>)
      requires h.Valid() && WellBuilt(instance) && h.Blocks() == rest + Owned()
      modifies this`instance, h
      ensures h.Valid() && WellBuilt(instance) && h.Blocks() == rest + Owned()
      ensures Written(old(instance), instance, i, desired)
    {
      hide InstanceBag, ModelBag, ClientBag;
      ghost var tail := ModelBag(model) + Bag([status, at], 0);
      Around(rest, ClientBag(client), InstanceBag(instance), tail);
      instance := WriteTwin(h, instance, i, desired, rest + ClientBag(client) + tail);
      Around(rest, ClientBag(client), InstanceBag(instance), tail);
    }

    /** `device_status_update`. */
    method SetStatus(h: Heap, ghost rest: multiset<Ptr>)
      requires h.Valid() && h.Blocks() == rest + Owned()
      modifies this`status, h
      ensures h.Valid() && status != NULL && h.Blocks() == rest + Owned()
    {
      ghost var others := rest + ClientBag(client) + InstanceBag(instance) + ModelBag(model) + One(at);
      ToStatus(rest, ClientBag(client), InstanceBag(instance), ModelBag(model), status, at);
      BagOne(status);
      FreeEach(h, [status], others);
      status := h.Alloc(1);
      ToStatus(rest, ClientBag(client), InstanceBag(instance), ModelBag(model), status, at);
    }
  }

  lemma ToStatus(rest: multiset<Ptr>, c: multiset<Ptr>, i: multiset<Ptr>, m: multiset<Ptr>, status: Ptr, at: Ptr)
    ensures rest + (c + (i + (m + Bag([status, at], 0)))) == rest + c + i + m + One(at) + One(status)
  {
    BagTwo(status, at);
  }

  method NewClient(h: Heap, protocolName: Ptr, configData: Ptr) returns (c: Client)
    requires h.Valid()
    modifies h
    ensures h.Valid() && c.at != NULL && h.Blocks() == old(h.Blocks()) + ClientBag(c)
    ensures SameText(c.protocolName, protocolName) && SameText(c.configData, configData)
  {
    var p := h.Alloc(1);
    var s := CopyEach(h, [protocolName, configData]);
    c := Client(p, s[0], s[1]);
    assert [c.protocolName, c.configData] == s;
    OneList(s);
    Rotate(old(h.Blocks()), Bag(s, 0), One(p));
  }

  ghost predicate Completed(d: Instance, e: Instance) {
    && e == d.(twinsAt := e.twinsAt, twins := e.twins, methodsAt := e.methodsAt, methods := e.methods)
    && (d.twins != [] || d.properties == [] ==> e.twins == d.twins && e.twinsAt == d.twinsAt)
    && (d.twins == [] ==> TwinPerProperty(e.twins, e.propertiesAt, e.properties) && !NeedsRebuild(e))
    && MethodsGiven(d, e)
  }

  method CompleteInstance(h: Heap, d: Instance, ghost rest: multiset<Ptr>) returns (e: Instance)
    requires h.Valid() && WellBuilt(d) && (d.twins == [] ==> d.twinsAt == NULL) && h.Blocks() == rest + InstanceBag(d)
    modifies h
    ensures h.Valid() && WellBuilt(e) && h.Blocks() == rest + InstanceBag(e) && Completed(d, e)
  {
    hide InstanceBag, DefaultMethod;
    e := d;
    if |e.twins| == 0 && |e.properties| > 0 {
      e := GiveTwins(h, e, rest);
      InOrderNeedsNone(e);
    }
    if |e.methods| == 0 && |e.properties| > 0 {
      e := GiveMethods(h, e, rest);
    }
  }

  lemma OneList(s: seq<Ptr>)
    ensures Total([s], 0) == Bag(s, 0)
  {
    assert Total([s], 1) == multiset{};
  }

  lemma InsertClient(rest: multiset<Ptr>, c: multiset<Ptr>, others: multiset<Ptr>)
    ensures rest + (multiset{} + others) + c == rest + (c + others)
  {
  }

  lemma Around(rest: multiset<Ptr>, c: multiset<Ptr>, i: multiset<Ptr>, tail: multiset<Ptr>)
    ensures rest + (c + (i + tail)) == rest + c + tail + i
  {
  }

  lemma AroundLost(rest: multiset<Ptr>, c: multiset<Ptr>, i: multiset<Ptr>, tail: multiset<Ptr>, lost: multiset<Ptr>)
    ensures rest + c + tail + lost + i == rest + lost + (c + (i + tail))
  {
  }

  // ------------------------------------------------------------------- lifetimes

  /** A twin of the caller's instance has no property, as when it came without a model. */
  predicate HasUnlinked(from: Instance) {
    from.twinsAt != NULL && exists i :: 0 <= i < |from.twins| && from.twins[i].property == NULL
  }

  /** How many blocks are never freed: the id, the model's id, and the first namespace. */
  function AlwaysLeaked(from: Instance, model: Model): nat {
    1 + (if from.id == NULL then 0 else 1) + (if model.id == NULL then 0 else 1)
  }

  lemma LeakSize(id: Ptr, first: Ptr, modelId: Ptr)
    ensures |One(id) + One(first) + One(modelId)|
         == (if id == NULL then 0 else 1) + (if first == NULL then 0 else 1) + (if modelId == NULL then 0 else 1)
  {
  }

  /** The instance of a new device: the texts and properties of the caller's and the namespace that is
      always set; the caller's twins, or without any, one twin per property; and the caller's
      methods, or without any and with properties, the default one. */
  ghost predicate MadeFrom(from: Instance, d: Instance) {
    && TextsCopied(from, d) && PropertiesCopied(from, d.properties)
    && (if from.twinsAt != NULL && from.twins != [] then |d.twins| == |from.twins| && AllAlike(d.twins, from.twins)
        else TwinPerProperty(d.twins, d.propertiesAt, d.properties))
    && (if (from.methodsAt != NULL && from.methods != []) || d.properties == [] then MethodsCopied(from, d.methods)
        else DefaultMethod(d.methods, |d.properties|))
  }

  /** From n properties and no twins the device gets n twins, each embedded at its own index. */
  lemma {:induction false} TwinForEachProperty(from: Instance, d: Instance, i: nat)
    requires MadeFrom(from, d) && WellBuilt(d)
    requires (from.twinsAt == NULL || from.twins == []) && from.propertiesAt != NULL && i < |from.properties|
    ensures |d.twins| == |d.properties| == |from.properties|
    ensures LikeProperty(d.properties[i], from.properties[i])
    ensures d.twins[i].name != NULL && d.twins[i].property == d.propertiesAt + i * PROPERTY_SIZE
    ensures Embedded(d.twins[i].property, d.propertiesAt, |d.properties|)
  {
    AutoTwinOwnsItsName(d.twins[i].name, d.propertiesAt, i, |d.properties|, d.twins[i].recordName);
  }

  /** Only an instance with a protocol has a client, with the texts of its configuration. */
  predicate ClientMade(from: Instance, c: Client) {
    if from.configName == NULL then c == NO_CLIENT
    else c.at != NULL && SameText(c.protocolName, from.configName) && SameText(c.configData, from.configData)
  }

  /** `device_new`. It fails when the mutex cannot be made or when a device with a protocol gets
      no client; `first` is the namespace that the second assignment loses. */
  method New(h: Heap, from: Instance, model: Model, emptyNamespace: bool, mutexOk: bool, clientOk: bool)
    returns (d: Device?, ghost leaked: multiset<Ptr>)
    requires h.Valid()
    modifies h
    ensures h.Valid() && (d == null ==> h.Blocks() == old(h.Blocks()) + leaked)
    ensures d != null ==> fresh(d) && WellBuilt(d.instance) && h.Blocks() == old(h.Blocks()) + leaked + d.Owned()
    ensures d != null <==> mutexOk && (from.configName == NULL || clientOk)
    ensures d != null ==> (NeedsRebuild(d.instance) <==> HasUnlinked(from))
    ensures d != null && HasUnlinked(from) ==> Mirrors(d.instance, from.twins)
    ensures d != null ==> MadeFrom(from, d.instance) && LikeModel(d.model, model) && ClientMade(from, d.client)
    ensures d != null ==> d.at != NULL && d.status != NULL
    ensures |leaked| == AlwaysLeaked(from, model)
  {
    hide *;
    d, leaked := Assemble(h, from, model, emptyNamespace);
    TextsOf(from, d.instance);
    ghost var rest := old(h.Blocks()) + leaked;
    if !mutexOk || (d.instance.configName != NULL && !clientOk) {
      d.Free(h, rest);
      d := null;
    } else {
      if d.instance.configName != NULL {
        d.AddClient(h, rest);
      }
      ClientOf(from, d.instance, d.client);
      ghost var copy := d.instance;
      d.Complete(h, rest);
      UnlinkedStays(from, copy, d.instance);
      CopiesGoOn(from, copy, d.instance);
    }
  }

  lemma ClientOf(from: Instance, d: Instance, c: Client)
    requires SameText(d.configName, from.configName) && SameText(d.configData, from.configData)
    requires d.configName == NULL ==> c == NO_CLIENT
    requires d.configName != NULL ==> c.at != NULL && SameText(c.protocolName, d.configName) && SameText(c.configData, d.configData)
    ensures ClientMade(from, c)
  {
  }

  lemma TextsOf(from: Instance, d: Instance)
    requires Copied(from, d)
    ensures SameText(d.configName, from.configName) && SameText(d.configData, from.configData)
    ensures d.twins == [] ==> d.twinsAt == NULL
  {
  }

  /** A deep copy. */
  ghost predicate Copied(from: Instance, d: Instance) {
    TextsCopied(from, d) && TwinsCopied(from, d) && PropertiesCopied(from, d.properties) && MethodsCopied(from, d.methods)
  }

  lemma CopiesGoOn(from: Instance, d: Instance, e: Instance)
    requires Copied(from, d) && Completed(d, e)
    ensures MadeFrom(from, e)
  {
    hide LikeProperty, LikeMethod, Alike, TwinPerProperty, NeedsRebuild;
  }

  lemma UnlinkedStays(from: Instance, d: Instance, e: Instance)
    requires Copied(from, d) && Completed(d, e) && WellBuilt(e)
    ensures NeedsRebuild(e) <==> HasUnlinked(from)
    ensures HasUnlinked(from) ==> Mirrors(e, from.twins)
  {
    if d.twins != [] {
      assert forall i :: 0 <= i < |e.twins| ==> Alike(e.twins[i], from.twins[i]);
    }
  }

  lemma OneOnly(p: Ptr)
    requires p != NULL
    ensures One(p) == multiset{p}
  {
  }

  lemma LeakOf(from: Instance, model: Model, d: Instance, m: Model, first: Ptr)
    requires TextsCopied(from, d) && LikeModel(m, model) && first != NULL
    ensures |One(d.id) + One(first) + One(m.id)| == AlwaysLeaked(from, model)
  {
    LeakSize(d.id, first, m.id);
  }

  /** `device_new` up to the status string. */
  method Assemble(h: Heap, from: Instance, model: Model, emptyNamespace: bool) returns (d: Device, ghost leaked: multiset<Ptr>)
    requires h.Valid()
    modifies h
    ensures h.Valid() && fresh(d) && WellBuilt(d.instance) && d.client == NO_CLIENT
    ensures h.Blocks() == old(h.Blocks()) + leaked + d.Owned()
    ensures Copied(from, d.instance) && LikeModel(d.model, model) && d.at != NULL && d.status != NULL
    ensures |leaked| == AlwaysLeaked(from, model)
  {
    hide LikeModel, TextsCopied, PropertiesCopied, MethodsCopied, TwinsCopied, WellBuilt, AlwaysLeaked;
    hide InstanceBag, ModelBag, ClientBag, Bag, One;
    var at := h.Alloc(1);
    var instance, first := CopyInstance(h, from, emptyNamespace);
    var copy := CopyModel(h, model);
    var status := h.Alloc(8);
    d := new Device(at, instance, copy, status);
    leaked := One(instance.id) + One(first) + One(copy.id);
    OneOnly(at);
    OneOnly(status);
    LeakOf(from, model, instance, copy, first);
    AssembleGather(old(h.Blocks()), at, InstanceBag(instance), One(instance.id), One(first), ModelBag(copy), One(copy.id), status);
  }

  lemma AssembleGather(b: multiset<Ptr>, at: Ptr, i: multiset<Ptr>, id: multiset<Ptr>, first: multiset<Ptr>,
                       m: multiset<Ptr>, mid: multiset<Ptr>, status: Ptr)
    ensures b + One(at) + (i + (id + first)) + (m + mid) + One(status)
         == b + (id + first + mid) + (ClientBag(NO_CLIENT) + (i + (m + Bag([status, at], 0))))
  {
    BagTwo(status, at);
    assert ClientBag(NO_CLIENT) == multiset{};
    AssembleSum(b, One(at), i, id, first, m, mid, One(status));
  }

  lemma AssembleSum(b: multiset<Ptr>, at: multiset<Ptr>, i: multiset<Ptr>, id: multiset<Ptr>, first: multiset<Ptr>,
                    m: multiset<Ptr>, mid: multiset<Ptr>, status: multiset<Ptr>)
    ensures b + at + (i + (id + first)) + (m + mid) + status
         == b + (id + first + mid) + (multiset{} + (i + (m + (status + at))))
  {
  }

  // --------------------------------------------------------------- exact sizes

  /** How many pointers of the list from position i on are set. */
  function Size(ps: seq<Ptr>, i: nat): nat
    requires i <= |ps|
    decreases |ps| - i
  {
    if i == |ps| then 0 else (if ps[i] == NULL then 0 else 1) + Size(ps, i + 1)
  }

  lemma {:induction false} BagSize(ps: seq<Ptr>, i: nat)
    requires i <= |ps|
    ensures |Bag(ps, i)| == Size(ps, i)
    decreases |ps| - i
  {
    if i < |ps| {
      BagSize(ps, i + 1);
    }
  }

  lemma {:induction false} SizeOfAlike(a: seq<Ptr>, b: seq<Ptr>, i: nat)
    requires i <= |a| && SameNulls(a, b)
    ensures Size(a, i) == Size(b, i)
    decreases |a| - i
  {
    if i < |a| {
      SizeOfAlike(a, b, i + 1);
    }
  }

  /** How many blocks the deep copies of the twins take: their strings and property records. */
  function TwinsSize(ts: seq<Twin>, i: nat): nat
    requires i <= |ts|
    decreases |ts| - i
  {
    if i == |ts| then 0 else Size(TwinList(ts[i], NULL, 0), 0) + TwinsSize(ts, i + 1)
  }

  lemma AlikeLists(t: Twin, u: Twin)
    requires Alike(t, u)
    ensures SameNulls(TwinList(t, NULL, 0), TwinList(u, NULL, 0))
  {
  }

  lemma {:induction false} SizeOfTwin(t: Twin, u: Twin)
    requires Alike(t, u)
    ensures |Bag(TwinList(t, NULL, 0), 0)| == Size(TwinList(u, NULL, 0), 0)
  {
    AlikeLists(t, u);
    hide TwinList, Alike, Size, Bag;
    BagSize(TwinList(t, NULL, 0), 0);
    SizeOfAlike(TwinList(t, NULL, 0), TwinList(u, NULL, 0), 0);
  }

  lemma {:induction false} LossFrom(d: Instance, shape: seq<Twin>, i: nat)
    requires i <= |d.twins| && Mirrors(d, shape)
    ensures |Total(TwinLists(d.twins, d.propertiesAt, |d.properties|), i)| == TwinsSize(shape, i)
    decreases |d.twins| - i
  {
    if i < |d.twins| {
      var list := TwinList(d.twins[i], d.propertiesAt, |d.properties|);
      assert list == TwinList(d.twins[i], NULL, 0);
      SizeOfTwin(d.twins[i], shape[i]);
      hide Bag, Size, TwinList, Alike, Embedded;
      LossFrom(d, shape, i + 1);
    }
  }

  /** What happens to a device while it lives: starts, and writers that replace strings. */
  datatype Event = Starts | Writes(twin: nat, desired: bool)

  function AfterWrite(ts: seq<Twin>, i: nat, desired: bool): seq<Twin> {
    if i < |ts| then ts[i := Touched(ts[i], desired, 1, 1)] else ts
  }

  /** How many blocks the rebuild at the first start loses, for twins as they were given and the
      writes that came before it. */
  function LostAtFirstStart(ts: seq<Twin>, events: seq<Event>, k: nat): nat
    requires k <= |events|
    decreases |events| - k
  {
    if k == |events| then 0
    else if events[k].Starts? then TwinsSize(ts, 0)
    else LostAtFirstStart(AfterWrite(ts, events[k].twin, events[k].desired), events, k + 1)
  }

  lemma TouchedAlike(t: Twin, u: Twin, desired: bool, p: Ptr, q: Ptr)
    requires Alike(t, u) && p != NULL && q != NULL
    ensures Alike(Touched(t, desired, p, q), Touched(u, desired, 1, 1))
    ensures Touched(t, desired, p, q).property == t.property
  {
  }

  /** A write keeps a device like its shape, and needing a rebuild or not. */
  lemma WrittenMirrors(d: Instance, e: Instance, shape: seq<Twin>, i: nat, desired: bool)
    requires Written(d, e, i, desired)
    ensures NeedsRebuild(e) <==> NeedsRebuild(d)
    ensures Mirrors(d, shape) ==> Mirrors(e, AfterWrite(shape, i, desired))
  {
    if i < |d.twins| {
      var p, q :| p != NULL && q != NULL && e == d.(twins := d.twins[i := Touched(d.twins[i], desired, p, q)]);
      WritePoints(d, e, i, desired, p, q);
      if Mirrors(d, shape) {
        TouchedAlike(d.twins[i], shape[i], desired, p, q);
        hide Alike, Touched, Embedded;
      }
    }
  }

  lemma WritePoints(d: Instance, e: Instance, i: nat, desired: bool, p: Ptr, q: Ptr)
    requires i < |d.twins| && e == d.(twins := d.twins[i := Touched(d.twins[i], desired, p, q)])
    ensures forall j :: 0 <= j < |d.twins| ==> e.twins[j].property == d.twins[j].property
    ensures NeedsRebuild(e) <==> NeedsRebuild(d)
  {
    assert forall j :: 0 <= j < |d.twins| ==> e.twins[j].property == d.twins[j].property;
  }

  /** What a device will still lose. */
  datatype Outlook = Unclear | Loses(blocks: nat)

  /** Nothing, once there is nothing to rebuild. Before that, with twins like `shape`, what the first
      of the remaining starts finds. */
  function OutlookOf(d: Instance, shape: seq<Twin>, events: seq<Event>, k: nat): Outlook
    requires k <= |events|
  {
    if !NeedsRebuild(d) then Loses(0)
    else if Mirrors(d, shape) then Loses(LostAtFirstStart(shape, events, k))
    else Unclear
  }

  lemma StartMeetsOutlook(d: Instance, e: Instance, now: multiset<Ptr>, shape: seq<Twin>, events: seq<Event>, k: nat, n: nat)
    requires k < |events| && events[k].Starts? && OutlookOf(d, shape, events, k) == Loses(n) && Rebuilt(d, e, now)
    ensures |now| == n && OutlookOf(e, shape, events, k + 1) == Loses(0)
  {
    if NeedsRebuild(d) {
      LossFrom(d, shape, 0);
    }
  }

  lemma WriteKeepsOutlook(d: Instance, e: Instance, shape: seq<Twin>, events: seq<Event>, k: nat, n: nat)
    requires k < |events| && events[k].Writes? && OutlookOf(d, shape, events, k) == Loses(n)
    requires Written(d, e, events[k].twin, events[k].desired)
    ensures OutlookOf(e, AfterWrite(shape, events[k].twin, events[k].desired), events, k + 1) == Loses(n)
  {
    hide Mirrors, NeedsRebuild, Written, AfterWrite;
    WrittenMirrors(d, e, shape, events[k].twin, events[k].desired);
  }

  function NextShape(shape: seq<Twin>, e: Event): seq<Twin> {
    if e.Starts? then shape else AfterWrite(shape, e.twin, e.desired)
  }

  ghost predicate Lived(d: Instance, e: Event, d': Instance, lost: multiset<Ptr>) {
    if e.Starts? then Rebuilt(d, d', lost) else lost == multiset{} && Written(d, d', e.twin, e.desired)
  }

  lemma LivedAsForeseen(d: Instance, d': Instance, now: multiset<Ptr>, shape: seq<Twin>, events: seq<Event>, k: nat, n: nat)
    requires k < |events| && OutlookOf(d, shape, events, k) == Loses(n) && Lived(d, events[k], d', now)
    ensures |now| <= n && OutlookOf(d', NextShape(shape, events[k]), events, k + 1) == Loses(n - |now|)
  {
    hide OutlookOf, Rebuilt, Written, AfterWrite;
    if events[k].Starts? {
      StartMeetsOutlook(d, d', now, shape, events, k, n);
    } else {
      WriteKeepsOutlook(d, d', shape, events, k, n);
    }
  }

  /** One event in the life of a device. What is leaked grows by what its outlook shrinks. */
  method Live(h: Heap, d: Device, events: seq<Event>, k: nat, ghost outside: multiset<Ptr>, ghost before: multiset<Ptr>,
              ghost shape: seq<Twin>, ghost n: nat)
    returns (ghost leaked: multiset<Ptr>, ghost rest: nat)
    requires k < |events| && h.Valid() && WellBuilt(d.instance) && h.Blocks() == outside + before + d.Owned()
    requires OutlookOf(d.instance, shape, events, k) == Loses(n)
    modifies h, d
    ensures h.Valid() && WellBuilt(d.instance) && h.Blocks() == outside + leaked + d.Owned()
    ensures OutlookOf(d.instance, NextShape(shape, events[k]), events, k + 1) == Loses(rest)
    ensures |leaked| + rest == |before| + n
  {
    hide InstanceBag, ModelBag, ClientBag, Rebuilt, Written, WellBuilt, OutlookOf, NextShape;
    ghost var was, lost := d.instance, multiset{};
    match events[k] {
      case Starts =>
        lost := d.Start(h, outside + before);
        Swap(outside, before, lost);
      case Writes(i, desired) =>
        d.Write(h, i, desired, outside + before);
        Nothing(before);
    }
    LivedAsForeseen(was, d.instance, lost, shape, events, k, n);
    SizeOfSum(before, lost);
    leaked, rest := before + lost, n - |lost|;
  }

  /** The whole life of a device: construction, any starts and writes, destruction. No block is
      freed twice and none of the caller's is freed: all blocks that were live before are live
      after, with exactly the leaked ones besides. Those are the id, the model's id and one copy
      of the namespace, and where a twin came without a property, all that the twins own at the
      first start. */
  method Lifetime(h: Heap, from: Instance, model: Model, emptyNamespace: bool, mutexOk: bool, clientOk: bool, events: seq<Event>)
    returns (ghost leaked: multiset<Ptr>)
    requires h.Valid()
    modifies h
    ensures h.Valid() && h.Blocks() == old(h.Blocks()) + leaked
    ensures |leaked| == AlwaysLeaked(from, model)
                      + (if mutexOk && (from.configName == NULL || clientOk) then LossOf(from, events) else 0)
  {
    hide WellBuilt, OutlookOf, LossOf, AlwaysLeaked, NextShape, HasUnlinked, Device.Owned, Heap.Blocks;
    var d;
    d, leaked := Begin(h, from, model, emptyNamespace, mutexOk, clientOk, events);
    if d == null { return; }
    ghost var shape, toCome: nat := from.twins, LossOf(from, events);
    var k := 0;
    while k < |events|
      invariant k <= |events| && h.Valid() && WellBuilt(d.instance) && h.Blocks() == old(h.Blocks()) + leaked + d.Owned()
      invariant OutlookOf(d.instance, shape, events, k) == Loses(toCome)
      invariant |leaked| + toCome == AlwaysLeaked(from, model) + LossOf(from, events)
    {
      leaked, toCome := Live(h, d, events, k, old(h.Blocks()), leaked, shape, toCome);
      shape := NextShape(shape, events[k]);
      k := k + 1;
    }
    d.Free(h, old(h.Blocks()) + leaked);
    LastOutlook(d.instance, shape, events);
  }

  /** What the rebuild loses of a device made from this instance. */
  function LossOf(from: Instance, events: seq<Event>): nat {
    if HasUnlinked(from) then LostAtFirstStart(from.twins, events, 0) else 0
  }

  /** `device_new`, with the outlook it leaves. */
  method Begin(h: Heap, from: Instance, model: Model, emptyNamespace: bool, mutexOk: bool, clientOk: bool, ghost events: seq<Event>)
    returns (d: Device?, ghost leaked: multiset<Ptr>)
    requires h.Valid()
    modifies h
    ensures h.Valid() && |leaked| == AlwaysLeaked(from, model)
    ensures d != null <==> mutexOk && (from.configName == NULL || clientOk)
    ensures d == null ==> h.Blocks() == old(h.Blocks()) + leaked
    ensures d != null ==> fresh(d) && WellBuilt(d.instance) && h.Blocks() == old(h.Blocks()) + leaked + d.Owned()
    ensures d != null ==> OutlookOf(d.instance, from.twins, events, 0) == Loses(LossOf(from, events))
  {
    hide *;
    d, leaked := New(h, from, model, emptyNamespace, mutexOk, clientOk);
    if d != null {
      FirstOutlook(d.instance, from, events);
    }
  }

  lemma FirstOutlook(d: Instance, from: Instance, events: seq<Event>)
    requires NeedsRebuild(d) <==> HasUnlinked(from)
    requires HasUnlinked(from) ==> Mirrors(d, from.twins)
    ensures OutlookOf(d, from.twins, events, 0) == Loses(LossOf(from, events))
  {
    hide NeedsRebuild, HasUnlinked, Mirrors;
  }

  lemma LastOutlook(d: Instance, shape: seq<Twin>, events: seq<Event>)
    ensures OutlookOf(d, shape, events, |events|).Loses? ==> OutlookOf(d, shape, events, |events|) == Loses(0)
  {
  }

  lemma SizeOfSum(a: multiset<Ptr>, b: multiset<Ptr>)
    ensures |a + b| == |a| + |b|
  {
  }
}

/** util/parse/grpc.c: building a device instance from a request, and the joins by name that
    link its twins and properties. */
module Linking {
  import opened CText
  import opened TwinSteps
  import opened Wire

  // ------------------------------------------------------------- the request

  datatype GrpcProperty = GrpcProperty(name: string, desired: Option<WireProperty>,
                                       collectCycle: int, reportCycle: int, reportToCloud: bool)

  datatype GrpcDevice = GrpcDevice(name: CString, modelReference: Option<string>,
                                   protocolName: Option<string>, properties: seq<GrpcProperty>)

  // ---------------------------------------------------------- the instance

  /** A device property; `pProperty` points into the model's properties. */
  datatype Property = Property(name: Option<string>, propertyName: Option<string>,
                               modelName: Option<string>, protocol: Option<string>,
                               collectCycle: int, reportCycle: int, reportToCloud: bool,
                               pProperty: Option<nat>)

  const ZEROED := Property(None, None, None, None, 0, 0, false, None)

  function TwinOf(p: GrpcProperty): Twin {
    Twin(Some(p.name), Unlinked, PropertyFromWire(p.desired, NOTHING), NOTHING)
  }

  /** The desired value of a request: nothing where none came, else the value with the last time stamp
      and type among its metadata. */
  predicate IsDesired(p: GrpcProperty, got: TwinProperty) {
    if p.desired.None? then got.value == got.metadata.timestamp == got.metadata.kind == None
    else
      && got.value == p.desired.value.value
      && IsLastOf(p.desired.value.metadata, "timestamp", None, got.metadata.timestamp)
      && IsLastOf(p.desired.value.metadata, "type", None, got.metadata.kind)
  }

  lemma {:induction false} TwinCarriesDesired(p: GrpcProperty)
    ensures var t := TwinOf(p);
            && t.propertyName == Some(p.name) && t.property == Unlinked && IsDesired(p, t.observedDesired)
            && t.reported.value == t.reported.metadata.timestamp == t.reported.metadata.kind == None
  {
    hide IsLastOf;
    ReadsLastEntries(p.desired, NOTHING);
  }

  function PropertyOf(d: GrpcDevice, p: GrpcProperty): Property {
    Property(Some(p.name), Some(p.name), d.modelReference, d.protocolName,
             p.collectCycle, p.reportCycle, p.reportToCloud, None)
  }

  method BuildTwins(d: GrpcDevice) returns (twins: array<Twin>)
    ensures twins.Length == |d.properties|
    ensures forall i :: 0 <= i < twins.Length ==> twins[i] == TwinOf(d.properties[i])
    ensures fresh(twins)
  {
    twins := new Twin[|d.properties|];
    for i := 0 to |d.properties|
      invariant forall k :: 0 <= k < i ==> twins[k] == TwinOf(d.properties[k])
    {
      var p := d.properties[i];
      twins[i] := Twin(Some(p.name), Unlinked, NOTHING, NOTHING);
      if p.desired.Some? {
        var desired := MergeProperty(p.desired.value, NOTHING);
        twins[i] := twins[i].(observedDesired := desired);
      }
    }
  }

  method BuildProperties(d: GrpcDevice) returns (properties: array<Property>)
    ensures properties.Length == |d.properties|
    ensures forall i :: 0 <= i < properties.Length ==> properties[i] == PropertyOf(d, d.properties[i])
    ensures fresh(properties)
  {
    properties := new Property[|d.properties|];
    for i := 0 to |d.properties|
      invariant forall k :: 0 <= k < i ==> properties[k] == PropertyOf(d, d.properties[k])
    {
      var p := d.properties[i];
      properties[i] := ZEROED;
      properties[i] := properties[i].(name := Some(p.name));
      properties[i] := properties[i].(propertyName := Some(p.name));
      properties[i] := properties[i].(modelName := d.modelReference);
      properties[i] := properties[i].(collectCycle := p.collectCycle);
      properties[i] := properties[i].(reportCycle := p.reportCycle);
      properties[i] := properties[i].(reportToCloud := p.reportToCloud);
      properties[i] := properties[i].(protocol := d.protocolName);
    }
  }

  // ------------------------------------------------------------------ joins

  /** The first place of `name` at or behind `from`. */
  function FirstAt(names: seq<string>, name: string, from: nat): (r: Option<nat>)
    requires from <= |names|
    ensures r.Some? ==> from <= r.value < |names| && names[r.value] == name
    ensures forall k :: from <= k < r.GetOr(|names|) ==> names[k] != name
    decreases |names| - from
  {
    if from == |names| then None
    else if names[from] == name then Some(from)
    else FirstAt(names, name, from + 1)
  }

  method FindName(names: seq<string>, name: string) returns (found: Option<nat>)
    ensures found == FirstAt(names, name, 0)
  {
    found := None;
    for j := 0 to |names|
      invariant found.None? && FirstAt(names, name, 0) == FirstAt(names, name, j)
    {
      if names[j] == name {
        return Some(j);
      }
    }
  }

  method FindProperty(properties: array<Property>, name: string, ghost names: seq<string>)
    returns (found: Option<nat>)
    requires properties.Length == |names|
    requires forall j :: 0 <= j < |names| ==> properties[j].propertyName == Some(names[j])
    ensures found == FirstAt(names, name, 0)
  {
    found := None;
    for j := 0 to properties.Length
      invariant found.None? && FirstAt(names, name, 0) == FirstAt(names, name, j)
    {
      if properties[j].propertyName == Some(name) {
        return Some(j);
      }
    }
  }

  function RequestNames(d: GrpcDevice): (r: seq<string>)
    ensures |r| == |d.properties| && forall i :: 0 <= i < |r| ==> r[i] == d.properties[i].name
  {
    seq(|d.properties|, i requires 0 <= i < |d.properties| => d.properties[i].name)
  }

  function LinkTo(place: Option<nat>): Link {
    if place.Some? then Entry(place.value) else Unlinked
  }

  /** The twins and properties of the instance; `model` holds the names of the model's
      properties when a model was given. */
  function LinkedTwin(d: GrpcDevice, model: Option<seq<string>>, i: nat): Twin
    requires i < |d.properties|
  {
    var t := TwinOf(d.properties[i]);
    if model.None? then t else t.(property := LinkTo(FirstAt(RequestNames(d), d.properties[i].name, 0)))
  }

  function LinkedProperty(d: GrpcDevice, model: Option<seq<string>>, i: nat): Property
    requires i < |d.properties|
  {
    var p := PropertyOf(d, d.properties[i]);
    if model.None? then p else p.(pProperty := FirstAt(model.value, d.properties[i].name, 0))
  }

  /** `get_device_from_grpc`: build both arrays, then run the joins if there is a model. */
  method GetDeviceFromGrpc(d: GrpcDevice, model: Option<seq<string>>)
    returns (twins: array<Twin>, properties: array<Property>)
    ensures twins.Length == properties.Length == |d.properties|
    ensures forall i :: 0 <= i < twins.Length ==> twins[i] == LinkedTwin(d, model, i)
    ensures forall i :: 0 <= i < properties.Length ==> properties[i] == LinkedProperty(d, model, i)
  {
    twins := BuildTwins(d);
    properties := BuildProperties(d);
    if model.Some? {
      LinkProperties(d, model.value, properties);
      LinkTwins(d, model.value, properties, twins);
    }
  }

  /** The join of the properties with the model. */
  method LinkProperties(d: GrpcDevice, model: seq<string>, properties: array<Property>)
    requires properties.Length == |d.properties|
    requires forall k :: 0 <= k < properties.Length ==> properties[k] == PropertyOf(d, d.properties[k])
    modifies properties
    ensures forall k :: 0 <= k < properties.Length ==> properties[k] == LinkedProperty(d, Some(model), k)
  {
    for i := 0 to properties.Length
      invariant forall k :: 0 <= k < i ==> properties[k] == LinkedProperty(d, Some(model), k)
      invariant forall k :: i <= k < properties.Length ==> properties[k] == PropertyOf(d, d.properties[k])
    {
      var found := FindName(model, properties[i].propertyName.value);
      if found.Some? {
        properties[i] := properties[i].(pProperty := found);
      }
    }
  }

  /** The join of the twins with the properties. */
  method LinkTwins(d: GrpcDevice, ghost model: seq<string>, properties: array<Property>, twins: array<Twin>)
    requires twins.Length == properties.Length == |d.properties|
    requires forall k :: 0 <= k < properties.Length ==> properties[k] == LinkedProperty(d, Some(model), k)
    requires forall k :: 0 <= k < twins.Length ==> twins[k] == TwinOf(d.properties[k])
    modifies twins
    ensures forall k :: 0 <= k < twins.Length ==> twins[k] == LinkedTwin(d, Some(model), k)
    ensures forall k :: 0 <= k < properties.Length ==> properties[k] == LinkedProperty(d, Some(model), k)
  {
    for i := 0 to twins.Length
      invariant forall k :: 0 <= k < i ==> twins[k] == LinkedTwin(d, Some(model), k)
      invariant forall k :: i <= k < twins.Length ==> twins[k] == TwinOf(d.properties[k])
      invariant forall k :: 0 <= k < properties.Length ==> properties[k] == LinkedProperty(d, Some(model), k)
    {
      var found := FindProperty(properties, twins[i].propertyName.value, RequestNames(d));
      if found.Some? {
        twins[i] := twins[i].(property := Entry(found.value));
      }
    }
  }

  /** Every property carries what the request says, linked or not. */
  lemma PropertiesCarryRequest(d: GrpcDevice, model: Option<seq<string>>, i: nat)
    requires i < |d.properties|
    ensures var p, q := LinkedProperty(d, model, i), d.properties[i];
            && p.name == p.propertyName == Some(q.name)
            && p.modelName == d.modelReference && p.protocol == d.protocolName
            && p.collectCycle == q.collectCycle && p.reportCycle == q.reportCycle && p.reportToCloud == q.reportToCloud
            && (model.None? ==> p.pProperty == None)
  {
  }

  /** With a model every twin is linked, to the first property of its name; it is linked to
      its own property exactly when no earlier property has the name. */
  lemma TwinsLinkToFirst(d: GrpcDevice, model: seq<string>, i: nat)
    requires i < |d.properties|
    ensures var link := LinkedTwin(d, Some(model), i).property;
            && link.Entry? && link.index <= i
            && d.properties[link.index].name == d.properties[i].name
            && (forall k :: 0 <= k < link.index ==> d.properties[k].name != d.properties[i].name)
            && (link == Entry(i) <==>
                forall k :: 0 <= k < i ==> d.properties[k].name != d.properties[i].name)
  {
    assert RequestNames(d)[i] == d.properties[i].name;
  }

  /** Every property is linked to the first model property of its name, and to none exactly
      when the model has none. */
  lemma PropertiesLinkToModel(d: GrpcDevice, model: seq<string>, i: nat)
    requires i < |d.properties|
    ensures var name := d.properties[i].name;
            var to := LinkedProperty(d, Some(model), i).pProperty;
            && (to.None? <==> name !in model)
            && (to.Some? ==> to.value < |model| && model[to.value] == name && name !in model[..to.value])
  {
  }
}

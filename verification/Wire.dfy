/** util/parse/type.c: twins on their way to the wire format and back. */
module Wire {
  import opened CText
  import opened TwinSteps

  datatype MetaEntry = MetaEntry(key: string, value: Option<string>)

  datatype WireProperty = WireProperty(value: Option<string>, metadata: seq<MetaEntry>)

  datatype WireTwin = WireTwin(propertyName: Option<string>,
                               observedDesired: Option<WireProperty>, reported: Option<WireProperty>)

  // ----------------------------------------------------------- to the wire

  function PropertyToWire(p: TwinProperty): WireProperty {
    WireProperty(p.value, [MetaEntry("type", p.metadata.kind), MetaEntry("timestamp", p.metadata.timestamp)])
  }

  function TwinToWire(t: Twin): WireTwin {
    WireTwin(t.propertyName, Some(PropertyToWire(t.observedDesired)), Some(PropertyToWire(t.reported)))
  }

  method ConvTwinsToGrpc(twins: seq<Twin>) returns (res: array<WireTwin>)
    ensures res.Length == |twins|
    ensures forall k :: 0 <= k < |twins| ==> res[k] == TwinToWire(twins[k])
  {
    res := new WireTwin[|twins|];
    for i := 0 to |twins|
      invariant forall k :: 0 <= k < i ==> res[k] == TwinToWire(twins[k])
    {
      res[i] := WireTwin(twins[i].propertyName, None, None);
      res[i] := res[i].(observedDesired := Some(PropertyToWire(twins[i].observedDesired)));
      res[i] := res[i].(reported := Some(PropertyToWire(twins[i].reported)));
    }
  }

  // --------------------------------------------------------- from the wire

  /** The value of the last entry with that key; `default` when there is none. */
  function LastEntry(entries: seq<MetaEntry>, key: string, default: Option<string>): Option<string> {
    if entries == [] then default
    else
      var last := entries[|entries| - 1];
      if last.key == key then last.value else LastEntry(entries[..|entries| - 1], key, default)
  }

  /** A wire property over what the source list has; an absent one changes nothing. */
  function PropertyFromWire(w: Option<WireProperty>, source: TwinProperty): TwinProperty {
    match w
    case None => source
    case Some(p) =>
      TwinProperty(p.value, Metadata(LastEntry(p.metadata, "timestamp", source.metadata.timestamp),
                                     LastEntry(p.metadata, "type", source.metadata.kind)))
  }

  /** The value v is that of the last entry with the key, or the default where there is none. */
  predicate IsLastOf(entries: seq<MetaEntry>, key: string, default: Option<string>, v: Option<string>) {
    || ((forall i :: 0 <= i < |entries| ==> entries[i].key != key) && v == default)
    || exists i :: 0 <= i < |entries| && entries[i].key == key && entries[i].value == v
                   && forall j :: i < j < |entries| ==> entries[j].key != key
  }

  lemma {:induction false} LastEntryIsLast(entries: seq<MetaEntry>, key: string, default: Option<string>)
    ensures IsLastOf(entries, key, default, LastEntry(entries, key, default))
  {
    if entries != [] && entries[|entries| - 1].key != key {
      var front := entries[..|entries| - 1];
      LastEntryIsLast(front, key, default);
      if i :| 0 <= i < |front| && front[i].key == key && front[i].value == LastEntry(front, key, default)
              && forall j :: i < j < |front| ==> front[j].key != key {
        assert entries[i] == front[i];
        assert forall j :: i < j < |entries| ==> entries[j].key != key;
      }
    }
  }

  /** What is read from the wire: the value as it comes, time stamp and type from the last entries under
      these keys, and all that does not come from the source. */
  lemma {:induction false} ReadsLastEntries(w: Option<WireProperty>, source: TwinProperty)
    ensures w.None? ==> PropertyFromWire(w, source) == source
    ensures w.Some? ==>
              var p := PropertyFromWire(w, source);
              && p.value == w.value.value
              && IsLastOf(w.value.metadata, "timestamp", source.metadata.timestamp, p.metadata.timestamp)
              && IsLastOf(w.value.metadata, "type", source.metadata.kind, p.metadata.kind)
  {
    hide IsLastOf, LastEntry;
    if w.Some? {
      LastEntryIsLast(w.value.metadata, "timestamp", source.metadata.timestamp);
      LastEntryIsLast(w.value.metadata, "type", source.metadata.kind);
    }
  }

  function TwinFromWire(w: WireTwin, source: Twin): Twin {
    Twin(source.propertyName, source.property,
         PropertyFromWire(w.observedDesired, source.observedDesired),
         PropertyFromWire(w.reported, source.reported))
  }

  /** The wire twins that the source list knows, in order, each over the first source twin
      of its name. */
  function TwinsFromWire(twins: seq<WireTwin>, source: seq<Twin>): seq<Twin>
    requires forall k :: 0 <= k < |twins| ==> twins[k].propertyName.Some?
  {
    if twins == [] then []
    else
      var last := twins[|twins| - 1];
      TwinsFromWire(twins[..|twins| - 1], source)
      + match FirstNamed(source, last.propertyName.value)
        case None => []
        case Some(j) => [TwinFromWire(last, source[j])]
  }

  /** The converter; `strcmp` demands that all names are set. */
  method ConvGrpcToTwins(twins: seq<WireTwin>, source: seq<Twin>) returns (res: array<Twin>, count: nat)
    requires forall k :: 0 <= k < |twins| ==> twins[k].propertyName.Some?
    requires forall k :: 0 <= k < |source| ==> source[k].propertyName.Some?
    ensures count <= res.Length && res[..count] == TwinsFromWire(twins, source)
  {
    hide FirstNamed, LastEntry;
    res := new Twin[|twins|];
    count := 0;
    for i := 0 to |twins|
      invariant count <= i && res[..count] == TwinsFromWire(twins[..i], source)
    {
      assert twins[..i + 1][..i] == twins[..i];
      ghost var done := res[..count];
      var found := FindSource(source, twins[i].propertyName.value);
      if found.None? {
        continue;
      }
      res[count] := source[found.value];
      if twins[i].observedDesired.Some? {
        var p := MergeProperty(twins[i].observedDesired.value, res[count].observedDesired);
        res[count] := res[count].(observedDesired := p);
      }
      if twins[i].reported.Some? {
        var p := MergeProperty(twins[i].reported.value, res[count].reported);
        res[count] := res[count].(reported := p);
      }
      assert res[..count] == done;
      count := count + 1;
    }
    assert twins[..|twins|] == twins;
  }

  /** The search loop over the source list. */
  method FindSource(source: seq<Twin>, name: string) returns (found: Option<nat>)
    ensures found == FirstNamed(source, name)
  {
    found := None;
    for j := 0 to |source|
      invariant found.None? && FirstNamed(source, name) == FirstNamedFrom(source, name, j)
    {
      if source[j].propertyName == Some(name) {
        return Some(j);
      }
    }
  }

  /** The metadata loop: later entries overwrite earlier ones. */
  method MergeProperty(w: WireProperty, source: TwinProperty) returns (p: TwinProperty)
    ensures p == PropertyFromWire(Some(w), source)
  {
    p := source.(value := w.value);
    for k := 0 to |w.metadata|
      invariant p.value == w.value
      invariant p.metadata.kind == LastEntry(w.metadata[..k], "type", source.metadata.kind)
      invariant p.metadata.timestamp == LastEntry(w.metadata[..k], "timestamp", source.metadata.timestamp)
    {
      assert w.metadata[..k + 1][..k] == w.metadata[..k];
      if w.metadata[k].key == "type" {
        p := p.(metadata := p.metadata.(kind := w.metadata[k].value));
      }
      if w.metadata[k].key == "timestamp" {
        p := p.(metadata := p.metadata.(timestamp := w.metadata[k].value));
      }
    }
    assert w.metadata[..|w.metadata|] == w.metadata;
  }

  // ------------------------------------------------------------ round trip

  function TwinsToWire(twins: seq<Twin>): (r: seq<WireTwin>)
    ensures |r| == |twins| && forall k :: 0 <= k < |twins| ==> r[k] == TwinToWire(twins[k])
  {
    seq(|twins|, k requires 0 <= k < |twins| => TwinToWire(twins[k]))
  }

  /** The twins whose name the source list knows, in order, each with the property link of
      the first source twin of its name. */
  function Relinked(twins: seq<Twin>, source: seq<Twin>): seq<Twin>
    requires forall k :: 0 <= k < |twins| ==> twins[k].propertyName.Some?
  {
    if twins == [] then []
    else
      var last := twins[|twins| - 1];
      Relinked(twins[..|twins| - 1], source)
      + match FirstNamed(source, last.propertyName.value)
        case None => []
        case Some(j) => [last.(property := source[j].property)]
  }

  lemma {:induction false} LastEntryOfTwo(p: TwinProperty, source: TwinProperty)
    ensures PropertyFromWire(Some(PropertyToWire(p)), source) == p
  {
    var entries := PropertyToWire(p).metadata;
    assert entries[..1][..0] == [];
    assert LastEntry(entries[..1], "type", source.metadata.kind) == p.metadata.kind;
  }

  /** Converting to the wire and back against any source list keeps every known twin's name,
      values, types and timestamps, unset ones included, in order, and takes its property
      link from the source list. */
  lemma {:induction false} RoundTrip(twins: seq<Twin>, source: seq<Twin>)
    requires forall k :: 0 <= k < |twins| ==> twins[k].propertyName.Some?
    ensures TwinsFromWire(TwinsToWire(twins), source) == Relinked(twins, source)
  {
    if twins != [] {
      var front := twins[..|twins| - 1];
      RoundTrip(front, source);
      assert TwinsToWire(twins)[..|twins| - 1] == TwinsToWire(front);
      var last := twins[|twins| - 1];
      match FirstNamed(source, last.propertyName.value) {
        case None =>
        case Some(j) =>
          LastEntryOfTwo(last.observedDesired, source[j].observedDesired);
          LastEntryOfTwo(last.reported, source[j].reported);
      }
    }
  }

  predicate DistinctNames(twins: seq<Twin>) {
    forall i, j :: 0 <= i < j < |twins| ==> twins[i].propertyName != twins[j].propertyName
  }

  lemma {:induction false} RelinkedPrefix(twins: seq<Twin>, n: nat)
    requires n <= |twins| && forall k :: 0 <= k < |twins| ==> twins[k].propertyName.Some?
    ensures |Relinked(twins[..n], twins)| == n
    ensures forall k :: 0 <= k < n ==>
              var j := FirstNamed(twins, twins[k].propertyName.value);
              j.Some? && j.value <= k
              && Relinked(twins[..n], twins)[k] == twins[k].(property := twins[j.value].property)
  {
    if n > 0 {
      RelinkedPrefix(twins, n - 1);
      assert twins[..n][..n - 1] == twins[..n - 1];
      var j := FirstNamed(twins, twins[n - 1].propertyName.value);
      assert j.Some? by {
        assert twins[n - 1].propertyName == Some(twins[n - 1].propertyName.value);
      }
    }
  }

  function BackAgain(twins: seq<Twin>): seq<Twin>
    requires forall i :: 0 <= i < |twins| ==> twins[i].propertyName.Some?
  {
    TwinsFromWire(TwinsToWire(twins), twins)
  }

  lemma {:induction false} BackAtIndex(twins: seq<Twin>, k: nat)
    requires k < |twins| && forall i :: 0 <= i < |twins| ==> twins[i].propertyName.Some?
    ensures |BackAgain(twins)| == |twins|
    ensures var j := FirstNamed(twins, twins[k].propertyName.value);
            j.Some? && j.value <= k && BackAgain(twins)[k] == twins[k].(property := twins[j.value].property)
  {
    RoundTrip(twins, twins);
    RelinkedPrefix(twins, |twins|);
    assert twins[..|twins|] == twins;
  }

  lemma {:induction false} BackKeepsLength(twins: seq<Twin>)
    requires forall i :: 0 <= i < |twins| ==> twins[i].propertyName.Some?
    ensures |BackAgain(twins)| == |twins|
  {
    if twins != [] {
      BackAtIndex(twins, 0);
    }
  }

  /** Equally named twins share their link. */
  predicate LinkedByName(twins: seq<Twin>) {
    forall i, j :: 0 <= i < j < |twins| && twins[i].propertyName == twins[j].propertyName
               ==> twins[i].property == twins[j].property
  }

  lemma {:induction false} SharedLinksComeBack(twins: seq<Twin>)
    requires forall k :: 0 <= k < |twins| ==> twins[k].propertyName.Some?
    ensures BackAgain(twins) == twins <==> LinkedByName(twins)
  {
    hide BackAgain, FirstNamed;
    BackKeepsLength(twins);
    if LinkedByName(twins) {
      forall k | 0 <= k < |twins| ensures BackAgain(twins)[k] == twins[k] {
        BackAtIndex(twins, k);
      }
    } else {
      var i, j :| 0 <= i < j < |twins| && twins[i].propertyName == twins[j].propertyName
               && twins[i].property != twins[j].property;
      BackAtIndex(twins, i);
      BackAtIndex(twins, j);
    }
  }

  /** Against the same list nothing is dropped, and with distinct names nothing changes at
      all; the links are all kept exactly when equally named twins share their link. */
  lemma {:induction false} RoundTripOnSelf(twins: seq<Twin>)
    requires forall k :: 0 <= k < |twins| ==> twins[k].propertyName.Some?
    ensures |BackAgain(twins)| == |twins|
    ensures forall k :: 0 <= k < |twins| ==> BackAgain(twins)[k].(property := twins[k].property) == twins[k]
    ensures DistinctNames(twins) ==> BackAgain(twins) == twins
    ensures BackAgain(twins) == twins <==> LinkedByName(twins)
  {
    hide BackAgain, FirstNamed;
    BackKeepsLength(twins);
    forall k | 0 <= k < |twins| ensures BackAgain(twins)[k].(property := twins[k].property) == twins[k] {
      BackAtIndex(twins, k);
    }
    SharedLinksComeBack(twins);
  }
}

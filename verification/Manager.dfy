/** The device manager of device/device.c: a growable array of devices and its lookup. */
module Manager {
  import opened CText
  import opened Devices

  // ------------------------------------------------------------ names and ids

  /** The first place of `name` among the device names. */
  function FirstCalled(names: seq<Option<string>>, name: string, from: nat := 0): (r: Option<nat>)
    requires from <= |names|
    ensures r.Some? ==> from <= r.value < |names| && names[r.value] == Some(name)
    ensures forall k :: from <= k < r.GetOr(|names|) ==> names[k] != Some(name)
    decreases |names| - from
  {
    if from == |names| then None
    else if names[from] == Some(name) then Some(from)
    else FirstCalled(names, name, from + 1)
  }

  /** `strrchr`: the last place of c in s. */
  function LastIndex(s: string, c: char): (r: Option<nat>)
    ensures r.Some? ==> r.value < |s| && s[r.value] == c
    ensures forall k :: (if r.Some? then r.value + 1 else 0) <= k < |s| ==> s[k] != c
  {
    if s == "" then None
    else if s[|s| - 1] == c then Some(|s| - 1)
    else LastIndex(s[..|s| - 1], c)
  }

  /** What follows the last dot, or without a dot the last slash, if that is not empty. */
  function ShortId(id: string): Option<string> {
    var dot := LastIndex(id, '.');
    var sep := if dot.Some? then dot else LastIndex(id, '/');
    if sep.Some? && sep.value + 1 < |id| then Some(id[sep.value + 1..]) else None
  }

  /** The device a lookup finds: by the whole id, else by its last part. */
  function Lookup(names: seq<Option<string>>, id: string): Option<nat> {
    var whole := FirstCalled(names, id);
    if whole.Some? then whole
    else if ShortId(id).Some? then FirstCalled(names, ShortId(id).value)
    else None
  }

  /** `get_resource_id` into a buffer of that size. */
  function ResourceId(ns: string, name: string, size: nat): string
    requires size > 0
  {
    Cut(ns + "." + name, size)
  }

  predicate Free(s: string, c: char) {
    forall k :: 0 <= k < |s| ==> s[k] != c
  }

  lemma ShortOfDotted(ns: string, name: string)
    requires Free(name, '.')
    ensures ShortId(ns + "." + name) == if name == "" then None else Some(name)
  {
    var id := ns + "." + name;
    assert id[|ns|] == '.' && forall k :: |ns| < k < |id| ==> id[k] == name[k - |ns| - 1];
    assert LastIndex(id, '.') == Some(|ns|);
    assert id[|ns| + 1..] == name;
  }

  lemma ShortOfSlashed(ns: string, name: string)
    requires Free(ns, '.') && Free(name, '.') && Free(name, '/')
    ensures ShortId(ns + "/" + name) == if name == "" then None else Some(name)
  {
    var id := ns + "/" + name;
    assert id[|ns|] == '/' && forall k :: 0 <= k < |ns| ==> id[k] == ns[k];
    assert forall k :: |ns| < k < |id| ==> id[k] == name[k - |ns| - 1];
    assert LastIndex(id, '.') == None && LastIndex(id, '/') == Some(|ns|);
    assert id[|ns| + 1..] == name;
  }

  /** The last part is shorter than a name with a dot in it, so it is another name. */
  lemma ShortMissesDotted(ns: string, name: string)
    requires !Free(name, '.')
    ensures ShortId(ns + "." + name) != Some(name)
  {
    var id := ns + "." + name;
    var k :| 0 <= k < |name| && name[k] == '.';
    assert id[|ns| + 1 + k] == '.';
  }

  lemma ShortMissesSlashed(ns: string, name: string)
    requires !(Free(ns, '.') && Free(name, '.') && Free(name, '/'))
    ensures ShortId(ns + "/" + name) != Some(name)
  {
    var id := ns + "/" + name;
    assert forall k :: 0 <= k < |ns| ==> id[k] == ns[k];
    assert forall k :: 0 <= k < |name| ==> id[|ns| + 1 + k] == name[k];
    var dot := LastIndex(id, '.');
    if dot.None? {
      assert forall k :: 0 <= k < |ns| ==> ns[k] == id[k] != '.';
      assert forall k :: 0 <= k < |name| ==> name[k] == id[|ns| + 1 + k] != '.';
      var k :| 0 <= k < |name| && name[k] == '/';
      assert id[|ns| + 1 + k] == '/';
    } else if dot.value < |ns| && ShortId(id).Some? {
      assert |ShortId(id).value| > |name|;
    }
  }

  /** A device that bears the whole id comes before any that bears its last part. */
  lemma WholeIdWins(names: seq<Option<string>>, id: string, i: nat)
    requires i < |names| && names[i] == Some(id) && forall j :: 0 <= j < i ==> names[j] != Some(id)
    ensures Lookup(names, id) == Some(i)
  {
  }

  /** Without one, the first device called by what follows the last dot is found, or without a dot by
      what follows the last slash; none where nothing follows, or where there is neither. */
  lemma LastPartDecides(names: seq<Option<string>>, head: string, sep: char, part: string)
    requires (sep == '.' || (sep == '/' && Free(head, '.'))) && Free(part, '.') && (sep == '/' ==> Free(part, '/'))
    requires forall j :: 0 <= j < |names| ==> names[j] != Some(head + [sep] + part)
    ensures var place := Lookup(names, head + [sep] + part);
            && (place.Some? ==>
                  && part != "" && place.value < |names| && names[place.value] == Some(part)
                  && forall j :: 0 <= j < place.value ==> names[j] != Some(part))
            && (place.None? ==> part == "" || forall j :: 0 <= j < |names| ==> names[j] != Some(part))
  {
    if sep == '.' {
      assert head + [sep] + part == head + "." + part;
      ShortOfDotted(head, part);
    } else {
      assert head + [sep] + part == head + "/" + part;
      ShortOfSlashed(head, part);
    }
  }

  lemma PlainIdHasNoPart(names: seq<Option<string>>, id: string)
    requires Free(id, '.') && Free(id, '/') && forall j :: 0 <= j < |names| ==> names[j] != Some(id)
    ensures Lookup(names, id) == None
  {
  }

  /** The lookup finds, under that id, the first device called `name`, in every manager in
      which no device bears the whole id. */
  ghost predicate Undoes(id: string, name: string) {
    forall names: seq<Option<string>> ::
      FirstCalled(names, id).None? ==> Lookup(names, id) == FirstCalled(names, name)
  }

  lemma UndoesByShortId(id: string, name: string)
    requires |name| < |id|
    ensures Undoes(id, name) <==> ShortId(id) == Some(name)
  {
    if ShortId(id) != Some(name) {
      var names := [Some(name)];
      assert FirstCalled(names, id).None? && FirstCalled(names, name) == Some(0);
      assert Lookup(names, id) != Some(0);
    }
  }

  /** Lookup undoes the building of a resource id that fits its buffer exactly for the names
      that are not empty and have no dot. */
  lemma LookupUndoesResourceId(ns: string, name: string, size: nat)
    requires |ns + "." + name| < size
    ensures Undoes(ResourceId(ns, name, size), name) <==> name != "" && Free(name, '.')
  {
    var id := ns + "." + name;
    assert ResourceId(ns, name, size) == id;
    UndoesByShortId(id, name);
    if Free(name, '.') {
      ShortOfDotted(ns, name);
    } else {
      ShortMissesDotted(ns, name);
    }
  }

  /** For the key with a slash the namespace must have no dot either, and the name no
      slash. */
  lemma LookupUndoesSlashKey(ns: string, name: string)
    ensures Undoes(ns + "/" + name, name)
       <==> name != "" && Free(ns, '.') && Free(name, '.') && Free(name, '/')
  {
    UndoesByShortId(ns + "/" + name, name);
    if Free(ns, '.') && Free(name, '.') && Free(name, '/') {
      ShortOfSlashed(ns, name);
    } else {
      ShortMissesSlashed(ns, name);
    }
  }

  // ---------------------------------------------------------- the container

  /** The capacities of the array: 10, 20, 40, ... */
  function Capacity(growths: nat): nat {
    if growths == 0 then 10 else 2 * Capacity(growths - 1)
  }

  function NamesOf(devices: seq<Device?>): (r: seq<Option<string>>)
    ensures |r| == |devices|
    ensures forall i :: 0 <= i < |r| ==> r[i] == if devices[i] == null then None else devices[i].name
  {
    seq(|devices|, i requires 0 <= i < |devices| => if devices[i] == null then None else devices[i].name)
  }

  /** The device at a place that may be missing. */
  function DeviceAt(devices: seq<Device?>, place: Option<nat>): Device?
    requires place.Some? ==> place.value < |devices|
  {
    if place.None? then null else devices[place.value]
  }

  class DeviceManager {
    var devices: array<Device?>
    var deviceCount: nat
    var capacity: nat
    ghost var growths: nat
    ghost var copied: nat
    ghost var peak: nat

    /** What holds between any two calls: `copied` counts the elements ever moved to a larger
        array, `peak` is the largest number of devices so far. */
    ghost predicate Valid()
      reads this
    {
      && deviceCount <= capacity == devices.Length
      && capacity == Capacity(growths)
      && copied + 10 == capacity
      && deviceCount <= peak && (growths > 0 ==> capacity < 2 * peak)
    }

    ghost function Contents(): seq<Device?>
      requires Valid()
      reads this, devices
    {
      devices[..deviceCount]
    }

    constructor ()
      ensures Valid() && Contents() == [] && fresh(devices)
      ensures growths == peak == 0 && capacity == 10
    {
      devices := new Device?[10](_ => null);
      deviceCount, capacity := 0, 10;
      growths, copied, peak := 0, 0, 0;
    }

    /** `realloc` to twice the size, which succeeds and copies. */
    method Grow()
      requires Valid() && deviceCount == capacity
      modifies this`devices, this`capacity, this`growths, this`copied
      ensures fresh(devices) && devices.Length == capacity == 2 * old(capacity)
      ensures devices[..deviceCount] == old(devices[..deviceCount])
      ensures growths == old(growths) + 1 && copied == old(copied) + deviceCount
    {
      capacity := capacity * 2;
      var larger := new Device?[capacity](_ => null);
      for i := 0 to deviceCount
        invariant larger.Length == capacity && fresh(larger)
        invariant forall k :: 0 <= k < i ==> larger[k] == devices[k]
        modifies larger
      {
        larger[i] := devices[i];
      }
      devices := larger;
      growths, copied := growths + 1, copied + deviceCount;
    }

    /** `device_manager_add`. However many devices came and went, the elements ever copied are
        fewer than twice the largest number of devices there was. */
    method Add(device: Device?) returns (rc: int)
      requires Valid()
      modifies this, devices
      ensures Valid() && (devices == old(devices) || fresh(devices))
      ensures device == null ==> rc == -1 && Contents() == old(Contents())
      ensures device != null ==> rc == 0 && Contents() == old(Contents()) + [device]
      ensures peak == if deviceCount > old(peak) then deviceCount else old(peak)
      ensures copied == capacity - 10 && (copied == 0 || copied < 2 * peak)
    {
      if device == null {
        return -1;
      }
      if deviceCount >= capacity {
        Grow();
      }
      devices[deviceCount] := device;
      deviceCount := deviceCount + 1;
      peak := if deviceCount > peak then deviceCount else peak;
      rc := 0;
    }

    /** The search loop of the lookups and of the removal. */
    method Search(name: string) returns (place: Option<nat>)
      requires Valid()
      ensures place == FirstCalled(NamesOf(Contents()), name)
    {
      place := None;
      for i := 0 to deviceCount
        invariant place.None?
        invariant FirstCalled(NamesOf(Contents()), name) == FirstCalled(NamesOf(Contents()), name, i)
      {
        if devices[i] != null && devices[i].name == Some(name) {
          return Some(i);
        }
      }
    }

    /** The entries behind i move down by one. */
    method CloseGap(i: nat)
      requires i < deviceCount <= devices.Length
      modifies devices
      ensures devices[..deviceCount - 1] == old(devices[..i]) + old(devices[i + 1..deviceCount])
    {
      for j := i to deviceCount - 1
        modifies devices
        invariant forall k :: 0 <= k < i ==> devices[k] == old(devices[k])
        invariant forall k :: i <= k < j ==> devices[k] == old(devices[k + 1])
        invariant forall k :: j <= k < deviceCount ==> devices[k] == old(devices[k])
      {
        devices[j] := devices[j + 1];
      }
    }

    /** `device_manager_remove`: the first device of that name goes, the others close up. */
    method Remove(name: string) returns (rc: int)
      requires Valid()
      modifies this, devices
      ensures Valid() && devices == old(devices) && peak == old(peak)
      ensures var place := FirstCalled(NamesOf(old(Contents())), name);
              if place.None? then rc == -1 && Contents() == old(Contents())
              else rc == 0 && Contents() == old(Contents())[..place.value] + old(Contents())[place.value + 1..]
    {
      var place := Search(name);
      if place.None? {
        return -1;
      }
      ghost var contents := Contents();
      CloseGap(place.value);
      assert contents[..place.value] == old(devices[..place.value]);
      assert contents[place.value + 1..] == old(devices[place.value + 1..deviceCount]);
      deviceCount := deviceCount - 1;
      rc := 0;
    }

    /** `device_manager_get`. */
    method Get(id: string) returns (device: Device?)
      requires Valid()
      ensures device == DeviceAt(Contents(), Lookup(NamesOf(Contents()), id))
    {
      var place := Search(id);
      if place.Some? {
        return devices[place.value];
      }
      var dot := LastIndex(id, '.');
      var sep := if dot.Some? then dot else LastIndex(id, '/');
      if sep.Some? && sep.value + 1 < |id| {
        place := Search(id[sep.value + 1..]);
        if place.Some? {
          return devices[place.value];
        }
      }
      device := null;
    }
  }
}

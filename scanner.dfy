/** The device registry of `BluetoothScanner`: a map from MAC address to
    the last record parsed for it. It is filled from a managed-objects
    snapshot (`GetManagedDevices`) and from InterfacesAdded signals
    (`HandleSignal`); both parse into a fresh zero `Device`, hand each valid
    record to the Listener, then store it, replacing whatever record the
    MAC had before. Nothing ever removes a key. */
module Scanner {
  import opened Bus
  import opened Common

  /** The reply of `GetManagedObjects`: object path -> interface name ->
      property map. */
  type ObjectMap = map<string, map<string, map<string, Variant>>>

  datatype ManagedObjectsReply = Objects(objects: ObjectMap) | CallError(error: string)

  /** A property map to parse, with the object path it is parsed against. */
  datatype Entry = Entry(path: string, props: map<string, Variant>)

  predicate EntriesWellTyped(entries: seq<Entry>)
  {
    forall i :: 0 <= i < |entries| ==> PropsWellTyped(entries[i].props)
  }

  /** The registry invariant: every record is stored under its own MAC. */
  ghost predicate KeyedByMac(devices: map<string, Device>)
  {
    forall mac :: mac in devices ==> devices[mac].MacAddress == mac
  }

  function MacsOf(ds: seq<Device>): set<string>
  {
    set d | d in ds :: d.MacAddress
  }

  /** What one property map hands to the Listener: the map parsed into a
      zero Device, if the result is valid. */
  function Listened(path: string, props: map<string, Variant>): (ds: seq<Device>)
    requires PropsWellTyped(props)
    ensures |ds| <= 1
    ensures |ds| == 1 <==> "Address" in props
    ensures |ds| == 1 ==> ds[0].AdapterPath == path && ds[0].MacAddress == props["Address"].s
  {
    var r := ParseDevice(ZeroDevice, path, props);
    if r.valid then [r.device] else []
  }

  /** The records one loop hands to the Listener, in visit order: each
      entry parsed into a zero Device, kept only when valid. */
  function Registered(entries: seq<Entry>): (found: seq<Device>)
    requires EntriesWellTyped(entries)
    ensures |found| <= |entries|
    decreases |entries|
  {
    if entries == [] then []
    else
      var last := entries[|entries| - 1];
      Registered(entries[..|entries| - 1]) + Listened(last.path, last.props)
  }

  /** The registry after storing `ds` in order, each record replacing the
      one its MAC had: keys are only ever added, and a key no record names
      keeps its old record. */
  function InsertAll(m: map<string, Device>, ds: seq<Device>): (r: map<string, Device>)
    ensures r.Keys == m.Keys + MacsOf(ds)
    ensures forall mac :: mac in m && mac !in MacsOf(ds) ==> r[mac] == m[mac]
    decreases |ds|
  {
    if ds == [] then m
    else
      var last := ds[|ds| - 1];
      assert ds == ds[..|ds| - 1] + [last];
      InsertAll(m, ds[..|ds| - 1])[last.MacAddress := last]
  }

  /** The last record in `ds` that carries `mac`. */
  function LastWithMac(ds: seq<Device>, mac: string): (d: Device)
    requires mac in MacsOf(ds)
    ensures d in ds && d.MacAddress == mac
    ensures exists i :: 0 <= i < |ds| && ds[i] == d && forall j :: i < j < |ds| ==> ds[j].MacAddress != mac
    decreases |ds|
  {
    var last := ds[|ds| - 1];
    if last.MacAddress == mac then last
    else
      assert ds == ds[..|ds| - 1] + [last];
      LastWithMac(ds[..|ds| - 1], mac)
  }

  /** Whole-record replacement: the stored record is exactly the last one
      parsed for that MAC, whatever the registry held before. */
  lemma {:induction false} InsertAllStoresLast(m: map<string, Device>, ds: seq<Device>, mac: string)
    requires mac in MacsOf(ds)
    ensures InsertAll(m, ds)[mac] == LastWithMac(ds, mac)
    decreases |ds|
  {
    var last := ds[|ds| - 1];
    if last.MacAddress != mac {
      assert ds == ds[..|ds| - 1] + [last];
      InsertAllStoresLast(m, ds[..|ds| - 1], mac);
    }
  }

  /** No field of a previous record survives an insert for its MAC. */
  lemma InsertAllForgetsPrior(m1: map<string, Device>, m2: map<string, Device>, ds: seq<Device>, mac: string)
    requires mac in MacsOf(ds)
    ensures InsertAll(m1, ds)[mac] == InsertAll(m2, ds)[mac]
  {
    InsertAllStoresLast(m1, ds, mac);
    InsertAllStoresLast(m2, ds, mac);
  }

  /** Storing parsed records keeps every record under its own MAC. */
  lemma {:induction false} InsertAllKeyedByMac(m: map<string, Device>, ds: seq<Device>)
    requires KeyedByMac(m)
    ensures KeyedByMac(InsertAll(m, ds))
    decreases |ds|
  {
    if ds != [] {
      InsertAllKeyedByMac(m, ds[..|ds| - 1]);
    }
  }

  /** One more entry hands at most one more record to the Listener. */
  lemma RegisteredStep(entries: seq<Entry>, e: Entry)
    requires EntriesWellTyped(entries) && PropsWellTyped(e.props)
    ensures EntriesWellTyped(entries + [e])
    ensures Registered(entries + [e]) == Registered(entries) + Listened(e.path, e.props)
  {
    assert (entries + [e])[..|entries|] == entries;
  }

  /** The registry after storing what one property map hands over. */
  function Stored(m: map<string, Device>, ds: seq<Device>): (r: map<string, Device>)
    requires |ds| <= 1
    ensures r.Keys == m.Keys + MacsOf(ds)
  {
    if ds == [] then m else m[ds[0].MacAddress := ds[0]]
  }

  /** Visiting one more entry extends what the Listener has seen and what
      the registry holds exactly as `Registered` and `InsertAll` say:
      `n1`, `d1` are the Listener log and the registry before the entry,
      `n2`, `d2` after it. */
  lemma VisitStep(n0: seq<Device>, d0: map<string, Device>, entries: seq<Entry>, e: Entry,
                  n1: seq<Device>, d1: map<string, Device>, n2: seq<Device>, d2: map<string, Device>)
    requires EntriesWellTyped(entries) && PropsWellTyped(e.props)
    requires n1 == n0 + Registered(entries) && d1 == InsertAll(d0, Registered(entries))
    requires n2 == n1 + Listened(e.path, e.props) && d2 == Stored(d1, Listened(e.path, e.props))
    ensures EntriesWellTyped(entries + [e])
    ensures n2 == n0 + Registered(entries + [e])
    ensures d2 == InsertAll(d0, Registered(entries + [e]))
  {
    RegisteredStep(entries, e);
    var ds, more := Registered(entries), Listened(e.path, e.props);
    ConcatAssociates(n0, ds, more);
    InsertAllStored(d0, ds, more);
  }

  lemma InsertAllStored(m: map<string, Device>, ds: seq<Device>, more: seq<Device>)
    requires |more| <= 1
    ensures Stored(InsertAll(m, ds), more) == InsertAll(m, ds + more)
  {
    if more == [] {
      assert ds + more == ds;
    } else {
      assert (ds + more)[..|ds|] == ds;
    }
  }

  /** The Device1 property maps of a snapshot, in the order the paths are
      visited; objects without an `org.bluez.Device1` interface are skipped. */
  function DeviceEntries(objects: ObjectMap, order: seq<string>): (entries: seq<Entry>)
    requires forall i :: 0 <= i < |order| ==> order[i] in objects
    ensures forall e :: e in entries ==>
      e.path in order && e.path in objects && Device1 in objects[e.path] && e.props == objects[e.path][Device1]
    ensures SnapshotWellTyped(objects) ==> EntriesWellTyped(entries)
    decreases |order|
  {
    if order == [] then []
    else
      var p := order[|order| - 1];
      DeviceEntries(objects, order[..|order| - 1]) +
        (if Device1 in objects[p] then [Entry(p, objects[p][Device1])] else [])
  }

  /** The interface maps of one InterfacesAdded payload, in visit order,
      all parsed against the signal's object path. */
  function InterfaceEntries(path: string, ifaces: map<string, map<string, Variant>>, order: seq<string>): (entries: seq<Entry>)
    requires forall i :: 0 <= i < |order| ==> order[i] in ifaces
    ensures InterfacesWellTyped(ifaces) ==> EntriesWellTyped(entries)
    decreases |order|
  {
    if order == [] then []
    else
      var name := order[|order| - 1];
      InterfaceEntries(path, ifaces, order[..|order| - 1]) + [Entry(path, ifaces[name])]
  }

  /** The k-th entry is the k-th visited interface's map, parsed against
      the signal's path. */
  lemma {:induction false} InterfaceEntriesAt(path: string, ifaces: map<string, map<string, Variant>>, order: seq<string>, k: int)
    requires forall i :: 0 <= i < |order| ==> order[i] in ifaces
    requires 0 <= k < |order|
    ensures |InterfaceEntries(path, ifaces, order)| == |order|
    ensures InterfaceEntries(path, ifaces, order)[k] == Entry(path, ifaces[order[k]])
    decreases |order|
  {
    var init := order[..|order| - 1];
    if k < |init| {
      InterfaceEntriesAt(path, ifaces, init, k);
      assert init[k] == order[k];
    } else if init != [] {
      InterfaceEntriesAt(path, ifaces, init, 0);
    }
  }

  /** Visiting one more interface adds just its entry. */
  lemma InterfaceEntriesStep(path: string, ifaces: map<string, map<string, Variant>>, order: seq<string>, name: string)
    requires forall i :: 0 <= i < |order| ==> order[i] in ifaces
    requires name in ifaces
    ensures forall i :: 0 <= i < |order + [name]| ==> (order + [name])[i] in ifaces
    ensures InterfaceEntries(path, ifaces, order + [name]) == InterfaceEntries(path, ifaces, order) + [Entry(path, ifaces[name])]
  {
    assert (order + [name])[..|order|] == order;
  }

  /** Every Device1 map of the snapshot parses without a type panic. */
  predicate SnapshotWellTyped(objects: ObjectMap)
  {
    forall p :: p in objects && Device1 in objects[p] ==> PropsWellTyped(objects[p][Device1])
  }

  /** Every interface map of an InterfacesAdded payload parses without a
      type panic. */
  predicate InterfacesWellTyped(ifaces: map<string, map<string, Variant>>)
  {
    forall name :: name in ifaces ==> PropsWellTyped(ifaces[name])
  }

  /** The shape `HandleSignal` asserts on an InterfacesAdded body: an
      object path, then interface name -> property map. */
  predicate AddedBodyWellFormed(body: seq<Variant>)
  {
    |body| >= 2 && body[0].VPath? && body[1].VIfaces? && InterfacesWellTyped(body[1].ifaces)
  }

  /** How many entries carry an address. */
  function CountWithAddress(entries: seq<Entry>): nat
    decreases |entries|
  {
    if entries == [] then 0
    else CountWithAddress(entries[..|entries| - 1]) + (if "Address" in entries[|entries| - 1].props then 1 else 0)
  }

  /** The Listener is called once per entry that has an address, and for
      no other. */
  lemma {:induction false} RegisteredCount(entries: seq<Entry>)
    requires EntriesWellTyped(entries)
    ensures |Registered(entries)| == CountWithAddress(entries)
    decreases |entries|
  {
    if entries != [] {
      RegisteredCount(entries[..|entries| - 1]);
    }
  }

  /** Every entry with an address leaves a record under that address. */
  lemma {:induction false} RegisteredCoversAddresses(entries: seq<Entry>, k: int)
    requires EntriesWellTyped(entries)
    requires 0 <= k < |entries| && "Address" in entries[k].props
    ensures entries[k].props["Address"].s in MacsOf(Registered(entries))
    decreases |entries|
  {
    var init := entries[..|entries| - 1];
    var last := entries[|entries| - 1];
    if k == |entries| - 1 {
      var ds := Listened(last.path, last.props);
      assert ds[0] in Registered(init) + ds;
    } else {
      assert init[k] == entries[k];
      RegisteredCoversAddresses(init, k);
      var d :| d in Registered(init) && d.MacAddress == entries[k].props["Address"].s;
      assert d in Registered(entries);
    }
  }

  /** Every record handed to the Listener is the parse of an entry that
      has an address, and it carries that address and that entry's path. */
  lemma {:induction false} RegisteredFromEntries(entries: seq<Entry>, d: Device)
    requires EntriesWellTyped(entries)
    requires d in Registered(entries)
    ensures exists k :: (0 <= k < |entries| && "Address" in entries[k].props &&
      d == ParseDevice(ZeroDevice, entries[k].path, entries[k].props).device &&
      d.MacAddress == entries[k].props["Address"].s && d.AdapterPath == entries[k].path)
    decreases |entries|
  {
    var init := entries[..|entries| - 1];
    var last := entries[|entries| - 1];
    if d in Registered(init) {
      RegisteredFromEntries(init, d);
      var k :| 0 <= k < |init| && "Address" in init[k].props &&
        d == ParseDevice(ZeroDevice, init[k].path, init[k].props).device;
      assert init[k] == entries[k];
    } else {
      assert d in Listened(last.path, last.props);
      assert entries[|entries| - 1] == last;
    }
  }

  /** A visited object with a Device1 interface contributes its entry. */
  lemma {:induction false} DeviceEntriesHasVisited(objects: ObjectMap, order: seq<string>, k: int)
    requires forall i :: 0 <= i < |order| ==> order[i] in objects
    requires 0 <= k < |order| && Device1 in objects[order[k]]
    ensures Entry(order[k], objects[order[k]][Device1]) in DeviceEntries(objects, order)
    decreases |order|
  {
    var init := order[..|order| - 1];
    if k < |order| - 1 {
      assert init[k] == order[k];
      DeviceEntriesHasVisited(objects, init, k);
    }
  }

  /** After a full snapshot, every object whose Device1 map has an address
      is in the registry under that address, whatever the visit order and
      whatever the registry held before. */
  lemma SnapshotRegistersEveryAddress(m: map<string, Device>, objects: ObjectMap, order: seq<string>, p: string)
    requires SnapshotWellTyped(objects) && IsRangeOrder(order, objects.Keys)
    requires p in objects && Device1 in objects[p] && "Address" in objects[p][Device1]
    ensures objects[p][Device1]["Address"].s in InsertAll(m, Registered(DeviceEntries(objects, order)))
  {
    var k :| 0 <= k < |order| && order[k] == p;
    DeviceEntriesHasVisited(objects, order, k);
    var entries := DeviceEntries(objects, order);
    var j :| 0 <= j < |entries| && entries[j] == Entry(p, objects[p][Device1]);
    RegisteredCoversAddresses(entries, j);
  }

  /** A snapshot registers nothing but Device1 maps with an address: each
      record names an object of the snapshot whose Device1 map carries the
      record's MAC. */
  lemma SnapshotRegistersOnlyDevices(objects: ObjectMap, order: seq<string>, d: Device)
    requires SnapshotWellTyped(objects) && IsRangeOrder(order, objects.Keys)
    requires d in Registered(DeviceEntries(objects, order))
    ensures d.AdapterPath in objects && Device1 in objects[d.AdapterPath]
    ensures "Address" in objects[d.AdapterPath][Device1]
    ensures d.MacAddress == objects[d.AdapterPath][Device1]["Address"].s
  {
    var entries := DeviceEntries(objects, order);
    RegisteredFromEntries(entries, d);
    var k :| 0 <= k < |entries| && "Address" in entries[k].props &&
      d.MacAddress == entries[k].props["Address"].s && d.AdapterPath == entries[k].path;
    assert entries[k] in entries;
  }

  /** InterfacesAdded registers a record for every interface of the payload
      that has an address, not only for `org.bluez.Device1`. */
  lemma AddedRegistersEveryInterface(m: map<string, Device>, path: string, ifaces: map<string, map<string, Variant>>, order: seq<string>, name: string)
    requires forall n :: n in ifaces ==> PropsWellTyped(ifaces[n])
    requires IsRangeOrder(order, ifaces.Keys)
    requires name in ifaces && "Address" in ifaces[name] && ifaces[name]["Address"].VStr?
    ensures ifaces[name]["Address"].s in InsertAll(m, Registered(InterfaceEntries(path, ifaces, order)))
  {
    var k :| 0 <= k < |order| && order[k] == name;
    var entries := InterfaceEntries(path, ifaces, order);
    InterfaceEntriesAt(path, ifaces, order, k);
    RegisteredCoversAddresses(entries, k);
  }

  class BluetoothScanner {
    /** `Devices`: MAC address -> last record stored for it. */
    var Devices: map<string, Device>
    /** The records handed to `Listener`, in call order. */
    var Notified: seq<Device>

    ghost predicate Valid()
      reads this
    {
      KeyedByMac(Devices)
    }

    /** `NewBluetoothScanner`: an empty registry and no Listener calls yet. */
    constructor ()
      ensures Valid()
      ensures Devices == map[] && Notified == []
    {
      Devices := map[];
      Notified := [];
    }

    /** `GetDevices`. */
    method GetDevices() returns (devices: map<string, Device>)
      requires Valid()
      ensures devices == Devices
      ensures KeyedByMac(devices)
    {
      devices := Devices;
    }

    /** The body both loops share: parse into a fresh zero Device and, if
      the record is valid, call the Listener with it and store it under its
      MAC, replacing any previous record. */
    method Register(path: string, props: map<string, Variant>)
      requires Valid() && PropsWellTyped(props)
      modifies this
      ensures Valid()
      ensures Notified == old(Notified) + Listened(path, props)
      ensures Devices == Stored(old(Devices), Listened(path, props))
    {
      var r := ParseDevice(ZeroDevice, path, props);
      if r.valid {
        Notified := Notified + [r.device];
        Devices := Devices[r.device.MacAddress := r.device];
      }
    }

    /** `GetManagedDevices`: a failed call returns its error and changes
      nothing; otherwise every object with a Device1 interface is parsed,
      in map order, and each valid record goes to the Listener and then
      into the registry. */
    method GetManagedDevices(reply: ManagedObjectsReply) returns (err: Option<string>, ghost order: seq<string>)
      requires Valid()
      requires reply.Objects? ==> SnapshotWellTyped(reply.objects)
      modifies this
      ensures Valid()
      ensures reply.CallError? ==> err == Some(reply.error) && Devices == old(Devices) && Notified == old(Notified)
      ensures reply.Objects? ==> err == None && IsRangeOrder(order, reply.objects.Keys)
      ensures reply.Objects? ==>
        (forall i :: 0 <= i < |order| ==> order[i] in reply.objects) &&
        var found := Registered(DeviceEntries(reply.objects, order));
        Notified == old(Notified) + found && Devices == InsertAll(old(Devices), found)
    {
      order := [];
      if reply.CallError? {
        return Some(reply.error), order;
      }
      var objects := reply.objects;
      var remaining := objects.Keys;
      ghost var entries: seq<Entry> := [];
      ghost var found: seq<Device> := [];
      while remaining != {}
        invariant remaining <= objects.Keys
        invariant IsRangeOrder(order, objects.Keys - remaining)
        invariant Valid()
        invariant entries == DeviceEntries(objects, order)
        invariant EntriesWellTyped(entries) && found == Registered(entries)
        invariant Notified == old(Notified) + found
        invariant Devices == InsertAll(old(Devices), found)
        decreases remaining
      {
        var path :| path in remaining;
        RangeOrderVisit(order, objects.Keys, remaining, path);
        remaining := remaining - {path};
        ghost var prev := order;
        order := order + [path];
        assert order[..|order| - 1] == prev;
        if Device1 in objects[path] {
          var props := objects[path][Device1];
          ghost var n1, d1 := Notified, Devices;
          Register(path, props);
          VisitStep(old(Notified), old(Devices), entries, Entry(path, props), n1, d1, Notified, Devices);
          entries := entries + [Entry(path, props)];
          found := Registered(entries);
        }
      }
      err := None;
    }

    /** The loop of `HandleSignal`: every interface map of the payload,
      not only Device1, is parsed against the signal's path, and each
      valid record goes to the Listener and then into the registry. */
    method RegisterInterfaces(path: string, ifaces: map<string, map<string, Variant>>) returns (ghost order: seq<string>)
      requires Valid()
      requires InterfacesWellTyped(ifaces)
      modifies this
      ensures Valid()
      ensures IsRangeOrder(order, ifaces.Keys)
      ensures forall i :: 0 <= i < |order| ==> order[i] in ifaces
      ensures Notified == old(Notified) + Registered(InterfaceEntries(path, ifaces, order))
      ensures Devices == InsertAll(old(Devices), Registered(InterfaceEntries(path, ifaces, order)))
    {
      order := [];
      var remaining := ifaces.Keys;
      ghost var entries: seq<Entry> := [];
      ghost var found: seq<Device> := [];
      while remaining != {}
        invariant remaining <= ifaces.Keys
        invariant IsRangeOrder(order, ifaces.Keys - remaining)
        invariant Valid()
        invariant entries == InterfaceEntries(path, ifaces, order)
        invariant EntriesWellTyped(entries) && found == Registered(entries)
        invariant Notified == old(Notified) + found
        invariant Devices == InsertAll(old(Devices), found)
        decreases remaining
      {
        var name :| name in remaining;
        RangeOrderVisit(order, ifaces.Keys, remaining, name);
        remaining := remaining - {name};
        InterfaceEntriesStep(path, ifaces, order, name);
        order := order + [name];
        var props := ifaces[name];
        ghost var n1, d1 := Notified, Devices;
        Register(path, props);
        VisitStep(old(Notified), old(Devices), entries, Entry(path, props), n1, d1, Notified, Devices);
        entries := entries + [Entry(path, props)];
        found := Registered(entries);
      }
    }

    /** `HandleSignal`: only InterfacesAdded is handled; its payload's
      interface maps are registered against the signal's object path. */
    method HandleSignal(signal: Signal) returns (ghost order: seq<string>)
      requires Valid()
      requires signal.name == InterfacesAdded ==> AddedBodyWellFormed(signal.body)
      modifies this
      ensures Valid()
      ensures signal.name != InterfacesAdded ==> Devices == old(Devices) && Notified == old(Notified)
      ensures signal.name == InterfacesAdded ==>
        var path, ifaces := signal.body[0].p, signal.body[1].ifaces;
        IsRangeOrder(order, ifaces.Keys) &&
        (forall i :: 0 <= i < |order| ==> order[i] in ifaces) &&
        var found := Registered(InterfaceEntries(path, ifaces, order));
        Notified == old(Notified) + found && Devices == InsertAll(old(Devices), found)
    {
      order := [];
      if signal.name != InterfacesAdded {
        return;
      }
      order := RegisterInterfaces(signal.body[0].p, signal.body[1].ifaces);
    }
  }
}

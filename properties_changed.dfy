/** The PropertiesChanged fan-out that two controller variants share: one
    Listener call per changed property, every call tagged with the address
    taken from the signal's object path. The calls follow Go's map order,
    so they are described by a function of the visit order. */
module PropertiesChanged {
  import opened Bus

  /** One `Listener(mac, name, value, type)` call; the type is the value's
      own, so it is not kept separately. */
  datatype ListenerCall = ListenerCall(mac: string, name: string, value: Variant)

  /** The calls made when the changed properties are visited in `order`. */
  function Calls(mac: string, changed: map<string, Variant>, order: seq<string>): (calls: seq<ListenerCall>)
    requires forall i :: 0 <= i < |order| ==> order[i] in changed
    ensures |calls| == |order|
    ensures forall i :: 0 <= i < |calls| ==> calls[i].mac == mac && calls[i].name == order[i]
    ensures forall i :: 0 <= i < |calls| ==> calls[i].value == changed[calls[i].name]
  {
    seq(|order|, i requires 0 <= i < |order| => ListenerCall(mac, order[i], changed[order[i]]))
  }

  /** Visiting one more property adds exactly its call at the end. */
  lemma CallsStep(mac: string, changed: map<string, Variant>, order: seq<string>, k: string)
    requires forall i :: 0 <= i < |order| ==> order[i] in changed
    requires k in changed
    ensures forall i :: 0 <= i < |order + [k]| ==> (order + [k])[i] in changed
    ensures Calls(mac, changed, order + [k]) == Calls(mac, changed, order) + [ListenerCall(mac, k, changed[k])]
  {
    var a, b := Calls(mac, changed, order + [k]), Calls(mac, changed, order) + [ListenerCall(mac, k, changed[k])];
    forall i | 0 <= i < |a| ensures a[i] == b[i] {
      if i < |order| {
        assert (order + [k])[i] == order[i];
      }
    }
  }

  /** Over a full range of the changed map, every changed property gets
      exactly one call, carrying its current value, and nothing else is
      called: the calls are the changed map itself, one entry each. */
  lemma CallsOncePerProperty(mac: string, changed: map<string, Variant>, order: seq<string>, name: string)
    requires IsRangeOrder(order, changed.Keys)
    ensures var calls := Calls(mac, changed, order);
      && |calls| == |changed|
      && (name in changed ==> ListenerCall(mac, name, changed[name]) in calls)
      && (forall c :: c in calls ==> c.mac == mac && c.name in changed && c.value == changed[c.name])
      && (forall i, j :: 0 <= i < j < |calls| ==> calls[i].name != calls[j].name)
  {
    RangeOrderLength(order, changed.Keys);
    var calls := Calls(mac, changed, order);
    if name in changed {
      var i :| 0 <= i < |order| && order[i] == name;
      assert calls[i] == ListenerCall(mac, name, changed[name]);
    }
  }
}

/** Values that cross the message bus, as the BlueZ daemon delivers them.
    A D-Bus variant is a value paired with its run-time type; here the
    closed set of kinds that the Bluetooth stack produces is a datatype,
    and a Go type assertion on a variant becomes a test of its constructor. */
module Bus {

  datatype Option<+T> = None | Some(value: T)

  /** Go's `int16`, the D-Bus type of a device's RSSI. */
  newtype int16 = x: int | -0x8000 <= x < 0x8000

  datatype Variant =
    | VStr(s: string)                        // D-Bus `s`
    | VPath(p: string)                       // D-Bus `o`, an object path (a distinct Go type)
    | VBool(b: bool)                         // D-Bus `b`
    | VInt16(i: int16)                       // D-Bus `n`
    | VInt(n: int)                           // every other integer width
    | VStrs(items: seq<string>)              // D-Bus `as`
    | VMap(m: map<string, Variant>)          // D-Bus `a{sv}`, a property map
    | VIfaces(ifaces: map<string, map<string, Variant>>)  // D-Bus `a{sa{sv}}`

  /** A received signal: the object that sent it, its member name and its body. */
  datatype Signal = Signal(path: string, name: string, body: seq<Variant>)

  /** The outcome of one remote method call: success, or the error's text. */
  datatype CallOutcome = Done | Failed(error: string)

  const AdapterRoot := "/org/bluez/hci0"
  const Device1 := "org.bluez.Device1"
  const MediaPlayer1 := "org.bluez.MediaPlayer1"
  const InterfacesAdded := "org.freedesktop.DBus.ObjectManager.InterfacesAdded"

  /** The visit order of one Go `range` over a map: every key exactly once,
      in an order the language leaves unspecified. */
  ghost predicate IsRangeOrder<K>(order: seq<K>, keys: set<K>)
  {
    && (forall i, j :: 0 <= i < j < |order| ==> order[i] != order[j])
    && (forall i :: 0 <= i < |order| ==> order[i] in keys)
    && (forall k :: k in keys ==> k in order)
  }

  /** A range over a map calls its body once per entry. */
  lemma {:induction false} RangeOrderLength<K>(order: seq<K>, keys: set<K>)
    requires IsRangeOrder(order, keys)
    ensures |order| == |keys|
  {
    if order != [] {
      var k := order[0];
      var rest := order[1..];
      assert IsRangeOrder(rest, keys - {k}) by {
        forall x | x in keys - {k} ensures x in rest {
          var i :| 0 <= i < |order| && order[i] == x;
          assert i != 0;
          assert rest[i - 1] == x;
        }
        forall i | 0 <= i < |rest| ensures rest[i] in keys - {k} {
          assert rest[i] == order[i + 1];
        }
      }
      RangeOrderLength(rest, keys - {k});
    }
  }

  /** Visiting one more key extends a range order over the visited keys. */
  lemma RangeOrderStep<K>(order: seq<K>, visited: set<K>, k: K)
    requires IsRangeOrder(order, visited) && k !in visited
    ensures IsRangeOrder(order + [k], visited + {k})
  {
    var next := order + [k];
    forall x | x in visited + {k} ensures x in next {
      if x == k {
        assert next[|order|] == k;
      } else {
        var i :| 0 <= i < |order| && order[i] == x;
        assert next[i] == x;
      }
    }
  }

  /** One iteration of a range loop: the picked key leaves the keys still
      to visit and joins the visit order. */
  lemma RangeOrderVisit<K>(order: seq<K>, keys: set<K>, remaining: set<K>, k: K)
    requires remaining <= keys && k in remaining
    requires IsRangeOrder(order, keys - remaining)
    ensures IsRangeOrder(order + [k], keys - (remaining - {k}))
  {
    RangeOrderStep(order, keys - remaining, k);
    assert keys - remaining + {k} == keys - (remaining - {k});
  }

  /** Concatenation regroups freely. */
  lemma ConcatAssociates<T>(a: seq<T>, b: seq<T>, c: seq<T>)
    ensures a + b + c == a + (b + c)
  {
  }

  /** Some order in which a range could visit the keys of a set. */
  ghost function SomeRangeOrder<K>(keys: set<K>): (order: seq<K>)
    ensures IsRangeOrder(order, keys)
    decreases keys
  {
    if keys == {} then []
    else
      var k :| k in keys;
      var rest := SomeRangeOrder(keys - {k});
      RangeOrderStep(rest, keys - {k}, k);
      assert keys - {k} + {k} == keys;
      rest + [k]
  }

  /** A range order over disjoint key sets, one after the other, is a range
      order over their union. */
  lemma RangeOrderConcat<K>(a: seq<K>, keysA: set<K>, b: seq<K>, keysB: set<K>)
    requires IsRangeOrder(a, keysA) && IsRangeOrder(b, keysB) && keysA !! keysB
    ensures IsRangeOrder(a + b, keysA + keysB)
  {
    var ab := a + b;
    forall i, j | 0 <= i < j < |ab| ensures ab[i] != ab[j] {
      if j < |a| {
      } else if i >= |a| {
        assert ab[i] == b[i - |a|] && ab[j] == b[j - |a|];
      } else {
        assert ab[i] == a[i] && ab[j] == b[j - |a|];
      }
    }
    forall x | x in keysA + keysB ensures x in ab {
      if x in keysA {
        var i :| 0 <= i < |a| && a[i] == x;
        assert ab[i] == x;
      } else {
        var i :| 0 <= i < |b| && b[i] == x;
        assert ab[|a| + i] == x;
      }
    }
  }
}

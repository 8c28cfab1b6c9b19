/** The `BluetoothController` of bluetoothcontroller.go: it knows the
    adapter's object path, fans PropertiesChanged signals out to its
    Listener, and calls MediaPlayer1 methods on a device's player object,
    whose path it builds with `filepath.Join`. */
module Controller {
  import opened Bus
  import opened Text
  import opened FilePath
  import opened Common
  import opened ObjectPaths
  import opened PropertiesChanged
  import MacScan

  /** `filepath.Join(string(os.PathSeparator), "org", "bluez", "hci0")`. */
  const AdapterElements := ["/", "org", "bluez", "hci0"]

  /** The object path of a device's media player, as `ControlMedia`
      derives it from the adapter path and a MAC address. */
  function PlayerPath(adapterPath: string, mac: string): (p: string)
    ensures p != ""
    ensures adapterPath != "" ==> (p[0] == '/' <==> adapterPath[0] == '/')
  {
    Join([adapterPath, "dev_" + ReplaceAll(mac, ':', '_'), "player0"])
  }

  /** A slash-free first element splits off on its own. */
  lemma SplitFirst(x: string, y: string)
    requires '/' !in x
    ensures Split(x + "/" + y) == [x] + Split(y)
  {
    SplitAtSlash(x, y);
    SplitWithoutSlash(x);
  }

  /** A rooted three-element path splits into an empty first element and
      its three elements. */
  lemma SplitRooted(a: string, b: string, c: string)
    requires '/' !in a && '/' !in b && '/' !in c
    ensures Split("/" + a + "/" + b + "/" + c) == [""] + [a, b, c]
  {
    assert "/" + a + "/" + b + "/" + c == "" + "/" + (a + "/" + (b + "/" + c));
    SplitFirst("", a + "/" + (b + "/" + c));
    SplitFirst(a, b + "/" + c);
    SplitFirst(b, c);
    SplitWithoutSlash(c);
  }

  /** Joining "/" and three plain elements cleans the doubled leading slash
      away. */
  lemma JoinRooted(a: string, b: string, c: string)
    requires IsNormalElement(a) && IsNormalElement(b) && IsNormalElement(c)
    ensures Join(["/", a, b, c]) == "/" + a + "/" + b + "/" + c
  {
    var root := "/" + JoinWith([a, b, c]);
    RootedText(a, b, c);
    SplitRooted(a, b, c);
    DoubleRooted(a, b, c);
    SplitFirst("", root);
    CleanDoubleRoot(a, b, c);
    assert Split(JoinWith(["/", a, b, c])) == ["", "", a, b, c];
  }

  /** A slash before three joined elements is the rooted path. */
  lemma RootedText(a: string, b: string, c: string)
    ensures "/" + JoinWith([a, b, c]) == "/" + a + "/" + b + "/" + c
  {
    assert [a, b, c][1..] == [b, c];
    assert [b, c][1..] == [c];
    assert JoinWith([b, c]) == b + "/" + c;
    assert JoinWith([a, b, c]) == a + "/" + (b + "/" + c);
  }

  /** Joining "/" and three elements doubles the leading slash. */
  lemma DoubleRooted(a: string, b: string, c: string)
    ensures JoinWith(["/", a, b, c]) == "" + "/" + ("/" + JoinWith([a, b, c]))
  {
    assert ["/", a, b, c][1..] == [a, b, c];
  }

  /** Cleaning the elements of a doubly rooted path keeps the plain ones. */
  lemma CleanDoubleRoot(a: string, b: string, c: string)
    requires IsNormalElement(a) && IsNormalElement(b) && IsNormalElement(c)
    ensures CleanElements([], ["", "", a, b, c], true) == [a, b, c]
  {
    var parts := ["", "", a, b, c];
    assert parts[1..][1..] == [a, b, c];
    CleanKeepsNormal([], [a, b, c], true);
  }

  lemma AdapterRootParts()
    ensures AdapterRoot == "/" + "org" + "/" + "bluez" + "/" + "hci0"
  {
  }

  /** The constructor's `filepath.Join` yields `/org/bluez/hci0`. */
  lemma AdapterPathIsRoot()
    ensures Join(AdapterElements) == AdapterRoot
  {
    JoinRooted("org", "bluez", "hci0");
    AdapterRootParts();
  }

  /** The adapter root splits into an empty element and its three names. */
  lemma SplitAdapterRoot()
    ensures Split(AdapterRoot) == [""] + ["org", "bluez", "hci0"]
  {
    SplitRooted("org", "bluez", "hci0");
    AdapterRootParts();
  }

  /** Joining a path with two plain elements splits back into the path's
      elements followed by the two. */
  lemma SplitJoinedUnder(r: string, x: string, y: string)
    requires '/' !in x && '/' !in y
    ensures Split(JoinWith([r, x, y])) == Split(r) + [x, y]
  {
    JoinWithCons(r, [x, y]);
    assert [r] + [x, y] == [r, x, y];
    SplitAtSlash(r, JoinWith([x, y]));
    SplitJoinWith([x, y]);
  }

  /** A rooted path whose elements are all plain cleans to itself. */
  lemma CleanRooted(p: string, rest: seq<string>)
    requires p != "" && p[0] == '/'
    requires Split(p) == [""] + rest
    requires forall i :: 0 <= i < |rest| ==> '/' !in rest[i] && IsNormalElement(rest[i])
    ensures Clean(p) == "/" + JoinWith(rest)
  {
    var elems := [""] + rest;
    assert elems[0] == "" && elems[1..] == rest;
    assert CleanElements([], elems, true) == CleanElements([], rest, true);
    CleanKeepsNormal([], rest, true);
    assert CleanElements([], rest, true) == rest;
  }

  lemma PlayerElementsNormal(x: string)
    requires IsNormalElement(x)
    ensures forall i :: 0 <= i < |[x, "player0"]| ==> '/' !in [x, "player0"][i] && IsNormalElement([x, "player0"][i])
  {
  }

  lemma RootElementsNormal()
    ensures forall i :: 0 <= i < 3 ==> '/' !in ["org", "bluez", "hci0"][i] && IsNormalElement(["org", "bluez", "hci0"][i])
  {
    assert IsNormalElement("org") && IsNormalElement("bluez") && IsNormalElement("hci0");
  }

  /** The player's elements, joined under a rooted path, split back into
      that path's elements followed by the element and "player0". */
  lemma SplitPlayerJoin(r: string, parts: seq<string>, x: string)
    requires Split(r) == [""] + parts
    requires IsNormalElement(x)
    ensures Split(JoinWith([r, x, "player0"])) == [""] + (parts + [x, "player0"])
  {
    SplitJoinedUnder(r, x, "player0");
    ConcatAssociates([""], parts, [x, "player0"]);
  }

  lemma PlayerJoinIsRooted(x: string)
    ensures var joined := JoinWith([AdapterRoot, x, "player0"]); joined != "" && joined[0] == '/'
  {
    var r := AdapterRoot;
    JoinWithCons(r, [x, "player0"]);
    assert [r] + [x, "player0"] == [r, x, "player0"];
  }

  /** Under the adapter root, joining a plain element and "player0" keeps
      every element: the result is the rooted join of all five. */
  lemma JoinUnderAdapter(x: string)
    requires IsNormalElement(x)
    ensures Join([AdapterRoot, x, "player0"]) == "/" + JoinWith(["org", "bluez", "hci0", x, "player0"])
  {
    var joined := JoinWith([AdapterRoot, x, "player0"]);
    var rest := ["org", "bluez", "hci0", x, "player0"];
    var root := ["org", "bluez", "hci0"];
    SplitAdapterRoot();
    SplitPlayerJoin(AdapterRoot, root, x);
    PlayerJoinIsRooted(x);
    PlayerElementsNormal(x);
    RootElementsNormal();
    assert rest == root + [x, "player0"];
    CleanRooted(joined, rest);
  }

  /** One more leading element: its name and a slash go in front. */
  lemma JoinLayer(h: string, w: string, t: string, parts: seq<string>)
    requires |parts| >= 1 && JoinWith(parts) == w + t
    ensures JoinWith([h] + parts) == h + "/" + w + t
  {
    JoinWithCons(h, parts);
    ConcatAssociates(h + "/", w, t);
  }

  lemma JoinPlayerTail(x: string)
    ensures JoinWith(["hci0", x, "player0"]) == "hci0/" + (x + "/" + "player0")
  {
    JoinWithCons(x, ["player0"]);
    JoinWithCons("hci0", [x, "player0"]);
  }

  /** The rooted join of the five elements is the device prefix, the
      element's MAC part and the player suffix, one after the other. */
  lemma PlayerJoinIsPlain(enc: string)
    ensures "/" + JoinWith(["org", "bluez", "hci0", "dev_" + enc, "player0"]) == DevicePrefix + enc + PlayerSuffix
  {
    var x := "dev_" + enc;
    var t := x + "/" + "player0";
    JoinPlayerTail(x);
    JoinLayer("bluez", "hci0/", t, ["hci0", x, "player0"]);
    JoinLayer("org", "bluez/hci0/", t, ["bluez", "hci0", x, "player0"]);
    PlayerRegroup(enc);
  }

  lemma PlayerRegroup(enc: string)
    ensures "/" + ("org" + "/" + "bluez/hci0/" + ("dev_" + enc + "/" + "player0")) == DevicePrefix + enc + PlayerSuffix
  {
    var x := "dev_" + enc;
    var t := x + "/" + "player0";
    ConcatAssociates("/", "org" + "/" + "bluez/hci0/", t);
    ConcatAssociates("/org/bluez/hci0/", x, "/" + "player0");
    ConcatAssociates(x, "/", "player0");
    ConcatAssociates("/org/bluez/hci0/", "dev_", enc);
  }

  /** `ReplaceAll` never introduces a '/' that was not there. */
  lemma EncodingKeepsSlashFree(mac: string)
    requires '/' !in mac
    ensures '/' !in ReplaceAll(mac, ':', '_')
  {
    var e := ReplaceAll(mac, ':', '_');
    forall i | 0 <= i < |e| ensures e[i] != '/' {
      assert mac[i] in mac;
    }
  }

  /** For any MAC without a '/', the joined player path is the plain
      `/org/bluez/hci0/dev_<mac with '_'>/player0`. */
  lemma PlayerPathIsPlain(mac: string)
    requires '/' !in mac
    ensures PlayerPath(AdapterRoot, mac) == DevicePrefix + ReplaceAll(mac, ':', '_') + PlayerSuffix
  {
    var x := "dev_" + ReplaceAll(mac, ':', '_');
    EncodingKeepsSlashFree(mac);
    assert '/' !in x by {
      forall i | 0 <= i < |x| ensures x[i] != '/' {
        if i >= 4 {
          assert x[i] == ReplaceAll(mac, ':', '_')[i - 4];
        }
      }
    }
    assert x[0] == 'd';
    JoinUnderAdapter(x);
    PlayerJoinIsPlain(ReplaceAll(mac, ':', '_'));
  }

  /** The address scan finds the MAC again in the player path built for
      it: a signal from that player is tagged with the same MAC. */
  lemma PlayerPathRoundTrip(mac: string)
    requires MacScan.IsColonForm(mac)
    ensures ExtractMACAddress(PlayerPath(AdapterRoot, mac)) == mac
  {
    assert '/' !in mac by {
      forall i | 0 <= i < |mac| ensures mac[i] != '/' {
      }
    }
    PlayerPathIsPlain(mac);
    PathEncodingIsWindow(mac, true);
    ExtractAfterDevicePrefix(ReplaceAll(mac, ':', '_'), PlayerSuffix, true);
  }

  class BluetoothController {
    var AdapterPath: string

    /** `NewBluetoothController` once the system bus is reached. */
    constructor ()
      ensures AdapterPath == AdapterRoot
    {
      AdapterPathIsRoot();
      AdapterPath := Join(AdapterElements);
    }

    /** `onPropertiesChanged`: a body shorter than three elements makes no
      call; otherwise one Listener call per entry of the changed map, each
      tagged with the MAC scanned from the signal path. */
    method OnPropertiesChanged(signal: Signal) returns (calls: seq<ListenerCall>, ghost order: seq<string>)
      requires |signal.body| >= 3 ==> signal.body[1].VMap?
      ensures |signal.body| < 3 ==> calls == [] && order == []
      ensures |signal.body| >= 3 ==>
        IsRangeOrder(order, signal.body[1].m.Keys) &&
        (forall i :: 0 <= i < |order| ==> order[i] in signal.body[1].m) &&
        calls == Calls(ExtractMACAddress(signal.path), signal.body[1].m, order)
      ensures |signal.body| >= 3 ==> |calls| == |signal.body[1].m|
      ensures |signal.body| >= 3 ==> forall name :: name in signal.body[1].m ==>
        ListenerCall(ExtractMACAddress(signal.path), name, signal.body[1].m[name]) in calls
      ensures |signal.body| >= 3 ==> forall c :: c in calls ==>
        c.mac == ExtractMACAddress(signal.path) && c.name in signal.body[1].m && c.value == signal.body[1].m[c.name]
    {
      calls, order := [], [];
      if |signal.body| < 3 {
        return;
      }
      var mac := ExtractMACAddress(signal.path);
      var changed := signal.body[1].m;
      var remaining := changed.Keys;
      while remaining != {}
        invariant remaining <= changed.Keys
        invariant IsRangeOrder(order, changed.Keys - remaining)
        invariant forall i :: 0 <= i < |order| ==> order[i] in changed
        invariant calls == Calls(mac, changed, order)
        decreases remaining
      {
        var name :| name in remaining;
        RangeOrderVisit(order, changed.Keys, remaining, name);
        remaining := remaining - {name};
        CallsStep(mac, changed, order, name);
        calls := calls + [ListenerCall(mac, name, changed[name])];
        order := order + [name];
      }
      forall name | name in changed
        ensures ListenerCall(mac, name, changed[name]) in calls
      {
        CallsOncePerProperty(mac, changed, order, name);
      }
      RangeOrderLength(order, changed.Keys);
    }

    /** `ControlMedia`: the player path joined under the adapter path, the
      member `org.bluez.MediaPlayer1.<action>` with the action unchecked,
      and, if the call fails, `failed to <lower-cased action>: <error>`.
      `printed` is the text written to standard output, newline included. */
    method ControlMedia(action: string, mac: string, outcome: CallOutcome)
      returns (path: string, member: string, printed: string, err: Option<string>)
      ensures path == PlayerPath(AdapterPath, mac)
      ensures member == MediaPlayer1 + "." + action
      ensures printed == "mediaPlayerPath: " + path + "\n"
      ensures outcome.Done? ==> err == None
      ensures outcome.Failed? ==> err == Some("failed to " + ToLower(action) + ": " + outcome.error)
    {
      var encoded := ReplaceAll(mac, ':', '_');
      path := Join([AdapterPath, "dev_" + encoded, "player0"]);
      printed := "mediaPlayerPath: " + path + "\n";
      member := MediaPlayer1 + "." + action;
      match outcome
      case Done => err := None;
      case Failed(e) => err := Some("failed to " + ToLower(action) + ": " + e);
    }
  }
}

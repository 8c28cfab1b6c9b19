/** The `BluetoothController` of src/bluetooth_manager.go: one controller
    per device, created with the device's name and MAC. Its media control
    upper-cases the MAC in the player path and title-cases the action in
    the member name; its PropertiesChanged handler only prints. */
module SrcManager {
  import opened Bus
  import opened Text
  import opened ObjectPaths
  import MacScan
  import Common
  import Manager

  /** A line written to the console. The `%v` rendering of a changed
      property's value is kept as the value itself. */
  datatype Line =
    | Stdout(text: string)
    | Stderr(text: string)
    | PropertyLine(name: string, value: Variant)

  /** `fmt.Sprintf("/org/bluez/hci0/dev_%s/player0", ...)` over the
      upper-cased path form of the MAC. */
  function PlayerPath(mac: string): (p: string)
    ensures |p| == |DevicePrefix| + |mac| + |PlayerSuffix|
    ensures p[..|DevicePrefix|] == DevicePrefix && p[|DevicePrefix| + |mac|..] == PlayerSuffix
    ensures forall i :: 0 <= i < |mac| ==> p[|DevicePrefix| + i] == (if mac[i] == ':' then '_' else UpperChar(mac[i]))
    ensures forall i :: |DevicePrefix| <= i < |DevicePrefix| + |mac| ==> p[i] != ':' && !IsLower(p[i])
  {
    DevicePrefix + UpperEncoding(mac) + PlayerSuffix
  }

  /** `"org.bluez.MediaPlayer1." + strings.Title(action)`. */
  function Member(action: string): (m: string)
    ensures |m| == |MediaPlayer1| + 1 + |action|
    ensures m[..|MediaPlayer1| + 1] == MediaPlayer1 + "."
    ensures action != "" ==> m[|MediaPlayer1| + 1] == UpperChar(action[0])
    ensures ToLower(m[|MediaPlayer1| + 1..]) == ToLower(action)
    ensures m[|MediaPlayer1| + 1..] == Title(action)
  {
    var head := MediaPlayer1 + ".";
    var title := Title(action);
    assert (head + title)[..|head|] == head && (head + title)[|head|..] == title;
    TitleKeepsLowerForm(action);
    head + title
  }

  /** The property lines printed when the changed map is visited in
      `order`. */
  function PropertyLines(changed: map<string, Variant>, order: seq<string>): (lines: seq<Line>)
    requires forall i :: 0 <= i < |order| ==> order[i] in changed
    ensures |lines| == |order|
    ensures forall i :: 0 <= i < |order| ==> lines[i] == PropertyLine(order[i], changed[order[i]])
  {
    seq(|order|, i requires 0 <= i < |order| => PropertyLine(order[i], changed[order[i]]))
  }

  /** Over a full range of the changed map, every changed property is
      printed once, with its value, and nothing else is. */
  lemma PropertyLinesOncePerProperty(changed: map<string, Variant>, order: seq<string>, name: string)
    requires IsRangeOrder(order, changed.Keys)
    ensures var lines := PropertyLines(changed, order);
      && |lines| == |changed|
      && (name in changed ==> PropertyLine(name, changed[name]) in lines)
      && (forall i, j :: 0 <= i < j < |lines| ==> lines[i].name != lines[j].name)
  {
    RangeOrderLength(order, changed.Keys);
    if name in changed {
      var j :| 0 <= j < |order| && order[j] == name;
      assert PropertyLines(changed, order)[j] == PropertyLine(name, changed[name]);
    }
  }

  /** MACs that differ only in letter case reach the same player. */
  lemma PlayerPathIgnoresCase(a: string, b: string)
    requires ToUpper(a) == ToUpper(b)
    ensures PlayerPath(a) == PlayerPath(b)
  {
    UpperEncodingIgnoresCase(a, b);
  }

  /** The address scan of common.go recovers the MAC, upper-cased, from
      the player path. */
  lemma PlayerPathRoundTrip(mac: string)
    requires MacScan.IsColonForm(mac)
    ensures Common.ExtractMACAddress(PlayerPath(mac)) == ToUpper(mac)
  {
    UpperEncodingRoundTrip(mac, PlayerSuffix);
  }

  /** For a MAC already in upper case, this path is the one the
      bluetoothmanager.go variant formats. */
  lemma SamePathForUpperMac(mac: string)
    requires ToUpper(mac) == mac
    ensures PlayerPath(mac) == Manager.PlayerPath(mac)
  {
    UpperEncodingOfUpperMac(mac);
  }

  /** "play" calls the player's `Play` method. */
  lemma PlayCallsPlay()
    ensures Member("play") == "org.bluez.MediaPlayer1.Play"
  {
    assert Title("play")[0] == 'P';
    assert Title("play") == "Play";
  }

  /** The member's method name differs from the action only in letter
      case. */
  lemma MemberKeepsAction(action: string)
    ensures ToLower(Member(action)) == ToLower(MediaPlayer1 + ".") + ToLower(action)
  {
    TitleKeepsLowerForm(action);
    var a, b := MediaPlayer1 + ".", Title(action);
    assert ToLower(a + b) == ToLower(a) + ToLower(b);
  }

  class BluetoothController {
    var DeviceName: string
    var DeviceMAC: string

    /** `NewBluetoothController` once the system bus is reached. */
    constructor (deviceName: string, deviceMAC: string)
      ensures DeviceName == deviceName && DeviceMAC == deviceMAC
    {
      DeviceName := deviceName;
      DeviceMAC := deviceMAC;
    }

    /** `onPropertiesChanged`: only a body of at least three elements is
      handled; it prints the interface name, then one line per changed
      property. */
    method OnPropertiesChanged(signal: Signal) returns (lines: seq<Line>, ghost order: seq<string>)
      requires |signal.body| >= 3 ==> signal.body[0].VStr? && signal.body[1].VMap?
      ensures |signal.body| < 3 ==> lines == [] && order == []
      ensures |signal.body| >= 3 ==>
        IsRangeOrder(order, signal.body[1].m.Keys) &&
        (forall i :: 0 <= i < |order| ==> order[i] in signal.body[1].m) &&
        lines == [Stdout("PropertiesChanged on interface: " + signal.body[0].s)] + PropertyLines(signal.body[1].m, order)
      ensures |signal.body| >= 3 ==>
        |lines| == |signal.body[1].m| + 1 && lines[0] == Stdout("PropertiesChanged on interface: " + signal.body[0].s)
      ensures |signal.body| >= 3 ==> forall name :: name in signal.body[1].m ==>
        PropertyLine(name, signal.body[1].m[name]) in lines
      ensures |signal.body| >= 3 ==> forall i :: 1 <= i < |lines| ==>
        lines[i].PropertyLine? && lines[i].name in signal.body[1].m && lines[i].value == signal.body[1].m[lines[i].name]
    {
      lines, order := [], [];
      if |signal.body| < 3 {
        return;
      }
      var interfaceName := signal.body[0].s;
      var changed := signal.body[1].m;
      var header := Stdout("PropertiesChanged on interface: " + interfaceName);
      lines := [header];
      var remaining := changed.Keys;
      while remaining != {}
        invariant remaining <= changed.Keys
        invariant IsRangeOrder(order, changed.Keys - remaining)
        invariant forall i :: 0 <= i < |order| ==> order[i] in changed
        invariant lines == [header] + PropertyLines(changed, order)
        decreases remaining
      {
        var name :| name in remaining;
        RangeOrderVisit(order, changed.Keys, remaining, name);
        remaining := remaining - {name};
        assert PropertyLines(changed, order + [name]) == PropertyLines(changed, order) + [PropertyLine(name, changed[name])];
        ConcatAssociates([header], PropertyLines(changed, order), [PropertyLine(name, changed[name])]);
        lines := lines + [PropertyLine(name, changed[name])];
        order := order + [name];
      }
      forall name | name in changed
        ensures PropertyLine(name, changed[name]) in lines
      {
        PropertyLinesOncePerProperty(changed, order, name);
      }
      RangeOrderLength(order, changed.Keys);
    }

    /** `ControlMedia`: calls the title-cased action on the device's
      player; a failed call is reported on standard error and the success
      line is not printed. */
    method ControlMedia(action: string, outcome: CallOutcome) returns (path: string, member: string, line: Line)
      ensures path == PlayerPath(DeviceMAC)
      ensures member == Member(action)
      ensures outcome.Failed? ==> line == Stderr("Failed to " + ToLower(action) + ": " + outcome.error)
      ensures outcome.Done? ==> line == Stdout(action + " action executed for " + DeviceName)
    {
      var formatted := ToUpper(ReplaceAll(DeviceMAC, ':', '_'));
      path := DevicePrefix + formatted + PlayerSuffix;
      member := MediaPlayer1 + "." + Title(action);
      match outcome
      case Failed(e) => line := Stderr("Failed to " + ToLower(action) + ": " + e);
      case Done => line := Stdout(action + " action executed for " + DeviceName);
    }
  }
}

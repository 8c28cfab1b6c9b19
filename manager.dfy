/** The `BluetoothController` of bluetoothmanager.go: the same fan-out and
    media control as bluetoothcontroller.go, but with a per-instance debug
    switch, an address scan that accepts only '_' between octets, and a
    player path formatted directly rather than joined. */
module Manager {
  import opened Bus
  import opened Text
  import opened ObjectPaths
  import opened PropertiesChanged
  import MacScan
  import Common
  import Controller

  /** What `PrintDebug` is asked to print. The `%v` renderings of the
      signal and of the values are kept as the values themselves. */
  datatype DebugLine =
    | ReceivedSignal(signal: Signal)
    | EventLine(call: ListenerCall)
    | CallingLine(action: string, path: string)

  /** The lines that reach standard output: all of them when debugging,
      none otherwise. */
  function Shown(debug: bool, lines: seq<DebugLine>): (out: seq<DebugLine>)
    ensures debug ==> out == lines
    ensures !debug ==> out == []
  {
    if debug then lines else []
  }

  /** The debug line written before each Listener call. */
  function EventLines(calls: seq<ListenerCall>): (lines: seq<DebugLine>)
    ensures |lines| == |calls|
    ensures forall i :: 0 <= i < |calls| ==> lines[i] == EventLine(calls[i])
  {
    seq(|calls|, i requires 0 <= i < |calls| => EventLine(calls[i]))
  }

  /** `extractMACAddress` of this variant: the leftmost six-octet address
      with '_' between octets, with '_' turned into ':'; "Unknown" if none. */
  function ExtractMACAddress(input: string): (mac: string)
    ensures mac == "Unknown" <==> forall i :: !MacScan.MatchesAt(input, i, false)
    ensures mac != "Unknown" ==> MacScan.IsColonForm(mac)
    ensures mac != "Unknown" ==>
      exists i :: MacScan.IsLeftmostMatch(input, i, false) &&
                  mac == ReplaceAll(input[i..i + MacScan.WindowLength], '_', ':')
  {
    MacScan.Extract(input, false)
  }

  /** A colon-separated address, or any text without '_', is "Unknown" to
      this scan. */
  lemma ColonAddressIsUnknown(input: string)
    requires '_' !in input
    ensures ExtractMACAddress(input) == "Unknown"
  {
    MacScan.UnderscoreOnlyNeedsUnderscore(input);
  }

  /** The scan never finds its own output again, since that output
      separates octets with ':'. */
  lemma ExtractNotIdempotent(input: string)
    ensures ExtractMACAddress(ExtractMACAddress(input)) == "Unknown"
  {
    MacScan.UnderscoreOnlyRejectsOwnOutput(input);
  }

  /** On text without ':' this scan and the one in common.go agree. */
  lemma AgreesWithCommonWithoutColons(input: string)
    requires ':' !in input
    ensures ExtractMACAddress(input) == Common.ExtractMACAddress(input)
  {
    MacScan.PatternsAgreeWithoutColons(input);
  }

  /** `fmt.Sprintf("/org/bluez/hci0/dev_%s/player0", ...)` over the MAC
      with ':' replaced by '_', letter case unchanged. */
  function PlayerPath(mac: string): (p: string)
    ensures |p| == |DevicePrefix| + |mac| + |PlayerSuffix|
    ensures p[..|DevicePrefix|] == DevicePrefix && p[|DevicePrefix| + |mac|..] == PlayerSuffix
    ensures forall i :: 0 <= i < |mac| ==> p[|DevicePrefix| + i] == (if mac[i] == ':' then '_' else mac[i])
    ensures forall i :: 0 <= i < |p| ==> p[i] != ':'
  {
    DevicePrefix + ReplaceAll(mac, ':', '_') + PlayerSuffix
  }

  /** The scan recovers a display-form MAC from the player path built for
      it, so Listener calls from that player carry the same MAC. */
  lemma PlayerPathRoundTrip(mac: string)
    requires MacScan.IsColonForm(mac)
    ensures ExtractMACAddress(PlayerPath(mac)) == mac
  {
    PathEncodingIsWindow(mac, false);
    ExtractAfterDevicePrefix(ReplaceAll(mac, ':', '_'), PlayerSuffix, false);
  }

  /** For a MAC without '/', the formatted path equals the path the
      bluetoothcontroller.go variant joins under its adapter path. */
  lemma SamePathAsJoinedVariant(mac: string)
    requires '/' !in mac
    ensures PlayerPath(mac) == Controller.PlayerPath(AdapterRoot, mac)
  {
    Controller.PlayerPathIsPlain(mac);
  }

  class BluetoothController {
    var Debug: bool
    /** The lines `PrintDebug` wrote, in order. */
    var Output: seq<DebugLine>

    /** `NewBluetoothController` once the system bus is reached: debugging
      starts switched off. */
    constructor ()
      ensures !Debug && Output == []
    {
      Debug := false;
      Output := [];
    }

    /** `EnableDebugging`. */
    method EnableDebugging()
      modifies this
      ensures Debug && Output == old(Output)
    {
      Debug := true;
    }

    /** `PrintDebug`: the line is written only while debugging. */
    method PrintDebug(line: DebugLine)
      modifies this
      ensures Debug == old(Debug)
      ensures Output == old(Output) + Shown(Debug, [line])
    {
      if Debug {
        Output := Output + [line];
      }
    }

    /** `onPropertiesChanged`: the signal is logged first; a body shorter
      than three elements stops there. Otherwise each changed property is
      logged and handed to the Listener with the MAC scanned from the path. */
    method OnPropertiesChanged(signal: Signal) returns (calls: seq<ListenerCall>, ghost order: seq<string>)
      requires |signal.body| >= 3 ==> signal.body[1].VMap?
      modifies this
      ensures Debug == old(Debug)
      ensures |signal.body| < 3 ==> calls == [] && Output == old(Output) + Shown(Debug, [ReceivedSignal(signal)])
      ensures |signal.body| >= 3 ==>
        IsRangeOrder(order, signal.body[1].m.Keys) &&
        (forall i :: 0 <= i < |order| ==> order[i] in signal.body[1].m) &&
        calls == Calls(ExtractMACAddress(signal.path), signal.body[1].m, order) &&
        Output == old(Output) + Shown(Debug, [ReceivedSignal(signal)] + EventLines(calls))
    {
      calls, order := [], [];
      PrintDebug(ReceivedSignal(signal));
      if |signal.body| < 3 {
        return;
      }
      ghost var start := Output;
      var mac := ExtractMACAddress(signal.path);
      var changed := signal.body[1].m;
      var remaining := changed.Keys;
      while remaining != {}
        invariant remaining <= changed.Keys
        invariant IsRangeOrder(order, changed.Keys - remaining)
        invariant forall i :: 0 <= i < |order| ==> order[i] in changed
        invariant calls == Calls(mac, changed, order)
        invariant Debug == old(Debug)
        invariant Output == start + Shown(Debug, EventLines(calls))
        decreases remaining
      {
        var name :| name in remaining;
        RangeOrderVisit(order, changed.Keys, remaining, name);
        remaining := remaining - {name};
        var call := ListenerCall(mac, name, changed[name]);
        PrintDebug(EventLine(call));
        CallsStep(mac, changed, order, name);
        assert EventLines(calls + [call]) == EventLines(calls) + [EventLine(call)];
        ConcatAssociates(start, Shown(Debug, EventLines(calls)), Shown(Debug, [EventLine(call)]));
        calls := calls + [call];
        order := order + [name];
      }
      ConcatAssociates(old(Output), Shown(Debug, [ReceivedSignal(signal)]), Shown(Debug, EventLines(calls)));
    }

    /** `ControlMedia`: the formatted player path, a debug line naming the
      action and the path, the member `org.bluez.MediaPlayer1.<action>`,
      and `failed to <lower-cased action>: <error>` if the call fails. */
    method ControlMedia(action: string, mac: string, outcome: CallOutcome)
      returns (path: string, member: string, err: Option<string>)
      modifies this
      ensures path == PlayerPath(mac)
      ensures member == MediaPlayer1 + "." + action
      ensures Debug == old(Debug)
      ensures Output == old(Output) + Shown(Debug, [CallingLine(action, path)])
      ensures outcome.Done? ==> err == None
      ensures outcome.Failed? ==> err == Some("failed to " + ToLower(action) + ": " + outcome.error)
    {
      var encoded := ReplaceAll(mac, ':', '_');
      path := DevicePrefix + encoded + PlayerSuffix;
      PrintDebug(CallingLine(action, path));
      member := MediaPlayer1 + "." + action;
      match outcome
      case Done => err := None;
      case Failed(e) => err := Some("failed to " + ToLower(action) + ": " + e);
    }
  }
}

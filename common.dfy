/** The shared records of the package: a Bluetooth device as BlueZ
    describes it, the parser that fills one from a `name -> variant`
    property map, the property-change event, and the MAC address scan
    that accepts both ':' and '_' between octets. */
module Common {
  import opened Bus
  import opened Text
  import MacScan

  /** One Bluetooth peer. Go's zero value is `ZeroDevice`. */
  datatype Device = Device(
    AdapterPath: string,
    MacAddress: string,
    Alias: string,
    Blocked: bool,
    Connected: bool,
    Name: string,
    Paired: bool,
    RSSI: int16,
    Trusted: bool)

  const ZeroDevice := Device("", "", "", false, false, "", false, 0, false)

  /** The property names the parser reads. */
  const KnownKeys := {"Address", "Alias", "Name", "Blocked", "Connected", "Paired", "RSSI", "Trusted"}

  /** Every property the parser reads holds the Go type it asserts;
      a value of another type makes the assertion panic. */
  predicate PropsWellTyped(props: map<string, Variant>)
  {
    && ("Address" in props ==> props["Address"].VStr?)
    && ("Alias" in props ==> props["Alias"].VStr?)
    && ("Name" in props ==> props["Name"].VStr?)
    && ("Blocked" in props ==> props["Blocked"].VBool?)
    && ("Connected" in props ==> props["Connected"].VBool?)
    && ("Paired" in props ==> props["Paired"].VBool?)
    && ("RSSI" in props ==> props["RSSI"].VInt16?)
    && ("Trusted" in props ==> props["Trusted"].VBool?)
  }

  /** The receiver after `ParseDevice`, and the `valid` it returned. */
  datatype Parsed = Parsed(device: Device, valid: bool)

  /** `(*Device).ParseDevice`: writes the receiver field by field. The
      record is valid exactly when the map has an address; a missing name
      falls back to the MAC address; every other field is written only
      when its key is present. */
  function ParseDevice(d: Device, path: string, props: map<string, Variant>): (r: Parsed)
    requires PropsWellTyped(props)
    ensures r.valid <==> "Address" in props
    ensures r.device.AdapterPath == path
    ensures r.valid ==> r.device.MacAddress == props["Address"].s
    ensures "Name" !in props ==> r.device.Name == r.device.MacAddress
    ensures "Name" in props ==> r.device.Name == props["Name"].s
  {
    var mac := StrOr(props, "Address", d.MacAddress);
    var device := Device(
      AdapterPath := path,
      MacAddress := mac,
      Alias := StrOr(props, "Alias", d.Alias),
      Blocked := BoolOr(props, "Blocked", d.Blocked),
      Connected := BoolOr(props, "Connected", d.Connected),
      Name := StrOr(props, "Name", mac),
      Paired := BoolOr(props, "Paired", d.Paired),
      RSSI := Int16Or(props, "RSSI", d.RSSI),
      Trusted := BoolOr(props, "Trusted", d.Trusted));
    Parsed(device, "Address" in props)
  }

  /** One `if v, ok := props[key]; ok { field = v.Value().(T) }` of the
      parser, for each field type: the map's value when the key is
      present, the field's current value otherwise. */
  function StrOr(props: map<string, Variant>, key: string, current: string): string
    requires key in props ==> props[key].VStr?
  {
    if key in props then props[key].s else current
  }

  function BoolOr(props: map<string, Variant>, key: string, current: bool): bool
    requires key in props ==> props[key].VBool?
  {
    if key in props then props[key].b else current
  }

  function Int16Or(props: map<string, Variant>, key: string, current: int16): int16
    requires key in props ==> props[key].VInt16?
  {
    if key in props then props[key].i else current
  }

  /** Alias, Blocked, Connected, Paired, RSSI and Trusted keep the
      receiver's prior value when their key is absent, and so does the MAC
      address when the map has no address. */
  lemma ParseDeviceKeepsAbsentFields(d: Device, path: string, props: map<string, Variant>)
    requires PropsWellTyped(props)
    ensures var n := ParseDevice(d, path, props).device;
      && ("Address" !in props ==> n.MacAddress == d.MacAddress)
      && ("Alias" !in props ==> n.Alias == d.Alias)
      && ("Blocked" !in props ==> n.Blocked == d.Blocked)
      && ("Connected" !in props ==> n.Connected == d.Connected)
      && ("Paired" !in props ==> n.Paired == d.Paired)
      && ("RSSI" !in props ==> n.RSSI == d.RSSI)
      && ("Trusted" !in props ==> n.Trusted == d.Trusted)
  {
  }

  /** A present key overwrites its field with the map's value. */
  lemma ParseDeviceWritesPresentFields(d: Device, path: string, props: map<string, Variant>)
    requires PropsWellTyped(props)
    ensures var n := ParseDevice(d, path, props).device;
      && ("Alias" in props ==> n.Alias == props["Alias"].s)
      && ("Blocked" in props ==> n.Blocked == props["Blocked"].b)
      && ("Connected" in props ==> n.Connected == props["Connected"].b)
      && ("Paired" in props ==> n.Paired == props["Paired"].b)
      && ("RSSI" in props ==> n.RSSI == props["RSSI"].i)
      && ("Trusted" in props ==> n.Trusted == props["Trusted"].b)
  {
  }

  /** Keys the parser does not read change nothing. */
  lemma ParseDeviceIgnoresUnknownKeys(d: Device, path: string, props: map<string, Variant>, key: string, v: Variant)
    requires PropsWellTyped(props)
    requires key !in KnownKeys
    ensures PropsWellTyped(props[key := v])
    ensures ParseDevice(d, path, props[key := v]) == ParseDevice(d, path, props)
  {
    UnknownKeyKeepsWellTyped(props, key, v);
  }

  /** A key the parser does not read cannot make its type assertions
      panic. */
  lemma UnknownKeyKeepsWellTyped(props: map<string, Variant>, key: string, v: Variant)
    requires PropsWellTyped(props)
    requires key !in KnownKeys
    ensures PropsWellTyped(props[key := v])
  {
  }

  /** Parsing the same map into the parsed record again changes nothing. */
  lemma ParseDeviceIdempotent(d: Device, path: string, props: map<string, Variant>)
    requires PropsWellTyped(props)
    ensures ParseDevice(ParseDevice(d, path, props).device, path, props) == ParseDevice(d, path, props)
  {
  }

  /** `extractMACAddress` in common.go: the leftmost six-octet address in
      the text, with ':' or '_' between octets, in display form (every '_'
      turned into ':', hex digits as they were); "Unknown" if there is none. */
  function ExtractMACAddress(input: string): (mac: string)
    ensures mac == "Unknown" <==> forall i :: !MacScan.MatchesAt(input, i, true)
    ensures mac != "Unknown" ==> MacScan.IsColonForm(mac)
    ensures mac != "Unknown" ==>
      exists i :: MacScan.IsLeftmostMatch(input, i, true) &&
                  mac == ReplaceAll(input[i..i + MacScan.WindowLength], '_', ':')
  {
    MacScan.Extract(input, true)
  }

  /** Extraction is idempotent. */
  lemma ExtractMACAddressIdempotent(input: string)
    ensures ExtractMACAddress(ExtractMACAddress(input)) == ExtractMACAddress(input)
  {
    MacScan.ExtractIdempotent(input);
  }

  /** The colon form and the underscore form of the same text give the
      same address. */
  lemma ExtractMACAddressEitherSeparator(input: string)
    ensures ExtractMACAddress(ReplaceAll(input, ':', '_')) == ExtractMACAddress(input)
    ensures ExtractMACAddress(ReplaceAll(input, '_', ':')) == ExtractMACAddress(input)
  {
    MacScan.ExtractSameForBothForms(input);
  }

  /** One property change, tagged with the device it came from. The value
      is kept as the variant itself (see README for its string form). */
  datatype Event = Event(Device: string, Category: string, Value: Variant)

  /** `(*Event).ParseEvent`: the device is the address found in the
      source path (or "Unknown"), the category the property's name. */
  function ParseEvent(eventName: string, address: string, prop: Variant): (e: Event)
    ensures e.Category == eventName && e.Value == prop
    ensures e.Device == ExtractMACAddress(address)
    ensures e.Device == "Unknown" || MacScan.IsColonForm(e.Device)
  {
    Event(ExtractMACAddress(address), eventName, prop)
  }

  /** What `(*Device).Connect` does first: return nil at once, or go on to
      call the device's `Connect` method on the bus. */
  datatype ConnectStep = ReturnNil | CallDeviceConnect

  /** The early-return guards of `(*Device).Connect`. */
  function ConnectStart(d: Device): (step: ConnectStep)
    ensures step == ReturnNil <==> d.Connected || !d.Paired
  {
    if d.Connected then ReturnNil
    else if !d.Paired then ReturnNil
    else CallDeviceConnect
  }

  /** What `(*Device).Connect` returns, `None` standing for a nil error.
      Past the guards it dials the device; a failed dial is wrapped, and
      after a successful one the polling loop rereads the receiver's own
      `Connected` field, which the guard has found false and which nothing
      writes, so the loop always ends on the timeout. */
  function ConnectOutcome(d: Device, dial: CallOutcome): (r: Option<string>)
    ensures r == None <==> ConnectStart(d) == ReturnNil
    ensures ConnectStart(d) == CallDeviceConnect && dial.Failed? ==>
      r == Some("failed to establish connection: " + dial.error)
    ensures ConnectStart(d) == CallDeviceConnect && dial.Done? ==> r == Some("connection timeout")
  {
    if ConnectStart(d) == ReturnNil then None
    else if dial.Failed? then Some("failed to establish connection: " + dial.error)
    else Some("connection timeout")
  }

  /** `(*Device).Connect` as written. `dial` is the outcome of
      `ConnectToDevice`, and `ticks` is how many 500 ms ticks fire before
      the 10 s timeout does, which the clock and the scheduler decide. */
  method Connect(d: Device, dial: CallOutcome, ticks: nat) returns (err: Option<string>)
    ensures err == ConnectOutcome(d, dial)
  {
    if d.Connected {
      return None;
    }
    if !d.Paired {
      return None;
    }
    if dial.Failed? {
      return Some("failed to establish connection: " + dial.error);
    }
    var tick := 0;
    while tick < ticks
      invariant 0 <= tick <= ticks
      invariant !d.Connected
    {
      if d.Connected {
        return None;
      }
      tick := tick + 1;
    }
    return Some("connection timeout");
  }

  /** What `Connect` evidently means to do: `polls` are the device's
      `Connected` property as read from the bus at each tick before the
      timeout, and the first `true` ends the wait with success. */
  function PolledConnectOutcome(d: Device, dial: CallOutcome, polls: seq<bool>): (r: Option<string>)
    ensures r == None <==> ConnectStart(d) == ReturnNil || (dial.Done? && true in polls)
    ensures r == Some("connection timeout") <==> ConnectStart(d) == CallDeviceConnect && dial.Done? && true !in polls
    ensures ConnectStart(d) == CallDeviceConnect && dial.Failed? ==>
      r == Some("failed to establish connection: " + dial.error)
  {
    if ConnectStart(d) == ReturnNil then None
    else if dial.Failed? then Some("failed to establish connection: " + dial.error)
    else if true in polls then None
    else Some("connection timeout")
  }

  /** The corrected `Connect`: the same guards and dial, then a loop that
      polls the bus reading at each tick. */
  method ConnectPolling(d: Device, dial: CallOutcome, polls: seq<bool>) returns (err: Option<string>)
    ensures err == PolledConnectOutcome(d, dial, polls)
  {
    if d.Connected {
      return None;
    }
    if !d.Paired {
      return None;
    }
    if dial.Failed? {
      return Some("failed to establish connection: " + dial.error);
    }
    var tick := 0;
    while tick < |polls|
      invariant 0 <= tick <= |polls|
      invariant true !in polls[..tick]
    {
      if polls[tick] {
        return None;
      }
      assert polls[..tick + 1] == polls[..tick] + [polls[tick]];
      tick := tick + 1;
    }
    assert polls[..tick] == polls;
    return Some("connection timeout");
  }

  /** As written, `Connect` never reports success once it dials: even a
      dial that succeeds ends in "connection timeout". */
  lemma ConnectNeverSucceedsAfterDial(d: Device, dial: CallOutcome)
    requires ConnectStart(d) == CallDeviceConnect
    ensures ConnectOutcome(d, dial) != None
    ensures dial.Done? ==> ConnectOutcome(d, dial) == Some("connection timeout")
  {
  }

  /** A paired, disconnected device whose dial succeeds and which the bus
      reports connected at the first tick: the code as written times out,
      the polling version succeeds. */
  lemma ConnectTimesOutThoughBusConnects()
    ensures var d := ZeroDevice.(Paired := true);
      ConnectOutcome(d, Done) == Some("connection timeout") && PolledConnectOutcome(d, Done, [true]) == None
  {
  }

  /** The two agree whenever the bus never reports the device connected. */
  lemma PollingAgreesWithoutConnection(d: Device, dial: CallOutcome, polls: seq<bool>)
    requires true !in polls
    ensures PolledConnectOutcome(d, dial, polls) == ConnectOutcome(d, dial)
  {
  }

  /** A device parsed from a map without "Paired" is never dialled: the
      zero value leaves it unpaired, so Connect returns nil untouched. */
  lemma ConnectSkipsDeviceWithoutPaired(path: string, props: map<string, Variant>)
    requires PropsWellTyped(props)
    requires "Paired" !in props
    ensures ConnectStart(ParseDevice(ZeroDevice, path, props).device) == ReturnNil
  {
  }
}

/** BlueZ object-path conventions shared by every variant of the
    controller: a device lives at `/org/bluez/hci0/dev_<MAC>` with the
    MAC's ':' written as '_', and its media player one level below. The
    lemmas here say that the address scan finds the MAC again in such a
    path, whichever separator class it uses. */
module ObjectPaths {
  import opened Bus
  import opened Text
  import MacScan

  const DevicePrefix := "/org/bluez/hci0/dev_"
  const PlayerSuffix := "/player0"

  /** No address can start inside the device prefix: at every one of its
      20 positions one of the first three characters breaks the pattern. */
  lemma PrefixHasNoMatch(t: string, colonAllowed: bool)
    ensures forall i :: 0 <= i < |DevicePrefix| ==> !MacScan.MatchesAt(DevicePrefix + t, i, colonAllowed)
  {
    var s := DevicePrefix + t;
    forall i | 0 <= i < |DevicePrefix| && i + MacScan.WindowLength <= |s|
      ensures !MacScan.MatchesAt(s, i, colonAllowed)
    {
      var w := s[i..i + MacScan.WindowLength];
      assert w[0] == DevicePrefix[i];
      assert i + 1 < |DevicePrefix| ==> w[1] == DevicePrefix[i + 1];
      assert i + 2 < |DevicePrefix| ==> w[2] == DevicePrefix[i + 2];
      assert !MacScan.FitsAt(w[0], 0, colonAllowed) || !MacScan.FitsAt(w[1], 1, colonAllowed)
        || !MacScan.FitsAt(w[2], 2, colonAllowed);
    }
  }

  /** An address written right after the device prefix is the one the scan
      returns, in display form. */
  lemma ExtractAfterDevicePrefix(w: string, rest: string, colonAllowed: bool)
    requires MacScan.IsWindow(w, colonAllowed)
    ensures MacScan.Extract(DevicePrefix + w + rest, colonAllowed) == ReplaceAll(w, '_', ':')
  {
    var s := DevicePrefix + w + rest;
    var n := |DevicePrefix|;
    assert s == DevicePrefix + (w + rest);
    assert s[n..n + MacScan.WindowLength] == w;
    PrefixHasNoMatch(w + rest, colonAllowed);
    assert MacScan.IsLeftmostMatch(s, n, colonAllowed);
    MacScan.ExtractAtLeftmost(s, n, colonAllowed);
  }

  /** The path encoding of a display-form MAC is a window under either
      pattern, and turning '_' back into ':' restores the MAC. */
  lemma PathEncodingIsWindow(mac: string, colonAllowed: bool)
    requires MacScan.IsColonForm(mac)
    ensures MacScan.IsWindow(ReplaceAll(mac, ':', '_'), colonAllowed)
    ensures ReplaceAll(ReplaceAll(mac, ':', '_'), '_', ':') == mac
  {
    var e := ReplaceAll(mac, ':', '_');
    forall k | 0 <= k < MacScan.WindowLength ensures MacScan.FitsAt(e[k], k, colonAllowed) {
    }
    forall k | 0 <= k < MacScan.WindowLength ensures ReplaceAll(e, '_', ':')[k] == mac[k] {
    }
  }

  /** The same for the upper-cased encoding: the window survives, and the
      scan gives back the upper-cased MAC. */
  lemma UpperPathEncodingIsWindow(mac: string, colonAllowed: bool)
    requires MacScan.IsColonForm(mac)
    ensures MacScan.IsWindow(ToUpper(ReplaceAll(mac, ':', '_')), colonAllowed)
    ensures ReplaceAll(ToUpper(ReplaceAll(mac, ':', '_')), '_', ':') == ToUpper(mac)
  {
    var e := ToUpper(ReplaceAll(mac, ':', '_'));
    forall k | 0 <= k < MacScan.WindowLength ensures MacScan.FitsAt(e[k], k, colonAllowed) {
    }
    forall k | 0 <= k < MacScan.WindowLength ensures ReplaceAll(e, '_', ':')[k] == ToUpper(mac)[k] {
    }
  }

  /** `strings.ToUpper(strings.Replace(mac, ":", "_", -1))`: the
      path form of a MAC with its hex letters upper-cased. */
  function UpperEncoding(mac: string): (e: string)
    ensures |e| == |mac|
    ensures forall i :: 0 <= i < |mac| ==> e[i] == (if mac[i] == ':' then '_' else UpperChar(mac[i]))
  {
    ToUpper(ReplaceAll(mac, ':', '_'))
  }

  /** MACs that differ only in letter case have one encoding. */
  lemma UpperEncodingIgnoresCase(a: string, b: string)
    requires ToUpper(a) == ToUpper(b)
    ensures UpperEncoding(a) == UpperEncoding(b)
  {
    UpperCommutesWithReplace(a, ':', '_');
    UpperCommutesWithReplace(b, ':', '_');
  }

  /** For a MAC with no lower-case letter, upper-casing changes nothing:
      the encoding is the plain one. */
  lemma UpperEncodingOfUpperMac(mac: string)
    requires ToUpper(mac) == mac
    ensures UpperEncoding(mac) == ReplaceAll(mac, ':', '_')
  {
    UpperCommutesWithReplace(mac, ':', '_');
  }

  /** The address scan of common.go finds the upper-cased MAC in any path
      that continues the device prefix with its upper-cased encoding. */
  lemma UpperEncodingRoundTrip(mac: string, rest: string)
    requires MacScan.IsColonForm(mac)
    ensures MacScan.Extract(DevicePrefix + UpperEncoding(mac) + rest, true) == ToUpper(mac)
  {
    UpperPathEncodingIsWindow(mac, true);
    ExtractAfterDevicePrefix(UpperEncoding(mac), rest, true);
  }
}

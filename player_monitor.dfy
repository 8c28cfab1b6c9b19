/** The standalone monitor of test.go: it watches one device's object path
    and reports the media player's Volume, Status and Track changes. The
    handler checks the payload's shape step by step and gives up silently
    on the first thing it does not expect. */
module PlayerMonitor {
  import opened Bus
  import opened Text
  import opened ObjectPaths
  import MacScan
  import Common
  import SrcManager

  /** `"/org/bluez/hci0/dev_" + upper-cased MAC with '_'`: the path the
      monitor's match rule names. */
  function WatchedPath(mac: string): (p: string)
    ensures |p| == |DevicePrefix| + |mac| && p[..|DevicePrefix|] == DevicePrefix
    ensures forall i :: 0 <= i < |mac| ==> p[|DevicePrefix| + i] == (if mac[i] == ':' then '_' else UpperChar(mac[i]))
    ensures forall i :: |DevicePrefix| <= i < |DevicePrefix| + |mac| ==> p[i] != ':' && !IsLower(p[i])
  {
    DevicePrefix + UpperEncoding(mac)
  }

  /** The watched path is the device under which src/bluetooth_manager.go
      finds the same MAC's player. */
  lemma WatchedPathHoldsPlayer(mac: string)
    ensures SrcManager.PlayerPath(mac) == WatchedPath(mac) + PlayerSuffix
  {
  }

  /** The address scan of common.go recovers the MAC, upper-cased, from
      the watched path. */
  lemma WatchedPathRoundTrip(mac: string)
    requires MacScan.IsColonForm(mac)
    ensures Common.ExtractMACAddress(WatchedPath(mac)) == ToUpper(mac)
  {
    UpperEncodingRoundTrip(mac, "");
    assert DevicePrefix + UpperEncoding(mac) + "" == WatchedPath(mac);
  }

  /** One printed report; `timestamp` is the handler's formatted clock
      reading and `device` the monitored device's name. */
  datatype Report =
    | VolumeChanged(timestamp: string, device: string, value: Variant)
    | StatusChanged(timestamp: string, device: string, value: Variant)
    | NowPlaying(timestamp: string, device: string, title: string, artist: string)

  /** The reports so far, and whether a malformed Track ended the handler. */
  datatype Scan = Scan(reports: seq<Report>, stopped: bool)

  /** `trackInfo[key].Value().(string)` with the ok result dropped: the
      string when the key holds one, "" when it is missing or holds
      anything else. */
  function TrackField(track: map<string, Variant>, key: string): (field: string)
    ensures key in track && track[key].VStr? ==> field == track[key].s
    ensures !(key in track && track[key].VStr?) ==> field == ""
  {
    if key in track && track[key].VStr? then track[key].s else ""
  }

  /** The shape checks before the loop: at least three body elements, the
      first the string "org.bluez.MediaPlayer1", the second a property map. */
  predicate Accepted(body: seq<Variant>): (ok: bool)
    ensures ok <==> |body| >= 3 && body[0] == VStr(MediaPlayer1) && body[1].VMap?
  {
    |body| >= 3 && body[0].VStr? && body[0].s == MediaPlayer1 && body[1].VMap?
  }

  /** One iteration of the handler's loop. */
  function Visit(device: string, now: string, s: Scan, name: string, value: Variant): (r: Scan)
    ensures s.stopped ==> r == s
    ensures r.stopped <==> s.stopped || (name == "Track" && !value.VMap?)
    ensures |s.reports| <= |r.reports| <= |s.reports| + 1 && r.reports[..|s.reports|] == s.reports
    ensures |r.reports| == |s.reports| + 1 <==>
      !s.stopped && (name == "Volume" || name == "Status" || (name == "Track" && value.VMap?))
  {
    if s.stopped then s
    else if name == "Volume" then Scan(s.reports + [VolumeChanged(now, device, value)], false)
    else if name == "Status" then Scan(s.reports + [StatusChanged(now, device, value)], false)
    else if name == "Track" then
      if value.VMap? then
        Scan(s.reports + [NowPlaying(now, device, TrackField(value.m, "Title"), TrackField(value.m, "Artist"))], false)
      else Scan(s.reports, true)
    else s
  }

  /** The handler's loop over the changed map, visited in `order`. */
  function Handle(device: string, now: string, changed: map<string, Variant>, order: seq<string>): (s: Scan)
    requires forall i :: 0 <= i < |order| ==> order[i] in changed
    ensures |s.reports| <= |order|
    decreases |order|
  {
    if order == [] then Scan([], false)
    else
      var last := order[|order| - 1];
      Visit(device, now, Handle(device, now, changed, order[..|order| - 1]), last, changed[last])
  }

  /** Once a malformed Track has stopped the handler, later properties
      change nothing. */
  lemma {:induction false} HandleAfterStop(device: string, now: string, changed: map<string, Variant>, order: seq<string>, extra: seq<string>)
    requires forall i :: 0 <= i < |order| ==> order[i] in changed
    requires forall i :: 0 <= i < |extra| ==> extra[i] in changed
    requires Handle(device, now, changed, order).stopped
    ensures forall i :: 0 <= i < |order + extra| ==> (order + extra)[i] in changed
    ensures Handle(device, now, changed, order + extra) == Handle(device, now, changed, order)
    decreases |extra|
  {
    var all := order + extra;
    assert forall i :: 0 <= i < |all| ==> all[i] in changed by {
      forall i | 0 <= i < |all| ensures all[i] in changed {
        if i >= |order| {
          assert all[i] == extra[i - |order|];
        }
      }
    }
    if extra != [] {
      var init := extra[..|extra| - 1];
      HandleAfterStop(device, now, changed, order, init);
      assert all[..|all| - 1] == order + init;
    } else {
      assert all == order;
    }
  }

  /** A Track value that is not a map ends the handler where it is met:
      the reports are those of the properties visited before it. */
  lemma {:induction false} BadTrackStops(device: string, now: string, changed: map<string, Variant>, order: seq<string>, i: int)
    requires forall j :: 0 <= j < |order| ==> order[j] in changed
    requires 0 <= i < |order| && order[i] == "Track" && !changed["Track"].VMap?
    ensures Handle(device, now, changed, order) == Scan(Handle(device, now, changed, order[..i]).reports, true)
    decreases |order|
  {
    var init := order[..|order| - 1];
    if i == |order| - 1 {
      assert init == order[..i];
    } else {
      assert init[i] == order[i];
      BadTrackStops(device, now, changed, init, i);
      assert init[..i] == order[..i];
    }
  }

  /** Every report names the monitored device and the handler's timestamp,
      and carries exactly what its property held: Volume and Status their
      values, Track the title and artist of its map. */
  lemma {:induction false} ReportsComeFromTheirProperty(device: string, now: string, changed: map<string, Variant>, order: seq<string>, k: int)
    requires forall j :: 0 <= j < |order| ==> order[j] in changed
    requires 0 <= k < |Handle(device, now, changed, order).reports|
    ensures var r := Handle(device, now, changed, order).reports[k];
      && r.timestamp == now && r.device == device
      && (r.VolumeChanged? ==> "Volume" in order && r.value == changed["Volume"])
      && (r.StatusChanged? ==> "Status" in order && r.value == changed["Status"])
      && (r.NowPlaying? ==>
            && "Track" in order && changed["Track"].VMap?
            && r.title == TrackField(changed["Track"].m, "Title")
            && r.artist == TrackField(changed["Track"].m, "Artist"))
    decreases |order|
  {
    var init := order[..|order| - 1];
    var last := order[|order| - 1];
    var before := Handle(device, now, changed, init);
    if k < |before.reports| {
      ReportsComeFromTheirProperty(device, now, changed, init, k);
      var r := before.reports[k];
      assert Handle(device, now, changed, order).reports[k] == r;
      if r.VolumeChanged? {
        var j :| 0 <= j < |init| && init[j] == "Volume";
        assert order[j] == "Volume";
      }
      if r.StatusChanged? {
        var j :| 0 <= j < |init| && init[j] == "Status";
        assert order[j] == "Status";
      }
      if r.NowPlaying? {
        var j :| 0 <= j < |init| && init[j] == "Track";
        assert order[j] == "Track";
      }
    }
  }

  /** Without a malformed Track among the visited properties, every
      visited Volume and Status change is reported, and so is a Track
      change, with its title and artist. With `BadTrackStops` this covers
      the reports made before an abort. */
  lemma {:induction false} KnownPropertiesReported(device: string, now: string, changed: map<string, Variant>, order: seq<string>, i: int)
    requires forall j :: 0 <= j < |order| ==> order[j] in changed
    requires forall j :: 0 <= j < |order| && order[j] == "Track" ==> changed["Track"].VMap?
    requires 0 <= i < |order|
    ensures !Handle(device, now, changed, order).stopped
    ensures var reports := Handle(device, now, changed, order).reports;
      && (order[i] == "Volume" ==> VolumeChanged(now, device, changed["Volume"]) in reports)
      && (order[i] == "Status" ==> StatusChanged(now, device, changed["Status"]) in reports)
      && (order[i] == "Track" ==>
            NowPlaying(now, device, TrackField(changed["Track"].m, "Title"), TrackField(changed["Track"].m, "Artist")) in reports)
    decreases |order|
  {
    var init := order[..|order| - 1];
    var before := Handle(device, now, changed, init);
    NeverStops(device, now, changed, order);
    if |order| > 1 {
      NeverStops(device, now, changed, init);
    }
    if i < |order| - 1 {
      assert init[i] == order[i];
      KnownPropertiesReported(device, now, changed, init, i);
    }
  }

  /** Without a malformed Track among the visited properties the handler
      runs to the end. */
  lemma {:induction false} NeverStops(device: string, now: string, changed: map<string, Variant>, order: seq<string>)
    requires forall j :: 0 <= j < |order| ==> order[j] in changed
    requires forall j :: 0 <= j < |order| && order[j] == "Track" ==> changed["Track"].VMap?
    ensures !Handle(device, now, changed, order).stopped
    decreases |order|
  {
    if order != [] {
      var init := order[..|order| - 1];
      assert forall j :: 0 <= j < |init| ==> init[j] == order[j];
      NeverStops(device, now, changed, init);
    }
  }

  /** `handlePropertiesChanged`: nothing unless the payload has the
      expected shape; then the reports of the changed properties in map
      order, up to the first Track that is not a map. `now` stands for the
      formatted clock reading. */
  method HandlePropertiesChanged(deviceName: string, now: string, signal: Signal)
    returns (reports: seq<Report>, ghost order: seq<string>)
    ensures !Accepted(signal.body) ==> reports == []
    ensures Accepted(signal.body) ==>
      IsRangeOrder(order, signal.body[1].m.Keys) &&
      (forall i :: 0 <= i < |order| ==> order[i] in signal.body[1].m) &&
      reports == Handle(deviceName, now, signal.body[1].m, order).reports
  {
    reports, order := [], [];
    if |signal.body| < 3 {
      return;
    }
    if !signal.body[0].VStr? || signal.body[0].s != MediaPlayer1 {
      return;
    }
    if !signal.body[1].VMap? {
      return;
    }
    var changed := signal.body[1].m;
    var remaining := changed.Keys;
    while remaining != {}
      invariant remaining <= changed.Keys
      invariant IsRangeOrder(order, changed.Keys - remaining)
      invariant forall i :: 0 <= i < |order| ==> order[i] in changed
      invariant Handle(deviceName, now, changed, order) == Scan(reports, false)
      decreases remaining
    {
      var name :| name in remaining;
      RangeOrderVisit(order, changed.Keys, remaining, name);
      remaining := remaining - {name};
      var value := changed[name];
      ghost var prev := order;
      order := order + [name];
      assert order[..|order| - 1] == prev;
      if name == "Volume" {
        reports := reports + [VolumeChanged(now, deviceName, value)];
      } else if name == "Status" {
        reports := reports + [StatusChanged(now, deviceName, value)];
      } else if name == "Track" {
        if !value.VMap? {
          ghost var rest := SomeRangeOrder(remaining);
          RangeOrderConcat(order, changed.Keys - remaining, rest, remaining);
          assert changed.Keys - remaining + remaining == changed.Keys;
          HandleAfterStop(deviceName, now, changed, order, rest);
          order := order + rest;
          return;
        }
        var title := TrackField(value.m, "Title");
        var artist := TrackField(value.m, "Artist");
        reports := reports + [NowPlaying(now, deviceName, title, artist)];
      }
    }
  }
}

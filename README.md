# BluetoothController: the BlueZ translation layer, in Dafny

This project models the code that turns BlueZ D-Bus traffic into typed
records, most of it in the Go package `bluetoothmanager`:

- the `Device` record and its parser `ParseDevice`, the `Event` record and
  `ParseEvent`, the MAC address scan `extractMACAddress`, and
  `Device.Connect` with its guards and its wait for the connection
  (common.go);
- the `BluetoothScanner` device registry, which is filled from a
  `GetManagedObjects` snapshot and from `InterfacesAdded` signals
  (bluetoothscanner.go);
- the three `BluetoothController` variants:
  - the one that joins the player path under its adapter path
    (bluetoothcontroller.go);
  - the one with a per-instance debug switch and a '_'-only address scan
    (bluetoothmanager.go);
  - the per-device one that upper-cases the MAC and title-cases the
    action (src/bluetooth_manager.go, package `bluetooth_manager`);
- the `handlePropertiesChanged` monitor of test.go (package `main`).

Go's `strings` and `path/filepath` helpers that these files call are
modelled too: `ReplaceAll`, ASCII `ToUpper`, `ToLower` and `Title`, and
`filepath.Join` with `Clean` on '/' paths.

The modules, by file:

| file | module | models |
|---|---|---|
| bus.dfy | `Bus` | D-Bus variants, signals, the object-path constants, and the visit order of a Go `range` over a map |
| text.dfy | `Text` | `strings.ReplaceAll`, `ToUpper`, `ToLower`, `Title` |
| filepath.dfy | `FilePath` | `filepath.Join` and `filepath.Clean` |
| mac_scan.dfy | `MacScan` | the 17-character address window scan behind both `extractMACAddress` functions |
| common.dfy | `Common` | common.go |
| object_paths.dfy | `ObjectPaths` | the `/org/bluez/hci0/dev_<mac>` path forms and their round trips through the scan |
| scanner.dfy | `Scanner` | bluetoothscanner.go |
| properties_changed.dfy | `PropertiesChanged` | the Listener fan-out shared by two controllers |
| controller.dfy | `Controller` | bluetoothcontroller.go |
| manager.dfy | `Manager` | bluetoothmanager.go |
| src_manager.dfy | `SrcManager` | src/bluetooth_manager.go |
| player_monitor.dfy | `PlayerMonitor` | test.go |

A Go `for k, v := range m` visits the keys in an order the language leaves
open. Each loop over a map is therefore a `while` loop that picks any key
not yet visited. The loop returns the order it took as a ghost
out-parameter. Its `ensures` clause says that this order visits every key
exactly once (`IsRangeOrder`) and gives the result as a function of that
order. Lemmas then state what holds for every order.

The registry replaces whole records (bluetoothscanner.go:54); it does not
merge fields.

Each Go type assertion on a variant (`v.Value().(string)`,
`body[1].(map[string]dbus.Variant)`) panics on a value of another type. It
becomes a `requires` that the value has the asserted type. The source's
`if len(body) < 3` gates and its two-value assertions in test.go are
handled as branches.

## Model

| member | source | states |
|---|---|---|
| Bus.RangeOrderLength | bluetoothscanner.go:43 | a range over a map visits as many keys as the map has |
| Bus.RangeOrderStep | bluetoothscanner.go:43 | visiting one more unvisited key extends a valid visit order |
| Bus.RangeOrderVisit | bluetoothcontroller.go:55 | one iteration moves the picked key from the keys still to visit into the visit order |
| Bus.SomeRangeOrder | test.go:69 | every key set has a visit order; it stands for the iterations a `return` skips |
| Bus.RangeOrderConcat | test.go:76-79 | the visited part followed by the skipped part is a visit order of the whole map |
| Text.ReplaceAll | common.go:154 | the same length; every `from` becomes `to` and every other character stays; no `from` is left when `from != to` |
| Text.ToUpper | src/bluetooth_manager.go:54 | the same length, each character upper-cased, no lower-case letter left |
| Text.ToLower | bluetoothcontroller.go:70 | the same length, each character lower-cased, no upper-case letter left |
| Text.Title | src/bluetooth_manager.go:58 | the same length; the first character and every character after a separator (any ASCII character but a letter, digit or '_', or a Unicode space) are upper-cased; the others are unchanged |
| Text.TitleKeepsLowerForm | src/bluetooth_manager.go:58 | title-casing changes only letter case |
| Text.UpperCommutesWithReplace | src/bluetooth_manager.go:54 | upper-casing and replacing ':' by '_' commute |
| FilePath.Split | bluetoothcontroller.go:65 | at least one element, and no element holds '/' |
| FilePath.JoinWith | bluetoothcontroller.go:65 | a join whose first part is non-empty starts with that part's first character |
| FilePath.CleanElements | bluetoothcontroller.go:65 | the cleaned elements are non-empty and hold no '/' |
| FilePath.Clean | bluetoothcontroller.go:25 | the cleaned path is never empty, and it is rooted exactly when the input is |
| FilePath.SplitAtSlash | bluetoothcontroller.go:65 | splitting at a '/' splits both sides |
| FilePath.SplitWithoutSlash | bluetoothcontroller.go:65 | a text without '/' splits into itself |
| FilePath.SplitJoinWith | bluetoothcontroller.go:65 | splitting a '/'-join of slash-free parts gives back the parts |
| FilePath.JoinWithSplit | bluetoothcontroller.go:65 | joining the split of a path with '/' gives back the path |
| FilePath.CleanKeepsNormal | bluetoothcontroller.go:65 | cleaning keeps elements that are neither empty, "." nor ".." |
| FilePath.JoinWithAppend | bluetoothcontroller.go:65 | joining a concatenation joins the two halves with '/' |
| FilePath.Join | bluetoothcontroller.go:65 | "" when every element is empty; otherwise the cleaned '/'-join of the elements from the first non-empty one on |
| FilePath.JoinWithCons | bluetoothcontroller.go:65 | joining puts '/' after the head |
| MacScan.NormalizedWindow | common.go:154 | a matching window, with '_' turned into ':', is a colon-form MAC and keeps its hex digits |
| MacScan.FirstMatch | common.go:151 | the first match at or after `from`; none before it; None only when nothing matches |
| MacScan.Extract | common.go:148-155 | "Unknown" exactly when nothing matches; otherwise the leftmost match in colon form |
| MacScan.ExtractAtLeftmost | common.go:151-154 | the result is the leftmost match with '_' turned into ':' |
| MacScan.ColonFormMatches | common.go:149 | a colon-form MAC matches at its own start and is its own normal form |
| MacScan.ExtractIdempotent | common.go:148-155 | scanning a scan result gives it back |
| MacScan.UnderscoreOnlyRejectsOwnOutput | bluetoothmanager.go:68-75 | the '_'-only scan never matches its own ':'-separated output |
| MacScan.ExtractIgnoresSeparatorChoice | common.go:149 | texts that differ only in ':' versus '_' give the same address |
| MacScan.ExtractSameForBothForms | common.go:149-154 | replacing ':' by '_', or '_' by ':', does not change the address found |
| MacScan.PatternsAgreeWithoutColons | bluetoothmanager.go:69 | on text without ':' the two patterns find the same address |
| MacScan.UnderscoreOnlyNeedsUnderscore | bluetoothmanager.go:69-73 | text without '_' is "Unknown" to the '_'-only scan |
| Common.ParseDevice | common.go:30-71 | valid iff "Address" is present; AdapterPath is the path; MacAddress is the address; Name is the "Name" value, else the MAC |
| Common.ParseDeviceKeepsAbsentFields | common.go:34-68 | an absent key leaves its field as the receiver had it |
| Common.ParseDeviceWritesPresentFields | common.go:40-68 | a present key overwrites its field with the map's value |
| Common.ParseDeviceIgnoresUnknownKeys | common.go:30-71 | keys the parser does not read change nothing |
| Common.UnknownKeyKeepsWellTyped | common.go:30-71 | adding a key the parser does not read causes no type panic |
| Common.ParseDeviceIdempotent | common.go:30-71 | parsing the same map again into the parsed record changes nothing |
| Common.ExtractMACAddress | common.go:148-155 | "Unknown" exactly when nothing matches; otherwise the leftmost match in colon form |
| Common.ExtractMACAddressIdempotent | common.go:148-155 | extraction is idempotent |
| Common.ExtractMACAddressEitherSeparator | common.go:149-154 | either separator gives the same address |
| Common.ParseEvent | common.go:126-131 | Category is the name, Value is the variant, Device is the address scanned from the path, which is "Unknown" or in colon form |
| Common.ConnectStart | common.go:73-80 | Connect returns nil at once iff the device is connected or not paired |
| Common.ConnectSkipsDeviceWithoutPaired | common.go:58-60 | a device parsed without "Paired" is never dialled |
| Common.ConnectOutcome | common.go:73-99 | nil exactly when the guards return early; past them a failed dial is wrapped as "failed to establish connection: ...", and a successful one ends in "connection timeout" |
| Common.Connect | common.go:73-99 | the guards, the dial and the tick loop over the receiver's `Connected` field give exactly `ConnectOutcome`, for any number of ticks before the timeout |
| Common.ConnectNeverSucceedsAfterDial | common.go:82-99 | once Connect dials, it never returns nil: a successful dial times out |
| Common.PolledConnectOutcome | common.go:86-99 | the intended wait: nil exactly when the guards return early or the dial succeeds and some tick reads the device connected; the timeout exactly when no tick does |
| Common.ConnectPolling | common.go:86-99 | the tick loop over bus readings gives exactly `PolledConnectOutcome` |
| Common.ConnectTimesOutThoughBusConnects | common.go:86-99 | a paired device whose dial succeeds and which the bus reports connected at the first tick: as written it times out, the polling version succeeds |
| Common.PollingAgreesWithoutConnection | common.go:86-99 | when the bus never reports the device connected, the two versions return the same |
| ObjectPaths.PrefixHasNoMatch | common.go:151 | no address matches inside the device prefix |
| ObjectPaths.ExtractAfterDevicePrefix | common.go:148-155 | the scan of prefix + window + anything gives back the window in colon form |
| ObjectPaths.PathEncodingIsWindow | bluetoothmanager.go:78-79 | the '_' form of a colon-form MAC is a window of both scans, and decodes back to the MAC |
| ObjectPaths.UpperPathEncodingIsWindow | src/bluetooth_manager.go:54-55 | the upper-cased '_' form is a window, and decodes to the upper-cased MAC |
| ObjectPaths.UpperEncoding | src/bluetooth_manager.go:54 | each ':' becomes '_' and every other character is upper-cased, at the same position |
| ObjectPaths.UpperEncodingIgnoresCase | src/bluetooth_manager.go:54 | MACs equal up to letter case encode alike |
| ObjectPaths.UpperEncodingOfUpperMac | src/bluetooth_manager.go:54 | an upper-case MAC encodes as plain replacement |
| ObjectPaths.UpperEncodingRoundTrip | test.go:31-32 | the scan recovers the upper-cased MAC from a path holding its encoding |
| Scanner.Listened | bluetoothscanner.go:51-53 | at most one record, exactly when "Address" is present, carrying the path and the address |
| Scanner.Registered | bluetoothscanner.go:43-56 | no more Listener records than entries |
| Scanner.InsertAll | bluetoothscanner.go:54 | storing only adds keys, the MACs of the stored records; a MAC no record names keeps its old record |
| Scanner.LastWithMac | bluetoothscanner.go:54 | a record of the sequence that carries the MAC, with no later record carrying it |
| Scanner.InsertAllStoresLast | bluetoothscanner.go:54 | after the stores, a MAC maps to the last record with it, or keeps its prior record |
| Scanner.InsertAllForgetsPrior | bluetoothscanner.go:54 | a MAC that is stored again does not depend on its prior record |
| Scanner.InsertAllKeyedByMac | bluetoothscanner.go:54 | storing keeps every record under its own MAC |
| Scanner.RegisteredStep | bluetoothscanner.go:51-55 | one more entry adds just its own Listener record |
| Scanner.Stored | bluetoothscanner.go:54 | storing at most one record under its MAC |
| Scanner.VisitStep | bluetoothscanner.go:51-55 | one loop step extends both the Listener log and the registry by that entry |
| Scanner.InsertAllStored | bluetoothscanner.go:54 | storing in two steps equals storing at once |
| Scanner.DeviceEntries | bluetoothscanner.go:43-50 | only visited objects' Device1 maps are parsed |
| Scanner.InterfaceEntries | bluetoothscanner.go:93-98 | the interface maps parse without a type panic when the payload is well typed |
| Scanner.InterfaceEntriesStep | bluetoothscanner.go:93-98 | visiting one more interface adds just its map, parsed against the signal's path |
| Scanner.InterfaceEntriesAt | bluetoothscanner.go:92-98 | one entry per visited interface; the k-th is the k-th visited interface's map, with the signal's path |
| Scanner.RegisteredCount | bluetoothscanner.go:51-55 | the Listener is called once per entry with an address |
| Scanner.RegisteredCoversAddresses | bluetoothscanner.go:51-55 | every entry with an address yields a record under that address |
| Scanner.RegisteredFromEntries | bluetoothscanner.go:51-55 | every Listener record is the parse of an entry with an address, and carries that entry's address and path |
| Scanner.DeviceEntriesHasVisited | bluetoothscanner.go:43-50 | a visited object with Device1 contributes its entry |
| Scanner.SnapshotRegistersEveryAddress | bluetoothscanner.go:43-56 | after a snapshot, every Device1 map with an address is registered, for every visit order |
| Scanner.SnapshotRegistersOnlyDevices | bluetoothscanner.go:43-56 | a snapshot registers only Device1 maps with an address, under that address and path |
| Scanner.AddedRegistersEveryInterface | bluetoothscanner.go:92-99 | InterfacesAdded registers every interface with an address, not only Device1 |
| Scanner.BluetoothScanner.constructor | bluetoothscanner.go:23-27 | an empty registry |
| Scanner.BluetoothScanner.GetDevices | bluetoothscanner.go:30-32 | returns the registry, each record under its MAC |
| Scanner.BluetoothScanner.Register | bluetoothscanner.go:51-55 | the Listener gets the valid parse, which then replaces the MAC's record |
| Scanner.BluetoothScanner.GetManagedDevices | bluetoothscanner.go:34-59 | a failed call returns its error and changes nothing; otherwise the Device1 maps are registered in visit order |
| Scanner.BluetoothScanner.RegisterInterfaces | bluetoothscanner.go:93-99 | every interface map, not only Device1, is parsed against the path; the valid records go to the Listener and replace their MACs' records |
| Scanner.BluetoothScanner.HandleSignal | bluetoothscanner.go:88-100 | only InterfacesAdded changes state; it registers every interface map against the signal path |
| PropertiesChanged.Calls | bluetoothcontroller.go:54-60 | one call per visited key, with the scanned MAC, the key and its value |
| PropertiesChanged.CallsStep | bluetoothcontroller.go:55-59 | visiting one more key appends exactly its call |
| PropertiesChanged.CallsOncePerProperty | bluetoothcontroller.go:54-60 | over a full range: one call per changed property, with its value, and no other call |
| Controller.SplitFirst | bluetoothcontroller.go:65 | splitting after a slash-free first element |
| Controller.SplitRooted | bluetoothcontroller.go:65 | a rooted three-element path splits into "" and its elements |
| Controller.JoinRooted | bluetoothcontroller.go:25 | joining "/" with three normal elements gives the rooted path |
| Controller.AdapterPathIsRoot | bluetoothcontroller.go:25 | the joined adapter path is "/org/bluez/hci0" |
| Controller.SplitAdapterRoot | bluetoothcontroller.go:65 | the adapter root splits into "", "org", "bluez", "hci0" |
| Controller.SplitJoinedUnder | bluetoothcontroller.go:65 | splitting a join of a root and two slash-free parts |
| Controller.CleanRooted | bluetoothcontroller.go:65 | a rooted path of normal elements is already clean |
| Controller.SplitPlayerJoin | bluetoothcontroller.go:65 | the player elements joined under a rooted path split into that path's elements, the device element and "player0" |
| Controller.PlayerJoinIsRooted | bluetoothcontroller.go:65 | the joined player path starts with '/' |
| Controller.JoinUnderAdapter | bluetoothcontroller.go:65 | joining under the adapter root is the plain '/'-join |
| Controller.JoinPlayerTail | bluetoothcontroller.go:65 | the tail of the player path joined |
| Controller.PlayerJoinIsPlain | bluetoothcontroller.go:65 | the joined elements read as device prefix + encoding + "/player0" |
| Controller.EncodingKeepsSlashFree | bluetoothcontroller.go:64 | replacing ':' by '_' adds no '/' |
| Controller.PlayerPath | bluetoothcontroller.go:64-65 | the player path is never empty and is rooted exactly when the adapter path is |
| Controller.PlayerPathIsPlain | bluetoothcontroller.go:64-65 | for a MAC without '/', the joined path is "/org/bluez/hci0/dev_" + '_' form + "/player0" |
| Controller.PlayerPathRoundTrip | bluetoothcontroller.go:64-65 | the scan recovers a colon-form MAC from its player path |
| Controller.BluetoothController.constructor | bluetoothcontroller.go:25-28 | the adapter path is "/org/bluez/hci0" |
| Controller.BluetoothController.OnPropertiesChanged | bluetoothcontroller.go:49-61 | a short body makes no call; otherwise exactly one Listener call per changed property, with its value and the MAC scanned from the path, in visit order |
| Controller.BluetoothController.ControlMedia | bluetoothcontroller.go:63-73 | the joined player path, the member `org.bluez.MediaPlayer1.<action>`, the printed path line with its newline, and the wrapped error on failure |
| Manager.Shown | bluetoothmanager.go:37-41 | all lines while debugging, none otherwise |
| Manager.EventLines | bluetoothmanager.go:63 | one debug line per Listener call, in the same order |
| Manager.ExtractMACAddress | bluetoothmanager.go:68-75 | "Unknown" exactly when no '_'-separated address occurs; otherwise the leftmost one in colon form |
| Manager.ColonAddressIsUnknown | bluetoothmanager.go:69 | text without '_' is "Unknown" |
| Manager.ExtractNotIdempotent | bluetoothmanager.go:68-75 | scanning the scan's own output always gives "Unknown" |
| Manager.AgreesWithCommonWithoutColons | bluetoothmanager.go:68-75 | on text without ':' it agrees with common.go's scan |
| Manager.PlayerPath | bluetoothmanager.go:78-79 | the device prefix, then the MAC with each ':' as '_' and its letter case kept, then "/player0"; no ':' anywhere |
| Manager.PlayerPathRoundTrip | bluetoothmanager.go:78-79 | the scan recovers a colon-form MAC from its formatted player path |
| Manager.SamePathAsJoinedVariant | bluetoothmanager.go:78-79 | the formatted path equals the joined one of bluetoothcontroller.go |
| Manager.BluetoothController.constructor | bluetoothmanager.go:18-27 | debugging is off and nothing is printed |
| Manager.BluetoothController.EnableDebugging | bluetoothmanager.go:33-35 | debugging is on, output unchanged |
| Manager.BluetoothController.PrintDebug | bluetoothmanager.go:37-41 | the line is printed exactly when debugging |
| Manager.BluetoothController.OnPropertiesChanged | bluetoothmanager.go:54-66 | the signal is logged; a short body stops there; otherwise the calls and their debug lines in visit order |
| Manager.BluetoothController.ControlMedia | bluetoothmanager.go:77-86 | the formatted path, a debug line naming action and path, the member, and the wrapped error on failure |
| SrcManager.PropertyLines | src/bluetooth_manager.go:47-49 | one line per visited property, with its value |
| SrcManager.PropertyLinesOncePerProperty | src/bluetooth_manager.go:47-49 | over a full range, every changed property is printed once with its value, and no name twice |
| SrcManager.PlayerPath | src/bluetooth_manager.go:54-55 | the device prefix, then the MAC with each ':' as '_' and every letter upper-cased, then "/player0"; the MAC part holds no ':' and no lower-case letter |
| SrcManager.Member | src/bluetooth_manager.go:58 | "org.bluez.MediaPlayer1." followed by exactly the title-cased action: its first character upper-cased, and otherwise differing from the action only in letter case |
| SrcManager.PlayerPathIgnoresCase | src/bluetooth_manager.go:54-55 | MACs equal up to case reach the same player |
| SrcManager.PlayerPathRoundTrip | src/bluetooth_manager.go:54-55 | common.go's scan recovers the upper-cased MAC from the player path |
| SrcManager.SamePathForUpperMac | src/bluetooth_manager.go:54-55 | for an upper-case MAC the path equals the one bluetoothmanager.go formats |
| SrcManager.PlayCallsPlay | src/bluetooth_manager.go:58 | "play" calls `org.bluez.MediaPlayer1.Play` |
| SrcManager.MemberKeepsAction | src/bluetooth_manager.go:58 | the member differs from the action only in letter case |
| SrcManager.BluetoothController.constructor | src/bluetooth_manager.go:16-26 | the device name and MAC are stored |
| SrcManager.BluetoothController.OnPropertiesChanged | src/bluetooth_manager.go:41-51 | a short body prints nothing; otherwise the interface line, then exactly one line per changed property with its value, in visit order |
| SrcManager.BluetoothController.ControlMedia | src/bluetooth_manager.go:53-64 | the upper-cased path, the title-cased member, a stderr line on failure, else the success line |
| PlayerMonitor.WatchedPath | test.go:31-32 | the device prefix followed by the MAC with each ':' as '_' and every letter upper-cased, so no ':' and no lower-case letter |
| PlayerMonitor.WatchedPathHoldsPlayer | test.go:31-32 | the watched path is the parent of src/bluetooth_manager.go's player path |
| PlayerMonitor.WatchedPathRoundTrip | test.go:31-32 | common.go's scan recovers the upper-cased MAC from the watched path |
| PlayerMonitor.TrackField | test.go:80-81 | the field's string, or "" when missing or not a string |
| PlayerMonitor.Accepted | test.go:54-66 | the handler goes on exactly when the body has three elements, the first the string "org.bluez.MediaPlayer1", the second a property map |
| PlayerMonitor.Visit | test.go:69-83 | one property adds at most one report and keeps the earlier ones; a report is added exactly for Volume, Status or a map-valued Track; only a Track that is not a map stops the handler, and a stopped handler stays as it is |
| PlayerMonitor.Handle | test.go:69-84 | at most one report per visited property |
| PlayerMonitor.HandleAfterStop | test.go:76-79 | after the abort, later properties change nothing |
| PlayerMonitor.BadTrackStops | test.go:75-79 | a non-map Track ends the handler with the reports made before it |
| PlayerMonitor.ReportsComeFromTheirProperty | test.go:68-84 | each report carries the timestamp, the device, and exactly its property's value or title and artist |
| PlayerMonitor.KnownPropertiesReported | test.go:69-84 | when no visited Track is a bad one, every visited Volume, Status and Track change is reported |
| PlayerMonitor.NeverStops | test.go:75-79 | when no visited Track is a bad one, the handler runs to the end of the visited keys |
| PlayerMonitor.HandlePropertiesChanged | test.go:53-85 | nothing unless the body has the MediaPlayer1 shape; otherwise the reports of the changed properties in visit order, up to a bad Track |

## Findings

| source | as written | input that shows it | evidently intended | confidence | as-written member | corrected member |
|---|---|---|---|---|---|---|
| common.go:86-99 | after a successful dial the loop polls the receiver's own `Connected` field, which the guard at common.go:74 found false and which nothing writes (`deviceListener` calls `Connect` on its own copy, bluetoothconnector.go:11,17) | a paired, disconnected device whose dial succeeds and which BlueZ reports connected at the first tick (`Common.ConnectTimesOutThoughBusConnects`; `Common.ConnectNeverSucceedsAfterDial` for every input) | poll the device's `Connected` property on the bus at each tick, and return nil once it is true | not executed; high | Common.Connect | Common.ConnectPolling |

## Left out

- The bus itself is not modelled: connecting, `AddMatch`, `Signal` channels, goroutines, `StartScanner`, `HandleSignals`, `ListenForPropertyChanges`. Every handler takes the received signal or reply as a parameter instead.
- Remote call results (`GetManagedObjects`, `MediaPlayer1` calls) are parameters of the handlers (`ManagedObjectsReply`, `CallOutcome`), since the bus answers them.
- `ConnectToDevice` is a remote call to `org.bluez.Device1.Connect`; its result is the parameter `dial` of `Common.Connect`. The 500 ms `time.Tick` and the 10 s `time.After` of the wait are the parameter `ticks`, the number of ticks that fire before the timeout. The "Connected successfully." line is not modelled; as written it is never reached.
- `Event.Json` and the string form of an event's value are not modelled: `ParseEvent` keeps the variant itself where the source stores `prop.String()`, godbus's D-Bus text form of the variant, which is library behaviour outside this model.
- The global `Debug` flag and `PrintDebug` of common.go are not modelled; the bluetoothmanager.go variant models the per-instance switch.
- The Listener callback is a sequence of recorded calls, without its `reflect.Type` argument, which is the value's own type.
- Scanner.BluetoothScanner.GetDevices: Go returns the live `Devices` map, so a caller that keeps it sees later stores by `HandleSignal` and races with them; the model returns the registry's value at the time of the call, so this aliasing and the race are not captured.
- Scanner.BluetoothScanner.GetManagedDevices, Scanner.BluetoothScanner.RegisterInterfaces and Scanner.BluetoothScanner.HandleSignal: the Listener call comes before the store in the source (bluetoothscanner.go:53-54 and 96-97); the model keeps the Listener log and the registry as two separate fields, so how a Listener that reads the registry would interleave with the stores is not modelled.
- `time.Now().Format(...)` in test.go is the parameter `now`; the device name is the parameter `deviceName`.
- `ToUpper`, `ToLower` and `Title` change the case of ASCII letters only. Go's Unicode case mapping of other letters, and `unicode.ToTitle` in `Title`, which equals upper-casing on ASCII, are not modelled. Which characters end a word in `Title` is modelled in full, the Unicode spaces included.
- `filepath.Join` is modelled for '/' as separator.
- The `main` functions (main.go, test.go, src/bluetooth_manager.go), flags and `os.Args` are left out as I/O. src/bluetooth_manager.go does not compile as written: `os` and `flag` are not imported, yet `ControlMedia` itself writes its failure line to `os.Stderr` and `main` uses both; and `main` uses `ControlMedia`, which returns nothing, as an error. The model gives `SrcManager.BluetoothController.ControlMedia` the behaviour the code evidently intends. The package `bluetoothmanager` does not compile as shipped either: bluetoothcontroller.go and bluetoothmanager.go both declare `BluetoothController` and `NewBluetoothController`. The two files are modelled as separate modules, `Controller` and `Manager`.
- server/, examples/, listener.go, bluetoothconnector.go, the tests and the Python scripts are not part of this model; they drive the core or duplicate it over other transports.
- Go panics are not modelled as behaviour: on a variant of the wrong type, and on a signal body too short for the index a handler reads (`signal.Body[0]` and `[1]` at bluetoothscanner.go:92). Each handler `requires` the asserted types and the body length instead.

# WiFi manager of the head-unit settings app, in Dafny

This project models `WiFiManager`, the WiFi connectivity manager of the
head-unit settings application. It drives NetworkManager over D-Bus. It
finds the wireless device, requests a scan and harvests the access points
two seconds later. It connects to a network by building a connection
profile, submitting it and activating it. It disconnects by deactivating
every active connection. It resynchronises its connected flag with
NetworkManager's global `State`.

The bus is not modelled as a process. Each operation receives a
`NetworkManager.Service` value: a snapshot of the replies it would get
during that call. A failed `QDBusReply` is `None`. A property that cannot
be read is 0, as `QVariant::toUInt` gives. The manager is a class with the
source's three fields, `isConnected`, `currentNetwork` and
`availableNetworks`. It also has a count of scheduled but not yet run
harvests (the 2000 ms single-shot timer) and two logs: the notifications
it has emitted and the requests it has sent to the service (`RequestScan`,
`AddConnection`, `ActivateConnection`, `DeactivateConnection`).

Files:
- `bus.dfy`, module `NetworkManager`: the service snapshot and the request and profile vocabulary.
- `wifi.dfy`, module `WiFi`: the decision logic as functions, with the lemmas about it.
  The logic covers first-match device and access-point selection, the scan-result harvest,
  the failure ladder of connecting, profile construction, and each operation's effect on a
  `ManagerState` value.
- `manager.dfy`, module `Manager`: the `WiFiManager` class and the loops of the source.
  Each method is proved to change `Model()` exactly as the matching `WiFi` function says.

Three behaviours of the source are worth noting:
- `disconnectNetwork` sets the current network to the empty string
  (wifimanager.cpp:329). Only `updateConnectionState` writes "Not Connected"
  (wifimanager.cpp:351).
- In `scanNetworks`, a failed `GetDevices` returns without any notification
  (wifimanager.cpp:64-67), just as a missing wireless device does (wifimanager.cpp:96).
- `handleScanResults` replaces the list and emits both notifications even when the
  harvest finds nothing, for example because the interface became invalid
  (wifimanager.cpp:101-103, 111-113).

## Model

| member | source | states |
|---|---|---|
| WiFi.FirstIndex | HeadUnit/SettingsApp/wifimanager.cpp:192-205 | the index found satisfies the test, and no element before it (none at all when nothing is found) satisfies it |
| WiFi.WirelessDevice | HeadUnit/SettingsApp/wifimanager.cpp:192-205 | the chosen device is one of the listed devices and has DeviceType 2; nothing is chosen exactly when no listed device has DeviceType 2 |
| WiFi.WirelessDeviceIsFirst | HeadUnit/SettingsApp/wifimanager.cpp:123-132 | if any device is wireless, one is chosen, and it is the earliest wireless one: it sits at or before every wireless device, with no wireless device before it |
| WiFi.MatchingAccessPoint | HeadUnit/SettingsApp/wifimanager.cpp:228-244 | the chosen access point is listed and its SSID equals the requested one exactly; nothing is chosen exactly when no listed SSID equals it |
| WiFi.FirstMatchWins | HeadUnit/SettingsApp/wifimanager.cpp:240-243 | among duplicate SSIDs the first in enumeration order is the one targeted |
| WiFi.Harvest | HeadUnit/SettingsApp/wifimanager.cpp:145-163 | the harvested list is never longer than the access-point list, and no entry has an empty SSID |
| WiFi.ToNetwork | HeadUnit/SettingsApp/wifimanager.cpp:158-160 | a list entry carries the access point's SSID and strength, and is secured exactly when its flags are greater than 0 |
| WiFi.ScanTarget | HeadUnit/SettingsApp/wifimanager.cpp:54-79 | a scan targets a device only when the interface is valid and GetDevices answers, and then it is the first listed device with DeviceType 2; there is no target exactly when the interface is invalid, GetDevices fails or no listed device is wireless |
| WiFi.HarvestLength | HeadUnit/SettingsApp/wifimanager.cpp:157-162 | the harvest has one entry per access point with a non-empty SSID |
| WiFi.HarvestAppend | HeadUnit/SettingsApp/wifimanager.cpp:145-163 | harvesting a concatenation gives the two harvests concatenated: order is kept and nothing is merged |
| WiFi.HarvestAt | HeadUnit/SettingsApp/wifimanager.cpp:153-162 | every named access point appears, at its position among the named ones, with its SSID and strength, and `secured` true exactly when its flags are greater than 0 |
| WiFi.HarvestFrom | HeadUnit/SettingsApp/wifimanager.cpp:153-162 | every harvested entry is the conversion of a named access point, the one at the same position among the named ones |
| WiFi.HarvestAllNamed | HeadUnit/SettingsApp/wifimanager.cpp:157-161 | when no SSID is empty the harvest converts the access points one for one |
| WiFi.Harvested | HeadUnit/SettingsApp/wifimanager.cpp:107-170 | what parseAccessPoints returns never contains an unnamed network: it is empty for an invalid interface, a failed GetDevices, no wireless device or a failed GetAccessPoints, and otherwise it is the harvest of the first wireless device |
| WiFi.Locate | HeadUnit/SettingsApp/wifimanager.cpp:176-249 | when locating succeeds, the interface was valid, the device is the first wireless one, and the access point is the first one with that SSID on that device |
| WiFi.FailureLadder | HeadUnit/SettingsApp/wifimanager.cpp:176-249 | each of the five early failure reasons occurs if and only if its own condition holds and every earlier check passed; a found access point has the requested SSID on a wireless device |
| WiFi.BuildProfile | HeadUnit/SettingsApp/wifimanager.cpp:251-271 | the profile has id = ssid, type 802-11-wireless, autoconnect true, wireless ssid = the SSID's bytes and mode infrastructure; its security group is present, with key-mgmt wpa-psk and psk = password, exactly when the password is non-empty; each group holds exactly those keys and no others |
| WiFi.ProfileSecurityRoundTrip | HeadUnit/SettingsApp/wifimanager.cpp:265-271 | an open network's profile has no security group, and a secured one gives back the password as its pre-shared key |
| WiFi.Scan | HeadUnit/SettingsApp/wifimanager.cpp:50-97 | an invalid interface emits only "NetworkManager not available" and schedules nothing; with no wireless device (or a failed GetDevices) nothing is emitted, requested or scheduled; otherwise exactly one RequestScan goes to the first wireless device and exactly one harvest is scheduled; the three fields never change |
| WiFi.CompleteScan | HeadUnit/SettingsApp/wifimanager.cpp:99-105 | the list becomes the fresh harvest, whatever it was before; availableNetworksChanged then scanCompleted are emitted; one scheduled harvest is used up |
| WiFi.Connect | HeadUnit/SettingsApp/wifimanager.cpp:172-308 | the manager becomes connected to the SSID only when locating, AddConnection and ActivateConnection all succeed, emitting currentNetworkChanged, isConnectedChanged and connectionSuccess; otherwise exactly one connectionFailed is emitted (the locating reason, "Failed to create connection" or "Failed to activate connection") and the connected flag and name are unchanged; an early failure sends no request; once the access point is found, the requests logged are exactly AddConnection with the built profile, followed, only when AddConnection answered, by ActivateConnection carrying AddConnection's reply, the first wireless device's path and the path of the first access point with that SSID |
| WiFi.Deactivations | HeadUnit/SettingsApp/wifimanager.cpp:315-326 | one DeactivateConnection per active connection, in order, when the interface is valid and the listing answers; none otherwise |
| WiFi.Disconnect | HeadUnit/SettingsApp/wifimanager.cpp:311-332 | whatever the service answers, the manager ends disconnected with an empty name, after sending the deactivations and emitting isConnectedChanged then currentNetworkChanged |
| WiFi.Resync | HeadUnit/SettingsApp/wifimanager.cpp:339-357 | with a valid interface the manager is connected exactly when State is 70, the name is "Connected Network" or "Not Connected" to match, and both change notifications are emitted; with an invalid interface nothing changes |
| WiFi.OperationsPreserveNamed | HeadUnit/SettingsApp/wifimanager.cpp:157-162 | no operation puts an unnamed network in the list, and none rewrites already emitted notifications |
| WiFi.LastHarvestWins | HeadUnit/SettingsApp/wifimanager.cpp:88-105 | two scans schedule two harvests, and after both run the list is the later harvest alone |
| WiFi.DisconnectThenResync | HeadUnit/SettingsApp/wifimanager.cpp:328-357 | disconnecting always ends disconnected, and a later resynchronisation alone decides the connected flag again |
| Manager.FindWirelessDevice | HeadUnit/SettingsApp/wifimanager.cpp:192-205 | the device loop returns exactly the first wireless device |
| Manager.FindAccessPoint | HeadUnit/SettingsApp/wifimanager.cpp:229-244 | the access-point loop returns exactly the first access point with the requested SSID |
| Manager.WiFiManager.constructor | HeadUnit/SettingsApp/wifimanager.cpp:7-14 | starts disconnected with an empty name and no networks, then resynchronises with the service |
| Manager.WiFiManager.ScanNetworks | HeadUnit/SettingsApp/wifimanager.cpp:50-97 | the new state is the one WiFi.Scan describes |
| Manager.WiFiManager.HandleScanResults | HeadUnit/SettingsApp/wifimanager.cpp:99-105 | the new state is the one WiFi.CompleteScan describes |
| Manager.WiFiManager.ParseAccessPoints | HeadUnit/SettingsApp/wifimanager.cpp:107-170 | the nested loop returns exactly WiFi.Harvested of the snapshot |
| Manager.WiFiManager.ConnectToNetwork | HeadUnit/SettingsApp/wifimanager.cpp:172-308 | the new state is the one WiFi.Connect describes |
| Manager.WiFiManager.DisconnectNetwork | HeadUnit/SettingsApp/wifimanager.cpp:311-332 | the new state is the one WiFi.Disconnect describes; the loop logs one deactivation per active connection |
| Manager.WiFiManager.UpdateConnectionState | HeadUnit/SettingsApp/wifimanager.cpp:339-357 | the new state is the one WiFi.Resync describes |
| Manager.WiFiManager.RefreshStatus | HeadUnit/SettingsApp/wifimanager.cpp:334-337 | behaves exactly as UpdateConnectionState |
| Manager.WiFiManager.HandleConnectionStateChanged | HeadUnit/SettingsApp/wifimanager.cpp:359-362 | behaves exactly as UpdateConnectionState |

## Left out

- D-Bus transport: the construction of `QDBusInterface` objects, object paths and the `StateChanged` subscription in `initializeNetworkManager` are not modelled. A null or invalid interface is the single flag `interfaceValid`.
- The 2000 ms timer: it is a count of scheduled harvests, not time. Each harvest gets its own service snapshot, because it makes its own `GetDevices` and `GetAccessPoints` calls.
- Within one call the service is one consistent snapshot. The model does not capture the service changing between the property reads of a single operation.
- UTF-8 decoding of `Ssid` bytes and encoding of the profile's SSID: SSIDs are strings, and the profile records the SSID as `Utf8(ssid)`, standing for its bytes.
- Object paths are opaque numbers. Paths the bus hands out are never empty, so the source's `path().isEmpty()` tests mean "nothing was found".
- The replies to `RequestScan` and `DeactivateConnection` are ignored by the source and are not inputs.
- `qDebug`/`qWarning` logging and the destructor's heap management.
- Integer widths: `Strength`, `Flags`, `DeviceType` and `State` are unbounded naturals. `DeviceType`, `Flags` and `State` are only compared (with 2, with 0 and with 70). `Strength` is copied into the list entry unchanged. So a 32-bit width makes no difference to any of them.
- `HeadUnit/IVI_Compositor/dbus_manager.h` declares an application-lifecycle manager with no method bodies. It has no behaviour to model, so the lifecycle state machine is not part of this model.

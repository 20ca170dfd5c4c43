/** The decision logic of the WiFi manager, stated as functions of the
    service snapshot and of the manager's observable state. */
module WiFi {
  import opened NetworkManager

  // Reasons carried by connectionFailed, in the order the checks are made.
  const NotAvailable := "NetworkManager not available"
  const DevicesFailed := "Failed to get devices"
  const NoWiFiDevice := "No WiFi device found"
  const AccessPointsFailed := "Failed to get access points"
  const NetworkNotFound := "Network not found"
  const CreateFailed := "Failed to create connection"
  const ActivateFailed := "Failed to activate connection"

  // Labels for currentNetwork written by the state resynchronisation.
  const ConnectedLabel := "Connected Network"
  const NotConnectedLabel := "Not Connected"

  // Setting groups of a connection profile.
  const ConnectionGroup := "connection"
  const WirelessGroup := "802-11-wireless"
  const SecurityGroup := "802-11-wireless-security"

  /** One entry of the available-network list shown to the UI. */
  datatype WiFiNetwork = WiFiNetwork(ssid: string, strength: nat, secured: bool)

  /** Notifications the manager emits. */
  datatype Event =
    | AvailableNetworksChanged
    | ScanCompleted
    | ConnectionSuccess(ssid: string)
    | ConnectionFailed(reason: string)
    | IsConnectedChanged
    | CurrentNetworkChanged

  datatype Result<+T> = Ok(value: T) | Fail(reason: string)

  /** Everything about the manager that an observer can see: its three
      fields, the harvests the scan timer still owes, and the logs of emitted
      notifications and of requests sent to the service. */
  datatype ManagerState = ManagerState(
    isConnected: bool,
    currentNetwork: string,
    availableNetworks: seq<WiFiNetwork>,
    pendingHarvests: nat,
    events: seq<Event>,
    requests: seq<Request>)

  /** The state before the constructor resynchronises with the service. */
  function Initial(): ManagerState {
    ManagerState(false, "", [], 0, [], [])
  }

  // ---------------------------------------------------------------------
  // First match

  /** Index of the first element of `s` satisfying `p`. */
  function FirstIndex<T>(s: seq<T>, p: T -> bool): (r: Option<nat>)
    ensures r.Some? ==> r.value < |s| && p(s[r.value])
    ensures forall j :: 0 <= j < |s| && (r.None? || j < r.value) ==> !p(s[j])
    decreases |s|
  {
    if |s| == 0 then None
    else if p(s[0]) then Some(0)
    else match FirstIndex(s[1..], p)
      case None => None
      case Some(k) => Some(k + 1)
  }

  predicate IsWireless(d: Device) {
    d.deviceType == WirelessDeviceType
  }

  function SsidIs(ssid: string): AccessPoint -> bool {
    (ap: AccessPoint) => ap.ssid == ssid
  }

  /** The device the manager works with: the first wireless one. */
  function WirelessDevice(devices: seq<Device>): (r: Option<Device>)
    ensures r.Some? ==> r.value in devices && IsWireless(r.value)
    ensures r.None? <==> forall d :: d in devices ==> !IsWireless(d)
  {
    match FirstIndex(devices, IsWireless)
    case None => None
    case Some(k) => Some(devices[k])
  }

  /** The access point `connectToNetwork` targets: the first one whose SSID
      equals `ssid` exactly. */
  function MatchingAccessPoint(aps: seq<AccessPoint>, ssid: string): (r: Option<AccessPoint>)
    ensures r.Some? ==> r.value in aps && r.value.ssid == ssid
    ensures r.None? <==> forall ap :: ap in aps ==> ap.ssid != ssid
  {
    match FirstIndex(aps, SsidIs(ssid))
    case None => None
    case Some(k) => Some(aps[k])
  }

  /** A device that comes before the first wireless device is never wireless,
      and the first wireless device is the earliest one. */
  lemma WirelessDeviceIsFirst(devices: seq<Device>, i: nat)
    requires i < |devices| && IsWireless(devices[i])
    ensures WirelessDevice(devices).Some?
    ensures exists k :: 0 <= k <= i && devices[k] == WirelessDevice(devices).value
              && forall j :: 0 <= j < k ==> !IsWireless(devices[j])
  {
    var k := FirstIndex(devices, IsWireless).value;
    assert k <= i;
  }

  /** The first match wins: an access point with the wanted SSID that comes
      after another one with that SSID is never chosen over it. */
  lemma FirstMatchWins(aps: seq<AccessPoint>, ssid: string, i: nat)
    requires i < |aps| && aps[i].ssid == ssid
    requires forall j :: 0 <= j < i ==> aps[j].ssid != ssid
    ensures MatchingAccessPoint(aps, ssid) == Some(aps[i])
  {
    assert SsidIs(ssid)(aps[i]);
    assert forall j :: 0 <= j < i ==> !SsidIs(ssid)(aps[j]);
  }

  // ---------------------------------------------------------------------
  // Scan-result harvesting

  /** The list entry for one access point. */
  function ToNetwork(ap: AccessPoint): (n: WiFiNetwork)
    ensures n.ssid == ap.ssid && n.strength == ap.strength
    ensures n.secured <==> ap.flags > 0
  {
    WiFiNetwork(ap.ssid, ap.strength, ap.flags > 0)
  }

  /** The list parseAccessPoints builds from a device's access points:
      those with a non-empty SSID, converted, in enumeration order. */
  function Harvest(aps: seq<AccessPoint>): (r: seq<WiFiNetwork>)
    ensures |r| <= |aps|
    ensures forall k :: 0 <= k < |r| ==> r[k].ssid != ""
    decreases |aps|
  {
    if aps == [] then []
    else
      var last := aps[|aps| - 1];
      Harvest(aps[..|aps| - 1]) + (if last.ssid != "" then [ToNetwork(last)] else [])
  }

  /** How many access points have a non-empty SSID. */
  function CountNamed(aps: seq<AccessPoint>): nat
    decreases |aps|
  {
    if aps == [] then 0
    else CountNamed(aps[..|aps| - 1]) + (if aps[|aps| - 1].ssid != "" then 1 else 0)
  }

  lemma {:induction false} HarvestLength(aps: seq<AccessPoint>)
    ensures |Harvest(aps)| == CountNamed(aps)
    decreases |aps|
  {
    if aps != [] { HarvestLength(aps[..|aps| - 1]); }
  }

  /** Harvesting is compositional: the networks of a concatenation are those
      of each part, in the same order; nothing is reordered or merged. */
  lemma {:induction false} HarvestAppend(a: seq<AccessPoint>, b: seq<AccessPoint>)
    ensures Harvest(a + b) == Harvest(a) + Harvest(b)
    decreases |b|
  {
    if b == [] {
      assert a + b == a;
    } else {
      var n := |b| - 1;
      assert (a + b)[..|a + b| - 1] == a + b[..n];
      assert (a + b)[|a + b| - 1] == b[n];
      HarvestAppend(a, b[..n]);
    }
  }

  /** Every access point with a non-empty SSID appears in the harvest, at the
      position given by the number of named access points before it, with its
      SSID and strength and `secured` true exactly when its flags are not 0. */
  lemma {:induction false} HarvestAt(aps: seq<AccessPoint>, i: nat)
    requires i < |aps| && aps[i].ssid != ""
    ensures CountNamed(aps[..i]) < |Harvest(aps)|
    ensures Harvest(aps)[CountNamed(aps[..i])] == WiFiNetwork(aps[i].ssid, aps[i].strength, aps[i].flags > 0)
    decreases |aps|
  {
    var n := |aps| - 1;
    var init := aps[..n];
    HarvestLength(init);
    if i == n {
      assert aps[..i] == init;
    } else {
      assert init[..i] == aps[..i];
      HarvestAt(init, i);
    }
  }

  /** Every harvested entry comes from a named access point, the one at its
      position among the named access points. */
  lemma {:induction false} HarvestFrom(aps: seq<AccessPoint>, k: nat)
    requires k < |Harvest(aps)|
    ensures exists i :: 0 <= i < |aps| && aps[i].ssid != "" && CountNamed(aps[..i]) == k
              && Harvest(aps)[k] == ToNetwork(aps[i])
    decreases |aps|
  {
    var n := |aps| - 1;
    var init := aps[..n];
    var tail := if aps[n].ssid != "" then [ToNetwork(aps[n])] else [];
    assert Harvest(aps) == Harvest(init) + tail;
    HarvestLength(init);
    if k < |Harvest(init)| {
      HarvestFrom(init, k);
      var i :| 0 <= i < |init| && init[i].ssid != "" && CountNamed(init[..i]) == k
                && Harvest(init)[k] == ToNetwork(init[i]);
      assert init[..i] == aps[..i];
      assert Harvest(aps)[k] == Harvest(init)[k];
      assert aps[i] == init[i];
    } else {
      assert tail != [] && Harvest(aps)[k] == tail[0];
      assert aps[..n] == init;
      assert CountNamed(aps[..n]) == k;
    }
  }

  /** When no SSID is empty, the harvest is the whole list, entry by entry. */
  lemma {:induction false} HarvestAllNamed(aps: seq<AccessPoint>)
    requires forall i :: 0 <= i < |aps| ==> aps[i].ssid != ""
    ensures |Harvest(aps)| == |aps|
    ensures forall i :: 0 <= i < |aps| ==> Harvest(aps)[i] == ToNetwork(aps[i])
    decreases |aps|
  {
    if aps != [] {
      HarvestAllNamed(aps[..|aps| - 1]);
    }
  }

  // ---------------------------------------------------------------------
  // The service queries behind scanning and connecting

  /** The wireless device a scan targets, if GetDevices answers and lists one. */
  function ScanTarget(bus: Service): (r: Option<Device>)
    ensures r.Some? ==> (bus.interfaceValid && bus.devices.Some?
      && r.value in bus.devices.value && IsWireless(r.value)
      && r == WirelessDevice(bus.devices.value))
    ensures r.None? <==> (!bus.interfaceValid || bus.devices.None?
      || forall d :: d in bus.devices.value ==> !IsWireless(d))
  {
    if !bus.interfaceValid || bus.devices.None? then None
    else WirelessDevice(bus.devices.value)
  }

  /** What parseAccessPoints returns for this snapshot. */
  function Harvested(bus: Service): (r: seq<WiFiNetwork>)
    ensures forall k :: 0 <= k < |r| ==> r[k].ssid != ""
  {
    match ScanTarget(bus)
    case None => []
    case Some(d) => if d.accessPoints.None? then [] else Harvest(d.accessPoints.value)
  }

  datatype Target = Target(device: Device, accessPoint: AccessPoint)

  /** The first half of connectToNetwork: finding the wireless device and the
      access point, or the reason that stops it. */
  function Locate(bus: Service, ssid: string): (r: Result<Target>)
    ensures r.Ok? ==> (bus.interfaceValid && bus.devices.Some?
      && WirelessDevice(bus.devices.value) == Some(r.value.device)
      && r.value.device.accessPoints.Some?
      && MatchingAccessPoint(r.value.device.accessPoints.value, ssid) == Some(r.value.accessPoint))
  {
    if !bus.interfaceValid then Fail(NotAvailable)
    else if bus.devices.None? then Fail(DevicesFailed)
    else match WirelessDevice(bus.devices.value)
      case None => Fail(NoWiFiDevice)
      case Some(d) =>
        if d.accessPoints.None? then Fail(AccessPointsFailed)
        else match MatchingAccessPoint(d.accessPoints.value, ssid)
          case None => Fail(NetworkNotFound)
          case Some(ap) => Ok(Target(d, ap))
  }

  /** Each failure of connectToNetwork happens exactly under its own
      condition, and only once every earlier check has passed. */
  lemma FailureLadder(bus: Service, ssid: string)
    ensures Locate(bus, ssid) == Fail(NotAvailable) <==> !bus.interfaceValid
    ensures Locate(bus, ssid) == Fail(DevicesFailed) <==> bus.interfaceValid && bus.devices.None?
    ensures Locate(bus, ssid) == Fail(NoWiFiDevice) <==>
      bus.interfaceValid && bus.devices.Some? && forall d :: d in bus.devices.value ==> !IsWireless(d)
    ensures Locate(bus, ssid) == Fail(AccessPointsFailed) <==>
      bus.interfaceValid && bus.devices.Some? && (exists d :: d in bus.devices.value && IsWireless(d))
      && WirelessDevice(bus.devices.value).value.accessPoints.None?
    ensures Locate(bus, ssid) == Fail(NetworkNotFound) <==>
      bus.interfaceValid && bus.devices.Some? && (exists d :: d in bus.devices.value && IsWireless(d))
      && WirelessDevice(bus.devices.value).value.accessPoints.Some?
      && forall ap :: ap in WirelessDevice(bus.devices.value).value.accessPoints.value ==> ap.ssid != ssid
    ensures Locate(bus, ssid).Ok? ==>
      Locate(bus, ssid).value.accessPoint.ssid == ssid && IsWireless(Locate(bus, ssid).value.device)
    ensures Locate(bus, ssid).Fail? ==>
      Locate(bus, ssid).reason in {NotAvailable, DevicesFailed, NoWiFiDevice, AccessPointsFailed, NetworkNotFound}
  {
    if bus.interfaceValid && bus.devices.Some? {
      var w := WirelessDevice(bus.devices.value);
      if w.Some? {
        assert w.value in bus.devices.value;
      }
    }
  }

  // ---------------------------------------------------------------------
  // The connection profile

  /** The value under `key` in group `group` of a profile, if any. */
  function Lookup(profile: Settings, group: string, key: string): Option<Setting> {
    if group in profile && key in profile[group] then Some(profile[group][key]) else None
  }

  /** The settings connectToNetwork submits to AddConnection. */
  function BuildProfile(ssid: string, password: string): (p: Settings)
    ensures p.Keys == {ConnectionGroup, WirelessGroup} + (if password == "" then {} else {SecurityGroup})
    ensures p[ConnectionGroup].Keys == {"id", "type", "autoconnect"}
    ensures p[WirelessGroup].Keys == {"ssid", "mode"}
    ensures password != "" ==> p[SecurityGroup].Keys == {"key-mgmt", "psk"}
    ensures Lookup(p, ConnectionGroup, "id") == Some(Text(ssid))
    ensures Lookup(p, ConnectionGroup, "type") == Some(Text("802-11-wireless"))
    ensures Lookup(p, ConnectionGroup, "autoconnect") == Some(Flag(true))
    ensures Lookup(p, WirelessGroup, "ssid") == Some(Utf8(ssid))
    ensures Lookup(p, WirelessGroup, "mode") == Some(Text("infrastructure"))
    ensures Lookup(p, SecurityGroup, "key-mgmt") == (if password == "" then None else Some(Text("wpa-psk")))
    ensures Lookup(p, SecurityGroup, "psk") == (if password == "" then None else Some(Text(password)))
  {
    var connection := map["id" := Text(ssid), "type" := Text("802-11-wireless"), "autoconnect" := Flag(true)];
    var wireless := map["ssid" := Utf8(ssid), "mode" := Text("infrastructure")];
    var base := map[ConnectionGroup := connection, WirelessGroup := wireless];
    if password == "" then base
    else base[SecurityGroup := map["key-mgmt" := Text("wpa-psk"), "psk" := Text(password)]]
  }

  /** An open network (empty password) gets no security group at all, and a
      secured one gets the password back as its pre-shared key. */
  lemma ProfileSecurityRoundTrip(ssid: string, password: string)
    ensures SecurityGroup in BuildProfile(ssid, password) <==> password != ""
    ensures password != "" ==> BuildProfile(ssid, password)[SecurityGroup]["psk"] == Text(password)
  {
    var p := BuildProfile(ssid, password);
    if password != "" {
      assert Lookup(p, SecurityGroup, "psk") == Some(Text(password));
    } else {
      assert SecurityGroup != ConnectionGroup && SecurityGroup != WirelessGroup;
    }
  }

  // ---------------------------------------------------------------------
  // Operations on the observable state

  /** scanNetworks. */
  function Scan(m: ManagerState, bus: Service): (r: ManagerState)
    ensures r.isConnected == m.isConnected && r.currentNetwork == m.currentNetwork
    ensures r.availableNetworks == m.availableNetworks
    ensures !bus.interfaceValid ==>
      r.events == m.events + [ConnectionFailed(NotAvailable)] && r.requests == m.requests
      && r.pendingHarvests == m.pendingHarvests
    ensures bus.interfaceValid ==> r.events == m.events
    ensures ScanTarget(bus).None? ==> r.requests == m.requests && r.pendingHarvests == m.pendingHarvests
    ensures ScanTarget(bus).Some? ==>
      r.requests == m.requests + [RequestScan(ScanTarget(bus).value.path)]
      && r.pendingHarvests == m.pendingHarvests + 1
  {
    if !bus.interfaceValid then m.(events := m.events + [ConnectionFailed(NotAvailable)])
    else match ScanTarget(bus)
      case None => m
      case Some(d) => m.(requests := m.requests + [RequestScan(d.path)], pendingHarvests := m.pendingHarvests + 1)
  }

  /** handleScanResults, run when a scheduled harvest comes due. */
  function CompleteScan(m: ManagerState, bus: Service): (r: ManagerState)
    requires m.pendingHarvests > 0
    ensures r.availableNetworks == Harvested(bus)
    ensures r.pendingHarvests == m.pendingHarvests - 1
    ensures r.events == m.events + [AvailableNetworksChanged, ScanCompleted]
    ensures r.isConnected == m.isConnected && r.currentNetwork == m.currentNetwork
    ensures r.requests == m.requests
  {
    m.(availableNetworks := Harvested(bus), pendingHarvests := m.pendingHarvests - 1,
       events := m.events + [AvailableNetworksChanged, ScanCompleted])
  }

  /** Whether connectToNetwork ends connected: the access point is found and
      both AddConnection and ActivateConnection answer. */
  predicate Joins(bus: Service, ssid: string) {
    Locate(bus, ssid).Ok? && bus.addConnectionReply.Some? && bus.activateConnectionReply.Some?
  }

  /** connectToNetwork. */
  function Connect(m: ManagerState, bus: Service, ssid: string, password: string): (r: ManagerState)
    ensures Joins(bus, ssid) ==> (r.isConnected && r.currentNetwork == ssid
      && r.events == m.events + [CurrentNetworkChanged, IsConnectedChanged, ConnectionSuccess(ssid)])
    ensures !Joins(bus, ssid) ==> (r.isConnected == m.isConnected && r.currentNetwork == m.currentNetwork
      && exists reason :: r.events == m.events + [ConnectionFailed(reason)])
    ensures r.availableNetworks == m.availableNetworks && r.pendingHarvests == m.pendingHarvests
    ensures Locate(bus, ssid).Fail? ==> (r.requests == m.requests
      && r.events == m.events + [ConnectionFailed(Locate(bus, ssid).reason)])
    ensures Locate(bus, ssid).Ok? ==> (|r.requests| > |m.requests|
      && r.requests[..|m.requests| + 1] == m.requests + [AddConnection(BuildProfile(ssid, password))])
    ensures Locate(bus, ssid).Ok? && bus.addConnectionReply.None? ==>
      r.events == m.events + [ConnectionFailed(CreateFailed)]
    ensures Locate(bus, ssid).Ok? && bus.addConnectionReply.Some? && bus.activateConnectionReply.None? ==>
      r.events == m.events + [ConnectionFailed(ActivateFailed)]
    ensures Locate(bus, ssid).Ok? && bus.addConnectionReply.None? ==>
      r.requests == m.requests + [AddConnection(BuildProfile(ssid, password))]
    ensures Locate(bus, ssid).Ok? && bus.addConnectionReply.Some? ==>
      r.requests == m.requests + [AddConnection(BuildProfile(ssid, password)),
        ActivateConnection(bus.addConnectionReply.value, Locate(bus, ssid).value.device.path,
                           Locate(bus, ssid).value.accessPoint.path)]
    ensures (bus.addConnectionReply.None? || Locate(bus, ssid).Fail?) ==>
      forall q :: q in r.requests[|m.requests|..] ==> !q.ActivateConnection?
  {
    match Locate(bus, ssid)
    case Fail(reason) => m.(events := m.events + [ConnectionFailed(reason)])
    case Ok(t) =>
      var added := m.requests + [AddConnection(BuildProfile(ssid, password))];
      match bus.addConnectionReply
      case None => m.(requests := added, events := m.events + [ConnectionFailed(CreateFailed)])
      case Some(conn) =>
        var activated := added + [ActivateConnection(conn, t.device.path, t.accessPoint.path)];
        match bus.activateConnectionReply
        case None => m.(requests := activated, events := m.events + [ConnectionFailed(ActivateFailed)])
        case Some(_) =>
          m.(isConnected := true, currentNetwork := ssid, requests := activated,
             events := m.events + [CurrentNetworkChanged, IsConnectedChanged, ConnectionSuccess(ssid)])
  }

  /** The DeactivateConnection requests disconnectNetwork sends: one per
      active connection, in order, if the service answers the listing. */
  function Deactivations(bus: Service): (r: seq<Request>)
    ensures bus.interfaceValid && bus.activeConnections.Some? ==>
      |r| == |bus.activeConnections.value|
      && forall i :: 0 <= i < |r| ==> r[i] == DeactivateConnection(bus.activeConnections.value[i])
    ensures !bus.interfaceValid || bus.activeConnections.None? ==> r == []
  {
    if bus.interfaceValid && bus.activeConnections.Some? then
      var conns := bus.activeConnections.value;
      seq(|conns|, i requires 0 <= i < |conns| => DeactivateConnection(conns[i]))
    else []
  }

  /** disconnectNetwork. */
  function Disconnect(m: ManagerState, bus: Service): (r: ManagerState)
    ensures !r.isConnected && r.currentNetwork == ""
    ensures r.events == m.events + [IsConnectedChanged, CurrentNetworkChanged]
    ensures r.requests == m.requests + Deactivations(bus)
    ensures r.availableNetworks == m.availableNetworks && r.pendingHarvests == m.pendingHarvests
  {
    m.(isConnected := false, currentNetwork := "", requests := m.requests + Deactivations(bus),
       events := m.events + [IsConnectedChanged, CurrentNetworkChanged])
  }

  /** updateConnectionState (and refreshStatus, handleConnectionStateChanged). */
  function Resync(m: ManagerState, bus: Service): (r: ManagerState)
    ensures bus.interfaceValid ==> (r.isConnected <==> bus.state == ConnectedGlobal)
    ensures bus.interfaceValid ==>
      r.currentNetwork == (if bus.state == ConnectedGlobal then ConnectedLabel else NotConnectedLabel)
    ensures bus.interfaceValid ==> r.events == m.events + [IsConnectedChanged, CurrentNetworkChanged]
    ensures !bus.interfaceValid ==> r == m
    ensures r.availableNetworks == m.availableNetworks && r.pendingHarvests == m.pendingHarvests
    ensures r.requests == m.requests
  {
    if !bus.interfaceValid then m
    else
      var connected := bus.state == ConnectedGlobal;
      m.(isConnected := connected,
         currentNetwork := if connected then ConnectedLabel else NotConnectedLabel,
         events := m.events + [IsConnectedChanged, CurrentNetworkChanged])
  }

  // ---------------------------------------------------------------------
  // Properties across operations

  /** Every listed network has a name. */
  ghost predicate NetworksNamed(m: ManagerState) {
    forall k :: 0 <= k < |m.availableNetworks| ==> m.availableNetworks[k].ssid != ""
  }

  /** Every operation keeps the available-network list free of unnamed
      entries, and never rewrites what has already been logged. */
  lemma OperationsPreserveNamed(m: ManagerState, bus: Service, ssid: string, password: string)
    requires NetworksNamed(m)
    ensures NetworksNamed(Scan(m, bus)) && m.events <= Scan(m, bus).events
    ensures m.pendingHarvests > 0 ==> NetworksNamed(CompleteScan(m, bus)) && m.events <= CompleteScan(m, bus).events
    ensures NetworksNamed(Connect(m, bus, ssid, password)) && m.events <= Connect(m, bus, ssid, password).events
    ensures NetworksNamed(Disconnect(m, bus)) && m.events <= Disconnect(m, bus).events
    ensures NetworksNamed(Resync(m, bus)) && m.events <= Resync(m, bus).events
  {
  }

  /** The harvest replaces the list wholesale: what was listed before makes
      no difference, so when two scans are pending the last harvest wins. */
  lemma LastHarvestWins(m: ManagerState, bus1: Service, bus2: Service, busScan: Service)
    requires ScanTarget(busScan).Some?
    ensures var twice := Scan(Scan(m, busScan), busScan);
      twice.pendingHarvests == m.pendingHarvests + 2
      && CompleteScan(CompleteScan(twice, bus1), bus2).availableNetworks == Harvested(bus2)
      && CompleteScan(CompleteScan(twice, bus1), bus2).pendingHarvests == m.pendingHarvests
  {
  }

  /** Disconnecting always ends disconnected, whatever the service answers,
      and a following resynchronisation alone decides the state again. */
  lemma DisconnectThenResync(m: ManagerState, bus1: Service, bus2: Service)
    requires bus2.interfaceValid
    ensures !Disconnect(m, bus1).isConnected
    ensures Resync(Disconnect(m, bus1), bus2).isConnected <==> bus2.state == ConnectedGlobal
  {
  }
}

/** The WiFiManager object: its fields, and one method per operation, each
    proved to change the observable state exactly as the matching function
    of module WiFi says. */
module Manager {
  import opened NetworkManager
  import opened WiFi

  /** The loop over GetDevices that stops at the first device whose
      DeviceType is 2. */
  method FindWirelessDevice(devices: seq<Device>) returns (device: Option<Device>)
    ensures device == WirelessDevice(devices)
  {
    var i := 0;
    while i < |devices|
      invariant 0 <= i <= |devices|
      invariant forall j :: 0 <= j < i ==> !IsWireless(devices[j])
    {
      if devices[i].deviceType == WirelessDeviceType {
        return Some(devices[i]);
      }
      i := i + 1;
    }
    return None;
  }

  /** The loop over GetAccessPoints that stops at the first access point
      whose SSID equals `ssid`. */
  method FindAccessPoint(aps: seq<AccessPoint>, ssid: string) returns (target: Option<AccessPoint>)
    ensures target == MatchingAccessPoint(aps, ssid)
  {
    var i := 0;
    while i < |aps|
      invariant 0 <= i <= |aps|
      invariant forall j :: 0 <= j < i ==> !SsidIs(ssid)(aps[j])
    {
      if aps[i].ssid == ssid {
        assert SsidIs(ssid)(aps[i]);
        return Some(aps[i]);
      }
      i := i + 1;
    }
    return None;
  }

  class WiFiManager {
    var isConnected: bool
    var currentNetwork: string
    var availableNetworks: seq<WiFiNetwork>
    /** Harvests scheduled by scanNetworks' timer that have not run yet. */
    var pendingHarvests: nat
    /** Notifications emitted so far, oldest first. */
    var events: seq<Event>
    /** Requests sent to the service so far, oldest first. */
    var requests: seq<Request>

    function Model(): ManagerState
      reads this
    {
      ManagerState(isConnected, currentNetwork, availableNetworks, pendingHarvests, events, requests)
    }

    /** Starts disconnected with an empty name, then refreshes the status. */
    constructor (bus: Service)
      ensures Model() == Resync(Initial(), bus)
    {
      isConnected := false;
      currentNetwork := "";
      availableNetworks := [];
      pendingHarvests := 0;
      events := [];
      requests := [];
      new;
      RefreshStatus(bus);
    }

    method ScanNetworks(bus: Service)
      modifies this
      ensures Model() == Scan(old(Model()), bus)
    {
      if !bus.interfaceValid {
        events := events + [ConnectionFailed(NotAvailable)];
        return;
      }
      if bus.devices.None? {
        return;
      }
      var device := FindWirelessDevice(bus.devices.value);
      if device.Some? {
        requests := requests + [RequestScan(device.value.path)];
        pendingHarvests := pendingHarvests + 1;
      }
    }

    /** Runs when one of the harvests scheduled by ScanNetworks comes due. */
    method HandleScanResults(bus: Service)
      requires pendingHarvests > 0
      modifies this
      ensures Model() == CompleteScan(old(Model()), bus)
    {
      pendingHarvests := pendingHarvests - 1;
      var networks := ParseAccessPoints(bus);
      availableNetworks := networks;
      events := events + [AvailableNetworksChanged, ScanCompleted];
    }

    method ParseAccessPoints(bus: Service) returns (networks: seq<WiFiNetwork>)
      ensures networks == Harvested(bus)
    {
      networks := [];
      if !bus.interfaceValid || bus.devices.None? {
        return;
      }
      var device := FindWirelessDevice(bus.devices.value);
      if device.None? || device.value.accessPoints.None? {
        return;
      }
      var aps := device.value.accessPoints.value;
      var i := 0;
      while i < |aps|
        invariant 0 <= i <= |aps|
        invariant networks == Harvest(aps[..i])
      {
        var ap := aps[i];
        assert aps[..i + 1][..i] == aps[..i];
        if ap.ssid != "" {
          networks := networks + [WiFiNetwork(ap.ssid, ap.strength, ap.flags > 0)];
        }
        i := i + 1;
      }
      assert aps[..|aps|] == aps;
    }

    method ConnectToNetwork(bus: Service, ssid: string, password: string)
      modifies this
      ensures Model() == Connect(old(Model()), bus, ssid, password)
    {
      if !bus.interfaceValid {
        events := events + [ConnectionFailed(NotAvailable)];
        return;
      }
      if bus.devices.None? {
        events := events + [ConnectionFailed(DevicesFailed)];
        return;
      }
      var device := FindWirelessDevice(bus.devices.value);
      if device.None? {
        events := events + [ConnectionFailed(NoWiFiDevice)];
        return;
      }
      var wifiDevice := device.value;
      if wifiDevice.accessPoints.None? {
        events := events + [ConnectionFailed(AccessPointsFailed)];
        return;
      }
      var target := FindAccessPoint(wifiDevice.accessPoints.value, ssid);
      if target.None? {
        events := events + [ConnectionFailed(NetworkNotFound)];
        return;
      }
      var settings := BuildProfile(ssid, password);
      requests := requests + [AddConnection(settings)];
      if bus.addConnectionReply.None? {
        events := events + [ConnectionFailed(CreateFailed)];
        return;
      }
      requests := requests + [ActivateConnection(bus.addConnectionReply.value, wifiDevice.path, target.value.path)];
      if bus.activateConnectionReply.Some? {
        currentNetwork := ssid;
        isConnected := true;
        events := events + [CurrentNetworkChanged, IsConnectedChanged, ConnectionSuccess(ssid)];
      } else {
        events := events + [ConnectionFailed(ActivateFailed)];
      }
    }

    method DisconnectNetwork(bus: Service)
      modifies this
      ensures Model() == Disconnect(old(Model()), bus)
    {
      if bus.interfaceValid && bus.activeConnections.Some? {
        var connections := bus.activeConnections.value;
        var i := 0;
        while i < |connections|
          invariant 0 <= i <= |connections|
          invariant requests == old(requests) + Deactivations(bus)[..i]
          invariant isConnected == old(isConnected) && currentNetwork == old(currentNetwork)
          invariant availableNetworks == old(availableNetworks) && pendingHarvests == old(pendingHarvests)
          invariant events == old(events)
        {
          requests := requests + [DeactivateConnection(connections[i])];
          i := i + 1;
        }
      }
      isConnected := false;
      currentNetwork := "";
      events := events + [IsConnectedChanged, CurrentNetworkChanged];
    }

    method UpdateConnectionState(bus: Service)
      modifies this
      ensures Model() == Resync(old(Model()), bus)
    {
      if bus.interfaceValid {
        isConnected := bus.state == ConnectedGlobal;
        if isConnected {
          currentNetwork := ConnectedLabel;
        } else {
          currentNetwork := NotConnectedLabel;
        }
        events := events + [IsConnectedChanged, CurrentNetworkChanged];
      }
    }

    method RefreshStatus(bus: Service)
      modifies this
      ensures Model() == Resync(old(Model()), bus)
    {
      UpdateConnectionState(bus);
    }

    /** Slot for the service's StateChanged signal; its payload is unused. */
    method HandleConnectionStateChanged(bus: Service)
      modifies this
      ensures Model() == Resync(old(Model()), bus)
    {
      UpdateConnectionState(bus);
    }
  }
}

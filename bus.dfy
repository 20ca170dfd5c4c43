/** The NetworkManager D-Bus service, as the WiFi manager sees it.

    The service is not modelled as a process: every operation of the manager
    is given a snapshot of the replies it would get from the bus during that
    call. A reply that QDBusReply would report as invalid is `None`. Property
    reads go through QVariant::toUInt, which yields 0 for a property that
    could not be read, so those are plain numbers here. */
module NetworkManager {

  datatype Option<+T> = None | Some(value: T)

  /** A D-Bus object path. Paths handed out by the bus are never empty, so
      they are opaque identifiers here. */
  type ObjectPath = nat

  /** `DeviceType` of a wireless device (NM_DEVICE_TYPE_WIFI). */
  const WirelessDeviceType: nat := 2

  /** Value of the global `State` property meaning NM_STATE_CONNECTED_GLOBAL. */
  const ConnectedGlobal: nat := 70

  /** An access point object: its path and the properties the manager reads.
      `ssid` is the already decoded `Ssid` byte array. */
  datatype AccessPoint = AccessPoint(path: ObjectPath, ssid: string, strength: nat, flags: nat)

  /** A device object: its path, its `DeviceType` property and the reply of
      `GetAccessPoints` on its wireless interface. */
  datatype Device = Device(path: ObjectPath, deviceType: nat, accessPoints: Option<seq<AccessPoint>>)

  /** Everything one manager operation can learn from the service. */
  datatype Service = Service(
    interfaceValid: bool,                         // the NetworkManager interface exists and is valid
    devices: Option<seq<Device>>,                 // reply of GetDevices
    state: nat,                                   // the global State property
    activeConnections: Option<seq<ObjectPath>>,   // reply of the ActiveConnections call
    addConnectionReply: Option<ObjectPath>,       // reply of Settings.AddConnection
    activateConnectionReply: Option<ObjectPath>)  // reply of ActivateConnection

  /** A value in a connection profile (the `v` of `a{sa{sv}}`). `Utf8` stands
      for the UTF-8 bytes of its string. */
  datatype Setting = Text(text: string) | Flag(flag: bool) | Utf8(raw: string)

  /** A connection profile: setting groups, each a map from keys to values. */
  type Settings = map<string, map<string, Setting>>

  /** Requests the manager sends to the service whose effect is outside it. */
  datatype Request =
    | RequestScan(device: ObjectPath)
    | AddConnection(settings: Settings)
    | ActivateConnection(connection: ObjectPath, device: ObjectPath, accessPoint: ObjectPath)
    | DeactivateConnection(active: ObjectPath)
}

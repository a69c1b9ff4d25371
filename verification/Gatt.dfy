/** Locators, endpoints and the byte formats of the Jacquard BLE service. */
module Gatt {
  import opened Identity

  datatype TransportKind = BleGatt | BleL2cap | OtherTransport(code: nat)

  datatype EndpointLocator = ScopedBytes(scope: string, bytes: seq<Byte>) | OtherLocator(code: nat)

  datatype LinkEndpoint = LinkEndpoint(transportKind: TransportKind, locator: EndpointLocator, mtuBytes: nat)

  type Uuid = s: seq<Byte> | |s| == 16 witness seq(16, _ => 0)

  type Prefix = s: seq<Byte> | |s| == 6 witness seq(6, _ => 0)

  const P2C_CHAR_UUID: Uuid :=
    [0x6a, 0x61, 0x71, 0x03, 0x8e, 0x45, 0x4c, 0x2c, 0xb3, 0xa5, 0x33, 0x1f, 0x30, 0x98, 0xb5, 0xc2]

  function BleLocator(deviceId: DeviceId): EndpointLocator {
    ScopedBytes("ble", deviceId.address)
  }

  function GattEndpoint(deviceId: DeviceId): LinkEndpoint {
    LinkEndpoint(BleGatt, BleLocator(deviceId), 512)
  }

  function L2capEndpoint(deviceId: DeviceId): LinkEndpoint {
    LinkEndpoint(BleL2cap, BleLocator(deviceId), 1472)
  }

  function NotifyFanoutEndpoint(): LinkEndpoint {
    LinkEndpoint(BleGatt, ScopedBytes("ble-notify", P2C_CHAR_UUID), 512)
  }

  /** Recovers the device address behind a "ble"-scoped locator. */
  function DeviceIdFromEndpoint(endpoint: LinkEndpoint): Option<DeviceId> {
    match endpoint.locator
    case ScopedBytes(scope, bytes) =>
      if scope == "ble" && IsUtf8(bytes) then Some(DeviceId(bytes)) else None
    case OtherLocator(_) => None
  }

  /** Unicast endpoints name their device, so dispatch finds it again; the fanout endpoint names none. */
  lemma EndpointsNameTheirDevice(deviceId: DeviceId, endpoint: LinkEndpoint)
    ensures DeviceIdFromEndpoint(GattEndpoint(deviceId)) == Some(deviceId)
    ensures DeviceIdFromEndpoint(L2capEndpoint(deviceId)) == Some(deviceId)
    ensures DeviceIdFromEndpoint(NotifyFanoutEndpoint()) == None
    ensures GattEndpoint(deviceId) != NotifyFanoutEndpoint() && L2capEndpoint(deviceId) != NotifyFanoutEndpoint()
    ensures DeviceIdFromEndpoint(endpoint) == Some(deviceId) <==> endpoint.locator == BleLocator(deviceId)
  {
    assert |"ble"| == 3 && |"ble-notify"| == 10;
  }

  function NodeIdPrefix(nodeId: NodeId): Prefix { nodeId.bytes[..6] }

  predicate HintMatchesNodeId(hint: Prefix, nodeId: NodeId) { hint == NodeIdPrefix(nodeId) }

  const HINT_NAMESPACE: seq<Byte> := [0x6a, 0x61, 0x72, 0]

  function DiscoveryServiceUuid(nodeId: NodeId): Uuid {
    HINT_NAMESPACE + NodeIdPrefix(nodeId) + [0, 0, 0, 0, 0, 0]
  }

  /** The prefix carried by the first advertised service in the hint namespace. */
  function ParseDiscoveryHint(services: seq<Uuid>): Option<Prefix> {
    if |services| == 0 then None
    else if services[0][..4] == HINT_NAMESPACE then Some(services[0][4..10])
    else ParseDiscoveryHint(services[1..])
  }

  /** What a node advertises is read back, wherever it stands among foreign services. */
  lemma {:induction false} DiscoveryHintRoundTrip(before: seq<Uuid>, nodeId: NodeId, after: seq<Uuid>)
    requires forall i :: 0 <= i < |before| ==> before[i][..4] != HINT_NAMESPACE
    ensures ParseDiscoveryHint(before + [DiscoveryServiceUuid(nodeId)] + after) == Some(NodeIdPrefix(nodeId))
  {
    var all := before + [DiscoveryServiceUuid(nodeId)] + after;
    if before == [] {
      var uuid := DiscoveryServiceUuid(nodeId);
      assert all[0] == uuid;
      assert uuid[..4] == HINT_NAMESPACE;
      assert uuid[4..10] == NodeIdPrefix(nodeId);
    } else {
      assert all[1..] == before[1..] + [DiscoveryServiceUuid(nodeId)] + after;
      DiscoveryHintRoundTrip(before[1..], nodeId, after);
    }
  }

  /** Identity read over GATT: anything but 32 bytes is a malformed peer. */
  function ParseNodeId(read: Option<seq<Byte>>): Option<NodeId> {
    match read
    case Some(bytes) => if |bytes| == 32 then Some(NodeId(bytes)) else None
    case None => None
  }

  /** Little-endian protocol/service multiplexer value; zero and short reads mean no L2CAP. */
  function ParsePsm(bytes: seq<Byte>): Option<nat> {
    if |bytes| < 2 then None
    else
      var psm := bytes[0] as nat + 256 * bytes[1] as nat;
      if psm == 0 then None else Some(psm)
  }

  function PsmBytes(psm: nat): seq<Byte>
    requires psm < 0x1_0000
  {
    [(psm % 256) as Byte, (psm / 256) as Byte]
  }

  lemma PsmRoundTrip(psm: nat)
    requires 0 < psm < 0x1_0000
    ensures ParsePsm(PsmBytes(psm)) == Some(psm)
  {
    assert psm == psm % 256 + 256 * (psm / 256);
  }

  /** A PSM is read exactly from its two bytes, low byte first, whatever follows; zero and short reads give none. */
  lemma PsmReadExactly(bytes: seq<Byte>, psm: nat)
    requires 0 < psm < 0x1_0000
    ensures ParsePsm(bytes) == Some(psm) <==> PsmBytes(psm) <= bytes
    ensures ParsePsm(bytes) == None <==> |bytes| < 2 || (bytes[0] == 0 && bytes[1] == 0)
  {
    assert psm == psm % 256 + 256 * (psm / 256);
  }

  /** The hint is that of the first service in the namespace, and there is none without such a service. */
  lemma {:induction false} HintReadExactly(services: seq<Uuid>)
    ensures ParseDiscoveryHint(services) == None <==>
              forall i :: 0 <= i < |services| ==> services[i][..4] != HINT_NAMESPACE
  {
    if |services| > 0 { HintReadExactly(services[1..]); }
  }

  /** An identity is any 32 bytes and nothing else. */
  lemma NodeIdReadExactly(read: Option<seq<Byte>>, nodeId: NodeId)
    ensures ParseNodeId(read) == Some(nodeId) <==> read == Some(nodeId.bytes)
    ensures ParseNodeId(read) == None <==> read == None || |read.value| != 32
  {
  }

  /** Every endpoint is told apart by its transport and what it may carry. */
  lemma EndpointShapes(deviceId: DeviceId)
    ensures GattEndpoint(deviceId).transportKind == NotifyFanoutEndpoint().transportKind == BleGatt
    ensures L2capEndpoint(deviceId).transportKind == BleL2cap
    ensures GattEndpoint(deviceId).locator == L2capEndpoint(deviceId).locator
    ensures GattEndpoint(deviceId).mtuBytes == NotifyFanoutEndpoint().mtuBytes == 512
    ensures L2capEndpoint(deviceId).mtuBytes == 1472
  {
  }
}

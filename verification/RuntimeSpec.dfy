/** The runtime owner as a step machine: one step is one handler of the BLE task. */
module RuntimeSpec {
  import opened Identity
  import opened Gatt
  import opened Sessions

  const U64_MAX: nat := 0xFFFF_FFFF_FFFF_FFFF

  datatype LinkState = Active | Faulted

  /** What the directory knows of a device: an advertised prefix, or a proven identity. */
  datatype PeerIdentity = Hint(prefix: Prefix) | Resolved(nodeId: NodeId)

  datatype Channel = Channel(nodeId: NodeId, deviceId: DeviceId)

  /** History, oldest first: what was learnt about devices and what was emitted. */
  datatype TraceEntry =
    | Advertised(deviceId: DeviceId, prefix: Prefix)
    | Identified(deviceId: DeviceId, nodeId: NodeId, fromHint: bool)
    | Link(nodeId: NodeId, endpoint: LinkEndpoint, state: LinkState)
    | Payload(nodeId: NodeId, endpoint: LinkEndpoint, payload: seq<Byte>)

  datatype Runtime = Runtime(
    peers: map<DeviceId, PeerIdentity>,
    sessions: map<NodeId, PeerSessions>,
    channels: map<nat, Channel>,
    nextChannelId: nat,
    trace: seq<TraceEntry>)

  const Initial := Runtime(map[], map[], map[], 1, [])

  /** Outcome of the L2CAP upgrade attempt: the PSM read, the channel, the identity write. */
  datatype Upgrade = Upgrade(psmRead: Option<seq<Byte>>, channelOpened: bool, identityWritten: bool) {
    predicate Succeeds() {
      psmRead.Some? && ParsePsm(psmRead.value).Some? && channelOpened && identityWritten
    }
  }

  datatype SendAttempt =
    | GattWrite(deviceId: DeviceId)
    | ChannelWrite(channelId: nat, accepted: bool)
    | NoChannel(channelId: nat)
  {
    predicate HandedOver() { GattWrite? || (ChannelWrite? && accepted) }
  }

  datatype Step =
    | DeviceDiscovered(deviceId: DeviceId, services: seq<Uuid>)
    | DeviceConnected(deviceId: DeviceId, identityRead: Option<seq<Byte>>, upgrade: Upgrade)
    | DeviceRestored(deviceId: DeviceId, services: seq<Uuid>, identityRead: Option<seq<Byte>>, upgrade: Upgrade)
    | DeviceDisconnected(deviceId: DeviceId)
    | P2cSubscribed(deviceId: DeviceId)
    | P2cUnsubscribed(deviceId: DeviceId)
    | C2pWritten(deviceId: DeviceId, value: seq<Byte>)
    | P2cNotified(deviceId: DeviceId, value: seq<Byte>)
    | L2capAccepted(deviceId: DeviceId, claimed: Option<NodeId>)
    | FrameReceived(channelId: nat, payload: seq<Byte>)
    | ChannelClosed(channelId: nat)
    | UnicastDispatched(endpoint: LinkEndpoint, broken: set<nat>)

  // ----- Helpers of the task -----

  function ResolvedNode(s: Runtime, deviceId: DeviceId): Option<NodeId> {
    if deviceId in s.peers && s.peers[deviceId].Resolved? then Some(s.peers[deviceId].nodeId) else None
  }

  predicate Resolves(s: Runtime, deviceId: DeviceId, nodeId: NodeId) {
    deviceId in s.peers && s.peers[deviceId] == Resolved(nodeId)
  }

  function Record(s: Runtime, entry: TraceEntry): Runtime {
    s.(trace := s.trace + [entry])
  }

  function EmitLink(s: Runtime, nodeId: NodeId, endpoint: LinkEndpoint, state: LinkState): Runtime {
    Record(s, Link(nodeId, endpoint, state))
  }

  function FaultEntries(nodeId: NodeId, endpoints: seq<LinkEndpoint>): seq<TraceEntry> {
    if |endpoints| == 0 then [] else [Link(nodeId, endpoints[0], Faulted)] + FaultEntries(nodeId, endpoints[1..])
  }

  /** Faults every endpoint the node's record holds on the device; none when there is no record. */
  function EmitFaults(s: Runtime, nodeId: NodeId, deviceId: DeviceId): Runtime {
    if nodeId in s.sessions
    then s.(trace := s.trace + FaultEntries(nodeId, s.sessions[nodeId].EndpointsForDevice(deviceId)))
    else s
  }

  function DropChannelsOf(s: Runtime, nodeId: NodeId): Runtime {
    s.(channels := map c | c in s.channels && s.channels[c].nodeId != nodeId :: s.channels[c])
  }

  function InstallGattSession(s: Runtime, nodeId: NodeId, deviceId: DeviceId): Runtime {
    var session := GattCentral(deviceId);
    var record := if nodeId in s.sessions then s.sessions[nodeId].InstallGattCentral(session)
                  else GattWithFallback(session);
    s.(sessions := s.sessions[nodeId := record])
  }

  /** Takes the next id and enters the channel; the counter saturates. */
  function RegisterChannel(s: Runtime, nodeId: NodeId, deviceId: DeviceId): (Runtime, nat) {
    var id := s.nextChannelId;
    (s.(channels := s.channels[id := Channel(nodeId, deviceId)],
        nextChannelId := if id < U64_MAX then id + 1 else id), id)
  }

  function InstallL2capSession(s: Runtime, nodeId: NodeId, deviceId: DeviceId): Runtime {
    var (s1, id) := RegisterChannel(s, nodeId, deviceId);
    var session := L2cap(deviceId, id);
    var record := if nodeId in s.sessions then s.sessions[nodeId].PromoteL2cap(session)
                  else L2capPreferredSessions(session, None);
    EmitLink(s1.(sessions := s1.sessions[nodeId := record]), nodeId, L2capEndpoint(deviceId), Active)
  }

  function InstallResolvedPeer(
    s: Runtime, nodeId: NodeId, deviceId: DeviceId, upgrade: Upgrade, fromHint: bool): Runtime {
    var s1 := Record(s.(peers := s.peers[deviceId := Resolved(nodeId)]), Identified(deviceId, nodeId, fromHint));
    var s2 := EmitLink(InstallGattSession(s1, nodeId, deviceId), nodeId, GattEndpoint(deviceId), Active);
    if upgrade.Succeeds() then InstallL2capSession(s2, nodeId, deviceId) else s2
  }

  // ----- Handlers -----

  function OnDiscovered(s: Runtime, deviceId: DeviceId, services: seq<Uuid>): Runtime {
    match ParseDiscoveryHint(services)
    case None => s
    case Some(prefix) =>
      var s1 := Record(s, Advertised(deviceId, prefix));
      if ResolvedNode(s, deviceId).Some? then s1 else s1.(peers := s1.peers[deviceId := Hint(prefix)])
  }

  function OnConnected(s: Runtime, deviceId: DeviceId, identityRead: Option<seq<Byte>>, upgrade: Upgrade): Runtime {
    match ParseNodeId(identityRead)
    case None => s
    case Some(nodeId) =>
      if deviceId !in s.peers || !s.peers[deviceId].Hint? then s
      else if !HintMatchesNodeId(s.peers[deviceId].prefix, nodeId) then s.(peers := s.peers - {deviceId})
      else InstallResolvedPeer(s, nodeId, deviceId, upgrade, true)
  }

  function OnRestored(s: Runtime, deviceId: DeviceId, services: seq<Uuid>, identityRead: Option<seq<Byte>>,
                      upgrade: Upgrade): Runtime {
    if ParseDiscoveryHint(services).Some? then OnDiscovered(s, deviceId, services)
    else match ParseNodeId(identityRead)
         case None => s
         case Some(nodeId) => InstallResolvedPeer(s, nodeId, deviceId, upgrade, false)
  }

  function OnDisconnected(s: Runtime, deviceId: DeviceId): Runtime {
    var s0 := s.(peers := s.peers - {deviceId});
    var s1 := match ResolvedNode(s, deviceId)
              case Some(nodeId) => DropChannelsOf(EmitFaults(s0, nodeId, deviceId), nodeId)
              case None => s0;
    s1.(sessions := map n | n in s1.sessions && !s1.sessions[n].ReferencesDevice(deviceId) :: s1.sessions[n])
  }

  function OnSubscribed(s: Runtime, deviceId: DeviceId): Runtime {
    match ResolvedNode(s, deviceId)
    case None => s
    case Some(nodeId) =>
      var subscriber := BleNotifySubscriber(deviceId);
      var record := if nodeId in s.sessions then s.sessions[nodeId].InstallGattSubscription(subscriber)
                    else GattNotifyFanout(subscriber);
      EmitLink(s.(sessions := s.sessions[nodeId := record]), nodeId, NotifyFanoutEndpoint(), Active)
  }

  function OnUnsubscribed(s: Runtime, deviceId: DeviceId): Runtime {
    match ResolvedNode(s, deviceId)
    case None => s
    case Some(nodeId) =>
      if nodeId !in s.sessions then s
      else
        var (record, removed) := s.sessions[nodeId].RemoveGattSubscription(deviceId);
        var s1 := s.(sessions := s.sessions[nodeId := record]);
        if removed then EmitLink(s1, nodeId, NotifyFanoutEndpoint(), Faulted) else s1
  }

  /** A payload written by, or notified from, an unproven device goes nowhere. */
  function OnGattPayload(s: Runtime, deviceId: DeviceId, value: seq<Byte>): Runtime {
    match ResolvedNode(s, deviceId)
    case None => s
    case Some(nodeId) => Record(s, Payload(nodeId, GattEndpoint(deviceId), value))
  }

  function OnAccepted(s: Runtime, deviceId: DeviceId, claimed: Option<NodeId>): Runtime {
    if claimed == None || ResolvedNode(s, deviceId) != claimed then s
    else InstallL2capSession(s, claimed.value, deviceId)
  }

  function OnFrame(s: Runtime, channelId: nat, payload: seq<Byte>): Runtime {
    if channelId !in s.channels then s
    else
      var channel := s.channels[channelId];
      Record(s, Payload(channel.nodeId, L2capEndpoint(channel.deviceId), payload))
  }

  function OnChannelClosed(s: Runtime, channelId: nat): Runtime {
    if channelId !in s.channels then s
    else
      var nodeId := s.channels[channelId].nodeId;
      var s1 := s.(channels := s.channels - {channelId});
      if nodeId !in s.sessions then s1
      else
        var (record, effective) := s.sessions[nodeId].DowngradeL2cap(channelId);
        var s2 := s1.(sessions := s.sessions[nodeId := record]);
        if effective.Some? then EmitLink(s2, nodeId, effective.value.Endpoint(), Active) else s2
  }

  // ----- Unicast dispatch -----

  ghost function EgressNodes(s: Runtime, deviceId: DeviceId): set<NodeId> {
    set n | n in s.sessions && s.sessions[n].EgressForDevice(deviceId).Some?
  }

  /** The first record, in node order, whose preferred egress is on the device. */
  ghost function EgressSession(s: Runtime, deviceId: DeviceId): Option<BleSession> {
    var nodes := EgressNodes(s, deviceId);
    if nodes == {} then None else s.sessions[First(nodes)].EgressForDevice(deviceId)
  }

  /** Whether a write on the channel is refused: it is gone, or its writer has stopped. */
  predicate WriteFails(s: Runtime, channelId: nat, broken: set<nat>) {
    channelId !in s.channels || channelId in broken
  }

  function ChannelAttempt(s: Runtime, channelId: nat, broken: set<nat>): SendAttempt {
    if channelId in s.channels then ChannelWrite(channelId, channelId !in broken) else NoChannel(channelId)
  }

  /** 1 unless the path in use is the channel that was closed last; then the next round is the last. */
  ghost function RoundsLeft(s: Runtime, deviceId: DeviceId, closed: Option<nat>): nat {
    match EgressSession(s, deviceId)
    case Some(L2cap(_, channelId)) => if closed == Some(channelId) then 0 else 1
    case _ => 0
  }

  ghost function Unicast(
    s: Runtime, deviceId: DeviceId, broken: set<nat>, closed: Option<nat>): (Runtime, seq<SendAttempt>)
    decreases |s.channels|, RoundsLeft(s, deviceId, closed)
  {
    match EgressSession(s, deviceId)
    case None => (s, [])
    case Some(GattCentral(egress)) => (s, [GattWrite(egress)])
    case Some(L2cap(_, channelId)) =>
      var attempt := ChannelAttempt(s, channelId, broken);
      if !WriteFails(s, channelId, broken) || closed == Some(channelId) then (s, [attempt])
      else
        var s1 := OnChannelClosed(s, channelId);
        ClosingShrinks(s, channelId);
        var (s2, attempts) := Unicast(s1, deviceId, broken, Some(channelId));
        (s2, [attempt] + attempts)
  }

  /** Whether this look at the path in use ends the dispatch. */
  ghost predicate LastLook(s: Runtime, broken: set<nat>, closed: Option<nat>, session: BleSession) {
    session.GattCentral? || !WriteFails(s, session.channelId, broken) || closed == Some(session.channelId)
  }

  function SessionAttempt(s: Runtime, session: BleSession, broken: set<nat>): SendAttempt {
    if session.GattCentral? then GattWrite(session.deviceId) else ChannelAttempt(s, session.channelId, broken)
  }

  lemma LastRound(s: Runtime, deviceId: DeviceId, broken: set<nat>, closed: Option<nat>, session: BleSession)
    requires EgressSession(s, deviceId) == Some(session) && LastLook(s, broken, closed, session)
    ensures Unicast(s, deviceId, broken, closed) == (s, [SessionAttempt(s, session, broken)])
  {
  }

  lemma RefusedRound(
    s: Runtime, deviceId: DeviceId, broken: set<nat>, closed: Option<nat>, session: BleSession, s1: Runtime)
    requires EgressSession(s, deviceId) == Some(session) && !LastLook(s, broken, closed, session)
    requires s1 == OnChannelClosed(s, session.channelId)
    ensures Unicast(s, deviceId, broken, closed).0 == Unicast(s1, deviceId, broken, Some(session.channelId)).0
    ensures Unicast(s, deviceId, broken, closed).1
         == [SessionAttempt(s, session, broken)] + Unicast(s1, deviceId, broken, Some(session.channelId)).1
    ensures || |s1.channels| < |s.channels|
            || (|s1.channels| == |s.channels|
                && RoundsLeft(s1, deviceId, Some(session.channelId)) < RoundsLeft(s, deviceId, closed))
  {
    ClosingShrinks(s, session.channelId);
  }

  lemma ClosingShrinks(s: Runtime, channelId: nat)
    ensures channelId in s.channels ==> |OnChannelClosed(s, channelId).channels| < |s.channels|
    ensures channelId !in s.channels ==> OnChannelClosed(s, channelId) == s
  {
    if channelId in s.channels {
      var rest := s.channels - {channelId};
      assert rest.Keys == s.channels.Keys - {channelId};
      assert |rest| == |rest.Keys| && |s.channels| == |s.channels.Keys|;
    }
  }

  ghost function OnUnicast(s: Runtime, endpoint: LinkEndpoint, broken: set<nat>): (Runtime, seq<SendAttempt>) {
    match DeviceIdFromEndpoint(endpoint)
    case None => (s, [])
    case Some(deviceId) => Unicast(s, deviceId, broken, None)
  }

  ghost function Next(s: Runtime, step: Step): Runtime {
    match step
    case DeviceDiscovered(deviceId, services) => OnDiscovered(s, deviceId, services)
    case DeviceConnected(deviceId, read, upgrade) => OnConnected(s, deviceId, read, upgrade)
    case DeviceRestored(deviceId, services, read, upgrade) => OnRestored(s, deviceId, services, read, upgrade)
    case DeviceDisconnected(deviceId) => OnDisconnected(s, deviceId)
    case P2cSubscribed(deviceId) => OnSubscribed(s, deviceId)
    case P2cUnsubscribed(deviceId) => OnUnsubscribed(s, deviceId)
    case C2pWritten(deviceId, value) => OnGattPayload(s, deviceId, value)
    case P2cNotified(deviceId, value) => OnGattPayload(s, deviceId, value)
    case L2capAccepted(deviceId, claimed) => OnAccepted(s, deviceId, claimed)
    case FrameReceived(channelId, payload) => OnFrame(s, channelId, payload)
    case ChannelClosed(channelId) => OnChannelClosed(s, channelId)
    case UnicastDispatched(endpoint, broken) => OnUnicast(s, endpoint, broken).0
  }

  ghost function Run(s: Runtime, steps: seq<Step>): Runtime
    decreases |steps|
  {
    if |steps| == 0 then s else Next(Run(s, steps[..|steps| - 1]), steps[|steps| - 1])
  }

  // ----- Stable identity: what the environment must grant -----

  /** The identity a step would prove for a device, and the upgrade that follows it. */
  function Identification(s: Runtime, step: Step): Option<(DeviceId, NodeId, Upgrade)> {
    match step
    case DeviceConnected(deviceId, read, upgrade) =>
      (match ParseNodeId(read)
       case Some(nodeId) =>
         if deviceId in s.peers && s.peers[deviceId].Hint? && HintMatchesNodeId(s.peers[deviceId].prefix, nodeId)
         then Some((deviceId, nodeId, upgrade)) else None
       case None => None)
    case DeviceRestored(deviceId, services, read, upgrade) =>
      (match ParseNodeId(read)
       case Some(nodeId) => if ParseDiscoveryHint(services) == None then Some((deviceId, nodeId, upgrade)) else None
       case None => None)
    case _ => None
  }

  /**
   * A node is proven on one device at a time and a device keeps its node until it leaves. A device
   * proven again must not still be on an L2CAP path that the new proof leaves in place.
   */
  ghost predicate StableIdentity(s: Runtime, step: Step) {
    match Identification(s, step)
    case None => true
    case Some((deviceId, nodeId, upgrade)) =>
      if Resolves(s, deviceId, nodeId)
      then nodeId in s.sessions && (s.sessions[nodeId].state.GattOnly? || upgrade.Succeeds())
      else ResolvedNode(s, deviceId) == None && forall d :: !Resolves(s, d, nodeId)
  }

  ghost predicate StableRun(steps: seq<Step>) {
    forall i :: 0 <= i < |steps| ==> StableIdentity(Run(Initial, steps[..i]), steps[i])
  }
}

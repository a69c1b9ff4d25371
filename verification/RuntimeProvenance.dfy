/**
 * Nothing is said about a node on a device before that device proved to be the node. This needs no
 * assumption on identities: it holds of every run from the initial state.
 */
module RuntimeProvenance {
  import opened Identity
  import opened Gatt
  import opened Sessions
  import opened RuntimeSpec

  ghost predicate Proven(trace: seq<TraceEntry>, deviceId: DeviceId, nodeId: NodeId) {
    Identified(deviceId, nodeId, true) in trace || Identified(deviceId, nodeId, false) in trace
  }

  /** The endpoint is a unicast endpoint of some device that proved to be the node. */
  ghost predicate UnicastProven(trace: seq<TraceEntry>, nodeId: NodeId, endpoint: LinkEndpoint) {
    exists d :: Proven(trace, d, nodeId) && (endpoint == GattEndpoint(d) || endpoint == L2capEndpoint(d))
  }

  /** What must come before an entry. */
  ghost predicate Justified(earlier: seq<TraceEntry>, entry: TraceEntry) {
    match entry
    case Advertised(_, _) => true
    case Identified(deviceId, nodeId, fromHint) =>
      fromHint ==> Advertised(deviceId, NodeIdPrefix(nodeId)) in earlier
    case Link(nodeId, endpoint, _) =>
      if endpoint == NotifyFanoutEndpoint() then exists d :: Proven(earlier, d, nodeId)
      else UnicastProven(earlier, nodeId, endpoint)
    case Payload(nodeId, endpoint, _) => UnicastProven(earlier, nodeId, endpoint)
  }

  ghost predicate AllJustified(trace: seq<TraceEntry>) {
    forall i :: 0 <= i < |trace| ==> Justified(trace[..i], trace[i])
  }

  ghost predicate RecordProven(trace: seq<TraceEntry>, nodeId: NodeId, p: PeerSessions) {
    StateProven(trace, nodeId, p.state) && SubscribersProven(trace, nodeId, p.notifySubscribers)
  }

  ghost predicate Accountable(s: Runtime) {
    && AllJustified(s.trace)
    && (forall d, n :: Resolves(s, d, n) ==> Proven(s.trace, d, n))
    && (forall d :: d in s.peers && s.peers[d].Hint? ==> Advertised(d, s.peers[d].prefix) in s.trace)
    && (forall n :: n in s.sessions ==> RecordProven(s.trace, n, s.sessions[n]))
    && (forall c :: c in s.channels ==> Proven(s.trace, s.channels[c].deviceId, s.channels[c].nodeId))
  }

  lemma JustifiedLater(earlier: seq<TraceEntry>, more: seq<TraceEntry>, entry: TraceEntry)
    requires Justified(earlier, entry)
    ensures Justified(earlier + more, entry)
  {
    assert forall d, n :: Proven(earlier, d, n) ==> Proven(earlier + more, d, n);
  }

  lemma Appended(trace: seq<TraceEntry>, entry: TraceEntry)
    requires AllJustified(trace) && Justified(trace, entry)
    ensures AllJustified(trace + [entry])
    ensures forall d, n :: Proven(trace, d, n) ==> Proven(trace + [entry], d, n)
  {
    var longer := trace + [entry];
    forall i | 0 <= i < |longer| ensures Justified(longer[..i], longer[i]) {
      if i < |trace| {
        assert longer[..i] == trace[..i];
      } else {
        assert longer[..i] == trace;
      }
    }
  }

  lemma {:induction false} AppendedFaults(trace: seq<TraceEntry>, nodeId: NodeId, endpoints: seq<LinkEndpoint>)
    requires AllJustified(trace)
    requires forall i :: 0 <= i < |endpoints| ==> Justified(trace, Link(nodeId, endpoints[i], Faulted))
    ensures AllJustified(trace + FaultEntries(nodeId, endpoints))
    decreases |endpoints|
  {
    if |endpoints| == 0 {
      assert trace + FaultEntries(nodeId, endpoints) == trace;
    } else {
      var entry := Link(nodeId, endpoints[0], Faulted);
      Appended(trace, entry);
      forall i | 0 <= i < |endpoints[1..]|
        ensures Justified(trace + [entry], Link(nodeId, endpoints[1..][i], Faulted)) {
        JustifiedLater(trace, [entry], Link(nodeId, endpoints[i + 1], Faulted));
      }
      AppendedFaults(trace + [entry], nodeId, endpoints[1..]);
      assert trace + FaultEntries(nodeId, endpoints) == (trace + [entry]) + FaultEntries(nodeId, endpoints[1..]);
    }
  }

  /** A step that keeps the maps accountable to a longer, justified trace. */
  ghost predicate Extends(s: Runtime, s': Runtime) { s.trace <= s'.trace && AllJustified(s'.trace) }

  lemma StillProven(s: Runtime, s': Runtime)
    requires Extends(s, s')
    ensures forall d, n :: Proven(s.trace, d, n) ==> Proven(s'.trace, d, n)
    ensures forall e :: e in s.trace ==> e in s'.trace
    ensures forall n, p :: RecordProven(s.trace, n, p) ==> RecordProven(s'.trace, n, p)
  {
    forall e | e in s.trace ensures e in s'.trace {
      var i :| 0 <= i < |s.trace| && s.trace[i] == e;
      assert s'.trace[i] == e;
    }
  }

  lemma SessionsByState(p: PeerSessions)
    ensures p.state.Disconnected? ==> p.Sessions() == []
    ensures p.state.GattOnly? ==> p.Sessions() == [p.state.ingress, p.state.egress]
    ensures p.state.L2capPreferred? ==>
              p.Sessions() == [p.state.session] + if p.state.fallback.Some? then [p.state.fallback.value] else []
  {
  }

  ghost predicate StateProven(trace: seq<TraceEntry>, nodeId: NodeId, state: PeerSessionState) {
    match state
    case Disconnected => true
    case GattOnly(ingress, egress) => Proven(trace, ingress.deviceId, nodeId) && Proven(trace, egress.deviceId, nodeId)
    case L2capPreferred(session, fallback) =>
      Proven(trace, session.deviceId, nodeId) && (fallback.Some? ==> Proven(trace, fallback.value.deviceId, nodeId))
  }

  /** Paths of a rewritten record come from the old record or from the session installed. */
  lemma StateOperationsProven(
    trace: seq<TraceEntry>, nodeId: NodeId, p: PeerSessions, deviceId: DeviceId, channelId: nat)
    requires StateProven(trace, nodeId, p.state)
    ensures StateProven(trace, nodeId, p.DowngradeL2cap(channelId).0.state)
    ensures p.DowngradeL2cap(channelId).1.Some? ==> Proven(trace, p.DowngradeL2cap(channelId).1.value.deviceId, nodeId)
    ensures Proven(trace, deviceId, nodeId) ==>
              && StateProven(trace, nodeId, p.InstallGattCentral(GattCentral(deviceId)).state)
              && StateProven(trace, nodeId, p.PromoteL2cap(L2cap(deviceId, channelId)).state)
  {
    SessionsByState(p);
    FirstGattIsGatt(p.Sessions());
    if p.FirstGattFallback().Some? { assert p.FirstGattFallback().value in p.Sessions(); }
  }

  ghost predicate SubscribersProven(trace: seq<TraceEntry>, nodeId: NodeId, subs: seq<BleNotifySubscriber>) {
    forall sub :: sub in subs ==> Proven(trace, sub.deviceId, nodeId)
  }

  lemma SubscriberOperationsProven(trace: seq<TraceEntry>, nodeId: NodeId, p: PeerSessions, deviceId: DeviceId)
    requires SubscribersProven(trace, nodeId, p.notifySubscribers)
    ensures SubscribersProven(trace, nodeId, p.RemoveGattSubscription(deviceId).0.notifySubscribers)
    ensures Proven(trace, deviceId, nodeId) ==>
              SubscribersProven(trace, nodeId,
              p.InstallGattSubscription(BleNotifySubscriber(deviceId)).notifySubscribers)
  {
    WithoutFilters(p.notifySubscribers, deviceId);
    ReplacedIsIdentity(p.notifySubscribers, BleNotifySubscriber(deviceId));
  }

  lemma InstallL2capAccountable(s: Runtime, nodeId: NodeId, deviceId: DeviceId)
    requires Accountable(s) && Resolves(s, deviceId, nodeId)
    ensures Accountable(InstallL2capSession(s, nodeId, deviceId))
  {
    var s' := InstallL2capSession(s, nodeId, deviceId);
    var entry := Link(nodeId, L2capEndpoint(deviceId), Active);
    EndpointsNameTheirDevice(deviceId, NotifyFanoutEndpoint());
    assert Proven(s.trace, deviceId, nodeId);
    Appended(s.trace, entry);
    StillProven(s, s');
    if nodeId in s.sessions {
      StateOperationsProven(s.trace, nodeId, s.sessions[nodeId], deviceId, s.nextChannelId);
    }
    assert RecordProven(s.trace, nodeId, s'.sessions[nodeId]);
    forall n | n in s'.sessions ensures RecordProven(s'.trace, n, s'.sessions[n]) {
      if n != nodeId { assert s'.sessions[n] == s.sessions[n]; }
    }
    forall d, n | Resolves(s', d, n) ensures Proven(s'.trace, d, n) { assert Resolves(s, d, n); }
  }

  lemma InstallResolvedAccountable(s: Runtime, nodeId: NodeId, deviceId: DeviceId, upgrade: Upgrade, fromHint: bool)
    requires Accountable(s)
    requires fromHint ==> Advertised(deviceId, NodeIdPrefix(nodeId)) in s.trace
    ensures Accountable(InstallResolvedPeer(s, nodeId, deviceId, upgrade, fromHint))
  {
    var proof := Identified(deviceId, nodeId, fromHint);
    var s1 := Record(s.(peers := s.peers[deviceId := Resolved(nodeId)]), proof);
    Appended(s.trace, proof);
    StillProven(s, s1);
    assert Proven(s1.trace, deviceId, nodeId);
    forall d, n | Resolves(s1, d, n) ensures Proven(s1.trace, d, n) {
      if d != deviceId { assert Resolves(s, d, n); }
    }
    assert Accountable(s1);
    var s2 := EmitLink(InstallGattSession(s1, nodeId, deviceId), nodeId, GattEndpoint(deviceId), Active);
    GattAccountable(s1, nodeId, deviceId);
    if upgrade.Succeeds() { InstallL2capAccountable(s2, nodeId, deviceId); }
  }

  lemma GattAccountable(s: Runtime, nodeId: NodeId, deviceId: DeviceId)
    requires Accountable(s) && Resolves(s, deviceId, nodeId)
    ensures var s' := EmitLink(InstallGattSession(s, nodeId, deviceId), nodeId, GattEndpoint(deviceId), Active);
      Accountable(s') && Resolves(s', deviceId, nodeId)
  {
    var s' := EmitLink(InstallGattSession(s, nodeId, deviceId), nodeId, GattEndpoint(deviceId), Active);
    EndpointsNameTheirDevice(deviceId, NotifyFanoutEndpoint());
    assert Proven(s.trace, deviceId, nodeId);
    Appended(s.trace, Link(nodeId, GattEndpoint(deviceId), Active));
    StillProven(s, s');
    if nodeId in s.sessions {
      StateOperationsProven(s.trace, nodeId, s.sessions[nodeId], deviceId, 0);
    }
    forall d, n | Resolves(s', d, n) ensures Proven(s'.trace, d, n) { assert Resolves(s, d, n); }
  }

  lemma SubscribedAccountable(s: Runtime, deviceId: DeviceId)
    requires Accountable(s)
    ensures Accountable(OnSubscribed(s, deviceId))
  {
    if ResolvedNode(s, deviceId).Some? {
      var nodeId := ResolvedNode(s, deviceId).value;
      assert Resolves(s, deviceId, nodeId) && Proven(s.trace, deviceId, nodeId);
      Appended(s.trace, Link(nodeId, NotifyFanoutEndpoint(), Active));
      if nodeId in s.sessions { SubscriberOperationsProven(s.trace, nodeId, s.sessions[nodeId], deviceId); }
      var s' := OnSubscribed(s, deviceId);
      StillProven(s, s');
      forall d, n | Resolves(s', d, n) ensures Proven(s'.trace, d, n) { assert Resolves(s, d, n); }
      assert RecordProven(s.trace, nodeId, s'.sessions[nodeId]);
    }
  }

  lemma UnsubscribedAccountable(s: Runtime, deviceId: DeviceId)
    requires Accountable(s)
    ensures Accountable(OnUnsubscribed(s, deviceId))
  {
    if ResolvedNode(s, deviceId).Some? && ResolvedNode(s, deviceId).value in s.sessions {
      var nodeId := ResolvedNode(s, deviceId).value;
      assert Resolves(s, deviceId, nodeId) && Proven(s.trace, deviceId, nodeId);
      Appended(s.trace, Link(nodeId, NotifyFanoutEndpoint(), Faulted));
      SubscriberOperationsProven(s.trace, nodeId, s.sessions[nodeId], deviceId);
      var s' := OnUnsubscribed(s, deviceId);
      StillProven(s, s');
      forall d, n | Resolves(s', d, n) ensures Proven(s'.trace, d, n) { assert Resolves(s, d, n); }
      assert RecordProven(s.trace, nodeId, s'.sessions[nodeId]);
    }
  }

  lemma ChannelClosedAccountable(s: Runtime, channelId: nat)
    requires Accountable(s)
    ensures Accountable(OnChannelClosed(s, channelId))
  {
    var s' := OnChannelClosed(s, channelId);
    if channelId in s.channels && s.channels[channelId].nodeId in s.sessions {
      var nodeId := s.channels[channelId].nodeId;
      var p := s.sessions[nodeId];
      StateOperationsProven(s.trace, nodeId, p, s.channels[channelId].deviceId, channelId);
      var effective := p.DowngradeL2cap(channelId).1;
      if effective.Some? {
        EndpointsNameTheirDevice(effective.value.deviceId, NotifyFanoutEndpoint());
        Appended(s.trace, Link(nodeId, effective.value.Endpoint(), Active));
      }
      StillProven(s, s');
    }
    forall d, n | Resolves(s', d, n) ensures Proven(s'.trace, d, n) { assert Resolves(s, d, n); }
  }

  lemma {:induction false} UnicastAccountable(s: Runtime, deviceId: DeviceId, broken: set<nat>, closed: Option<nat>)
    requires Accountable(s)
    ensures Accountable(Unicast(s, deviceId, broken, closed).0)
    decreases |s.channels|, RoundsLeft(s, deviceId, closed)
  {
    match EgressSession(s, deviceId)
    case Some(L2cap(_, channelId)) =>
      if WriteFails(s, channelId, broken) && closed != Some(channelId) {
        ClosingShrinks(s, channelId);
        ChannelClosedAccountable(s, channelId);
        UnicastAccountable(OnChannelClosed(s, channelId), deviceId, broken, Some(channelId));
      }
    case _ =>
  }

  lemma DisconnectAccountable(s: Runtime, deviceId: DeviceId)
    requires Accountable(s)
    ensures Accountable(OnDisconnected(s, deviceId))
  {
    var s' := OnDisconnected(s, deviceId);
    match ResolvedNode(s, deviceId) {
      case None =>
      case Some(nodeId) =>
        assert Resolves(s, deviceId, nodeId) && Proven(s.trace, deviceId, nodeId);
        if nodeId in s.sessions {
          var endpoints := s.sessions[nodeId].EndpointsForDevice(deviceId);
          forall i | 0 <= i < |endpoints| ensures Justified(s.trace, Link(nodeId, endpoints[i], Faulted)) {
            EndpointsForDeviceExact(s.sessions[nodeId], deviceId, endpoints[i]);
            EndpointsNameTheirDevice(deviceId, endpoints[i]);
          }
          AppendedFaults(s.trace, nodeId, endpoints);
        }
    }
    StillProven(s, s');
    forall d, n | Resolves(s', d, n) ensures Proven(s'.trace, d, n) { assert Resolves(s, d, n); }
  }

  /** A payload is recorded for the node its device or channel proved. */
  lemma PayloadAccountable(s: Runtime, nodeId: NodeId, deviceId: DeviceId, endpoint: LinkEndpoint, value: seq<Byte>)
    requires Accountable(s) && Proven(s.trace, deviceId, nodeId)
    requires endpoint == GattEndpoint(deviceId) || endpoint == L2capEndpoint(deviceId)
    ensures Accountable(Record(s, Payload(nodeId, endpoint, value)))
  {
    var s' := Record(s, Payload(nodeId, endpoint, value));
    Appended(s.trace, Payload(nodeId, endpoint, value));
    StillProven(s, s');
    forall d, n | Resolves(s', d, n) ensures Proven(s'.trace, d, n) { assert Resolves(s, d, n); }
  }

  lemma DiscoveredAccountable(s: Runtime, deviceId: DeviceId, services: seq<Uuid>)
    requires Accountable(s)
    ensures Accountable(OnDiscovered(s, deviceId, services))
  {
    match ParseDiscoveryHint(services)
    case None =>
    case Some(prefix) =>
      var s' := OnDiscovered(s, deviceId, services);
      Appended(s.trace, Advertised(deviceId, prefix));
      StillProven(s, s');
      forall d, n | Resolves(s', d, n) ensures Proven(s'.trace, d, n) { assert Resolves(s, d, n); }
  }

  lemma StepAccountable(s: Runtime, step: Step)
    requires Accountable(s)
    ensures Accountable(Next(s, step))
  {
    match step
    case DeviceDiscovered(deviceId, services) => DiscoveredAccountable(s, deviceId, services);
    case DeviceConnected(deviceId, read, upgrade) =>
      if Identification(s, step).Some? {
        var nodeId := Identification(s, step).value.1;
        assert Advertised(deviceId, s.peers[deviceId].prefix) in s.trace;
        InstallResolvedAccountable(s, nodeId, deviceId, upgrade, true);
      } else {
        var s' := Next(s, step);
        forall d, n | Resolves(s', d, n) ensures Proven(s'.trace, d, n) { assert Resolves(s, d, n); }
      }
    case DeviceRestored(deviceId, services, read, upgrade) =>
      if ParseDiscoveryHint(services).Some? {
        DiscoveredAccountable(s, deviceId, services);
      } else if ParseNodeId(read).Some? {
        InstallResolvedAccountable(s, ParseNodeId(read).value, deviceId, upgrade, false);
      }
    case DeviceDisconnected(deviceId) => DisconnectAccountable(s, deviceId);
    case P2cSubscribed(deviceId) => SubscribedAccountable(s, deviceId);
    case P2cUnsubscribed(deviceId) => UnsubscribedAccountable(s, deviceId);
    case C2pWritten(deviceId, value) => GattPayloadAccountable(s, deviceId, value);
    case P2cNotified(deviceId, value) => GattPayloadAccountable(s, deviceId, value);
    case L2capAccepted(deviceId, claimed) =>
      if claimed.Some? && ResolvedNode(s, deviceId) == claimed {
        InstallL2capAccountable(s, claimed.value, deviceId);
      }
    case FrameReceived(channelId, payload) =>
      if channelId in s.channels {
        var channel := s.channels[channelId];
        PayloadAccountable(s, channel.nodeId, channel.deviceId, L2capEndpoint(channel.deviceId), payload);
      }
    case ChannelClosed(channelId) => ChannelClosedAccountable(s, channelId);
    case UnicastDispatched(endpoint, broken) =>
      if DeviceIdFromEndpoint(endpoint).Some? {
        UnicastAccountable(s, DeviceIdFromEndpoint(endpoint).value, broken, None);
      }
  }

  lemma GattPayloadAccountable(s: Runtime, deviceId: DeviceId, value: seq<Byte>)
    requires Accountable(s)
    ensures Accountable(OnGattPayload(s, deviceId, value))
  {
    if ResolvedNode(s, deviceId).Some? {
      var nodeId := ResolvedNode(s, deviceId).value;
      assert Resolves(s, deviceId, nodeId);
      PayloadAccountable(s, nodeId, deviceId, GattEndpoint(deviceId), value);
    }
  }

  lemma {:induction false} EveryRunIsAccountable(steps: seq<Step>)
    ensures Accountable(Run(Initial, steps))
    decreases |steps|
  {
    if |steps| > 0 {
      EveryRunIsAccountable(steps[..|steps| - 1]);
      StepAccountable(Run(Initial, steps[..|steps| - 1]), steps[|steps| - 1]);
    }
  }

  /** Entry by entry: each emission follows a proof, and each hinted proof follows its advertisement. */
  lemma EmissionsFollowProofs(steps: seq<Step>, i: nat)
    requires i < |Run(Initial, steps).trace|
    ensures var trace := Run(Initial, steps).trace;
      match trace[i]
      case Advertised(_, _) => true
      case Identified(deviceId, nodeId, fromHint) =>
        fromHint ==> exists j :: 0 <= j < i && trace[j] == Advertised(deviceId, NodeIdPrefix(nodeId))
      case Link(nodeId, endpoint, _) =>
        exists j :: 0 <= j < i && trace[j].Identified? && trace[j].nodeId == nodeId
                    && (endpoint == NotifyFanoutEndpoint() || DeviceIdFromEndpoint(endpoint) == Some(trace[j].deviceId))
      case Payload(nodeId, endpoint, _) =>
        exists j :: 0 <= j < i && trace[j].Identified? && trace[j].nodeId == nodeId
                    && DeviceIdFromEndpoint(endpoint) == Some(trace[j].deviceId)
  {
    var trace := Run(Initial, steps).trace;
    EveryRunIsAccountable(steps);
    assert Justified(trace[..i], trace[i]);
    match trace[i]
    case Advertised(_, _) =>
    case Identified(deviceId, nodeId, fromHint) =>
      if fromHint {
        var j :| 0 <= j < |trace[..i]| && trace[..i][j] == Advertised(deviceId, NodeIdPrefix(nodeId));
        assert trace[j] == Advertised(deviceId, NodeIdPrefix(nodeId));
      }
    case Link(nodeId, endpoint, _) =>
      var d :| Proven(trace[..i], d, nodeId) &&
               (endpoint == NotifyFanoutEndpoint() || endpoint == GattEndpoint(d) || endpoint == L2capEndpoint(d));
      EndpointsNameTheirDevice(d, endpoint);
      var j := ProofAt(trace, i, d, nodeId);
    case Payload(nodeId, endpoint, _) =>
      var d :| Proven(trace[..i], d, nodeId) && (endpoint == GattEndpoint(d) || endpoint == L2capEndpoint(d));
      EndpointsNameTheirDevice(d, endpoint);
      var j := ProofAt(trace, i, d, nodeId);
  }

  lemma ProofAt(trace: seq<TraceEntry>, i: nat, deviceId: DeviceId, nodeId: NodeId) returns (j: nat)
    requires i <= |trace| && Proven(trace[..i], deviceId, nodeId)
    ensures j < i && trace[j].Identified? && trace[j].nodeId == nodeId && trace[j].deviceId == deviceId
  {
    var fromHint := Identified(deviceId, nodeId, true) in trace[..i];
    j :| 0 <= j < |trace[..i]| && trace[..i][j] == Identified(deviceId, nodeId, fromHint);
  }
}

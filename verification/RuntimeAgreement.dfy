/**
 * The emitted history and the live state tell one story: replaying the link events gives the real
 * path of every node, and the real set of notify subscribers.
 */
module RuntimeAgreement {
  import opened Identity
  import opened Gatt
  import opened Sessions
  import opened RuntimeSpec

  /** Endpoint of the latest unicast link event of a node, if that event was Active. */
  function LivePath(trace: seq<TraceEntry>, nodeId: NodeId): Option<LinkEndpoint>
    decreases |trace|
  {
    if |trace| == 0 then None
    else
      match trace[|trace| - 1]
      case Link(n, endpoint, state) =>
        if n == nodeId && endpoint != NotifyFanoutEndpoint()
        then if state == Active then Some(endpoint) else None
        else LivePath(trace[..|trace| - 1], nodeId)
      case _ => LivePath(trace[..|trace| - 1], nodeId)
  }

  /** Nodes whose latest notify-fanout event was Active. */
  function Subscribers(trace: seq<TraceEntry>): set<NodeId>
    decreases |trace|
  {
    if |trace| == 0 then {}
    else
      var earlier := Subscribers(trace[..|trace| - 1]);
      match trace[|trace| - 1]
      case Link(n, endpoint, state) =>
        if endpoint != NotifyFanoutEndpoint() then earlier
        else if state == Active then earlier + {n} else earlier - {n}
      case _ => earlier
  }

  function EgressEndpoint(s: Runtime, nodeId: NodeId): Option<LinkEndpoint> {
    if nodeId in s.sessions && s.sessions[nodeId].PreferredEgress().Some?
    then Some(s.sessions[nodeId].PreferredEgress().value.Endpoint()) else None
  }

  /** The node's record holds exactly the device: its GATT path, or a live channel over that path. */
  ghost predicate OnPath(s: Runtime, deviceId: DeviceId, nodeId: NodeId) {
    nodeId in s.sessions
    && var p := s.sessions[nodeId];
       (p.notifySubscribers == [] || p.notifySubscribers == [BleNotifySubscriber(deviceId)])
       && match p.state
          case Disconnected => false
          case GattOnly(ingress, egress) => ingress == egress == GattCentral(deviceId)
          case L2capPreferred(session, fallback) =>
            fallback == Some(GattCentral(deviceId)) && session.L2cap? && session.deviceId == deviceId
            && session.channelId in s.channels && s.channels[session.channelId] == Channel(nodeId, deviceId)
  }

  /** Directory, records and channels agree about one node. */
  ghost predicate NodeAgrees(s: Runtime, n: NodeId) {
    && (forall d :: Resolves(s, d, n) ==> OnPath(s, d, n))
    && (forall d, e :: Resolves(s, d, n) && Resolves(s, e, n) ==> d == e)
    && (n in s.sessions ==>
          s.sessions[n].PreferredEgress().Some? && Resolves(s, s.sessions[n].PreferredEgress().value.deviceId, n))
    && (forall c :: c in s.channels && s.channels[c].nodeId == n ==>
          Resolves(s, s.channels[c].deviceId, n) && c < s.nextChannelId)
  }

  ghost predicate MapsAgree(s: Runtime) { forall n :: NodeAgrees(s, n) }

  ghost predicate LogAgrees(s: Runtime) {
    && (forall n :: LivePath(s.trace, n) == EgressEndpoint(s, n))
    && (forall n :: n in Subscribers(s.trace) <==> n in s.sessions && s.sessions[n].notifySubscribers != [])
  }

  ghost predicate Coherent(s: Runtime) { MapsAgree(s) && LogAgrees(s) }

  function PathAfter(trace: seq<TraceEntry>, entry: TraceEntry, nodeId: NodeId): Option<LinkEndpoint> {
    if entry.Link? && entry.nodeId == nodeId && entry.endpoint != NotifyFanoutEndpoint()
    then if entry.state == Active then Some(entry.endpoint) else None
    else LivePath(trace, nodeId)
  }

  lemma Replayed(trace: seq<TraceEntry>, entry: TraceEntry)
    ensures forall n :: LivePath(trace + [entry], n) == PathAfter(trace, entry, n)
    ensures Subscribers(trace + [entry]) ==
            if entry.Link? && entry.endpoint == NotifyFanoutEndpoint()
            then if entry.state == Active then Subscribers(trace) + {entry.nodeId}
                 else Subscribers(trace) - {entry.nodeId}
            else Subscribers(trace)
  {
    forall n ensures LivePath(trace + [entry], n) == PathAfter(trace, entry, n) {
      assert (trace + [entry])[..|trace|] == trace;
    }
    assert (trace + [entry])[..|trace|] == trace;
  }

  ghost predicate ListsUnicast(endpoints: seq<LinkEndpoint>) {
    exists e :: e in endpoints && e != NotifyFanoutEndpoint()
  }

  /** Faulting a list of endpoints ends the node's path and subscription if they are listed; other nodes keep theirs. */
  lemma {:induction false} ReplayedFaults(trace: seq<TraceEntry>, nodeId: NodeId, endpoints: seq<LinkEndpoint>)
    ensures var after := trace + FaultEntries(nodeId, endpoints);
      && (forall n :: LivePath(after, n) ==
           if n == nodeId && ListsUnicast(endpoints) then None else LivePath(trace, n))
      && (forall n :: n in Subscribers(after) <==>
           n in Subscribers(trace) && !(n == nodeId && NotifyFanoutEndpoint() in endpoints))
    decreases |endpoints|
  {
    if |endpoints| == 0 {
      assert trace + FaultEntries(nodeId, endpoints) == trace;
    } else {
      var entry := Link(nodeId, endpoints[0], Faulted);
      Replayed(trace, entry);
      ReplayedFaults(trace + [entry], nodeId, endpoints[1..]);
      assert trace + FaultEntries(nodeId, endpoints) == (trace + [entry]) + FaultEntries(nodeId, endpoints[1..]);
      assert endpoints == [endpoints[0]] + endpoints[1..];
      assert forall e :: e in endpoints <==> e == endpoints[0] || e in endpoints[1..];
      if endpoints[0] != NotifyFanoutEndpoint() { assert endpoints[0] in endpoints; }
      if e :| e in endpoints[1..] && e != NotifyFanoutEndpoint() { assert e in endpoints; }
    }
  }

  // ----- Each handler keeps the agreement -----

  /** Nothing a step did concerns the node. */
  ghost predicate Untouched(s: Runtime, s': Runtime, n: NodeId) {
    && (n in s'.sessions <==> n in s.sessions)
    && (n in s.sessions ==> s'.sessions[n] == s.sessions[n])
    && (forall d :: Resolves(s', d, n) <==> Resolves(s, d, n))
    && (forall c :: c in s'.channels && s'.channels[c].nodeId == n <==> c in s.channels && s.channels[c].nodeId == n)
    && (forall c :: c in s.channels && s.channels[c].nodeId == n ==> s'.channels[c] == s.channels[c])
  }

  lemma UntouchedAgrees(s: Runtime, s': Runtime, n: NodeId)
    requires NodeAgrees(s, n) && Untouched(s, s', n) && s'.nextChannelId >= s.nextChannelId
    ensures NodeAgrees(s', n)
    ensures EgressEndpoint(s', n) == EgressEndpoint(s, n)
  {
    forall d | Resolves(s', d, n) ensures OnPath(s', d, n) {
      assert Resolves(s, d, n) && OnPath(s, d, n);
    }
  }

  lemma OnlyOneNodeTouched(s: Runtime, s': Runtime, nodeId: NodeId)
    requires MapsAgree(s) && NodeAgrees(s', nodeId) && s'.nextChannelId >= s.nextChannelId
    requires forall n :: n != nodeId ==> Untouched(s, s', n)
    ensures MapsAgree(s')
    ensures forall n :: n != nodeId ==> EgressEndpoint(s', n) == EgressEndpoint(s, n)
  {
    forall n | n != nodeId ensures NodeAgrees(s', n) && EgressEndpoint(s', n) == EgressEndpoint(s, n) {
      UntouchedAgrees(s, s', n);
    }
  }

  lemma InstallL2capMaps(s: Runtime, nodeId: NodeId, deviceId: DeviceId)
    requires MapsAgree(s) && Resolves(s, deviceId, nodeId)
    requires s.nextChannelId < U64_MAX
    ensures var s' := InstallL2capSession(s, nodeId, deviceId);
      && MapsAgree(s') && nodeId in s.sessions
      && s'.sessions[nodeId] ==
           s.sessions[nodeId].(state := L2capPreferred(L2cap(deviceId, s.nextChannelId), Some(GattCentral(deviceId))))
      && (forall n :: n != nodeId ==> EgressEndpoint(s', n) == EgressEndpoint(s, n))
  {
    var s' := InstallL2capSession(s, nodeId, deviceId);
    assert NodeAgrees(s, nodeId) && OnPath(s, deviceId, nodeId);
    FallbackClosedForm(s.sessions[nodeId]);
    assert forall d, n :: Resolves(s', d, n) <==> Resolves(s, d, n);
    forall c | c in s.channels ensures c < s.nextChannelId { assert NodeAgrees(s, s.channels[c].nodeId); }
    forall n | n != nodeId ensures Untouched(s, s', n) {}
    assert NodeAgrees(s', nodeId);
    OnlyOneNodeTouched(s, s', nodeId);
  }

  lemma InstallL2capKeeps(s: Runtime, nodeId: NodeId, deviceId: DeviceId)
    requires MapsAgree(s) && Resolves(s, deviceId, nodeId)
    requires forall n :: n != nodeId ==> LivePath(s.trace, n) == EgressEndpoint(s, n)
    requires forall n :: n in Subscribers(s.trace) <==> n in s.sessions && s.sessions[n].notifySubscribers != []
    requires s.nextChannelId < U64_MAX
    ensures Coherent(InstallL2capSession(s, nodeId, deviceId))
  {
    InstallL2capMaps(s, nodeId, deviceId);
    EndpointsNameTheirDevice(deviceId, NotifyFanoutEndpoint());
    Replayed(s.trace, Link(nodeId, L2capEndpoint(deviceId), Active));
  }

  function Proved(s: Runtime, nodeId: NodeId, deviceId: DeviceId, fromHint: bool): Runtime {
    Record(s.(peers := s.peers[deviceId := Resolved(nodeId)]), Identified(deviceId, nodeId, fromHint))
  }

  /** The state once the GATT path is installed and announced, before any upgrade. */
  function GattAnnounced(s: Runtime, nodeId: NodeId, deviceId: DeviceId, fromHint: bool): Runtime {
    EmitLink(InstallGattSession(Proved(s, nodeId, deviceId, fromHint), nodeId, deviceId), nodeId,
             GattEndpoint(deviceId), Active)
  }

  lemma GattAnnouncedLog(s: Runtime, nodeId: NodeId, deviceId: DeviceId, fromHint: bool)
    ensures var s2 := GattAnnounced(s, nodeId, deviceId, fromHint);
      && LivePath(s2.trace, nodeId) == Some(GattEndpoint(deviceId))
      && (forall n :: n != nodeId ==> LivePath(s2.trace, n) == LivePath(s.trace, n)
                                      && EgressEndpoint(s2, n) == EgressEndpoint(s, n))
      && Subscribers(s2.trace) == Subscribers(s.trace)
  {
    EndpointsNameTheirDevice(deviceId, NotifyFanoutEndpoint());
    Replayed(s.trace, Identified(deviceId, nodeId, fromHint));
    Replayed(s.trace + [Identified(deviceId, nodeId, fromHint)], Link(nodeId, GattEndpoint(deviceId), Active));
  }

  lemma NewProofKeeps(s: Runtime, nodeId: NodeId, deviceId: DeviceId, fromHint: bool)
    requires Coherent(s)
    requires ResolvedNode(s, deviceId) == None && forall d :: !Resolves(s, d, nodeId)
    ensures Coherent(GattAnnounced(s, nodeId, deviceId, fromHint))
  {
    var s2 := GattAnnounced(s, nodeId, deviceId, fromHint);
    GattAnnouncedLog(s, nodeId, deviceId, fromHint);
    assert NodeAgrees(s, nodeId) && nodeId !in s.sessions;
    assert forall d, n :: Resolves(s2, d, n) <==> Resolves(s, d, n) || (d == deviceId && n == nodeId);
    forall n | n != nodeId ensures Untouched(s, s2, n) {}
    assert s2.sessions[nodeId] == GattWithFallback(GattCentral(deviceId));
    assert OnPath(s2, deviceId, nodeId);
    assert NodeAgrees(s2, nodeId);
    OnlyOneNodeTouched(s, s2, nodeId);
  }

  lemma OldProofKeepsMaps(s: Runtime, nodeId: NodeId, deviceId: DeviceId, fromHint: bool)
    requires Coherent(s) && Resolves(s, deviceId, nodeId)
    ensures var s2 := GattAnnounced(s, nodeId, deviceId, fromHint);
      && s2.sessions == s.sessions && s2.peers == s.peers && s2.channels == s.channels
      && MapsAgree(s2) && Resolves(s2, deviceId, nodeId) && nodeId in s.sessions
      && (s.sessions[nodeId].state.GattOnly? <==> EgressEndpoint(s2, nodeId) == Some(GattEndpoint(deviceId)))
  {
    var s2 := GattAnnounced(s, nodeId, deviceId, fromHint);
    assert NodeAgrees(s, nodeId) && OnPath(s, deviceId, nodeId);
    assert s2.sessions == s.sessions[nodeId := s.sessions[nodeId]];
    forall n ensures Untouched(s, s2, n) {}
    UntouchedAgrees(s, s2, nodeId);
    OnlyOneNodeTouched(s, s2, nodeId);
    assert GattEndpoint(deviceId) != L2capEndpoint(deviceId);
  }

  /** A proof of identity keeps the agreement exactly when it is a stable one. */
  lemma ResolvedPeerExactly(s: Runtime, nodeId: NodeId, deviceId: DeviceId, upgrade: Upgrade, fromHint: bool)
    requires Coherent(s) && s.nextChannelId < U64_MAX
    ensures var s' := InstallResolvedPeer(s, nodeId, deviceId, upgrade, fromHint);
      Coherent(s') <==>
        if Resolves(s, deviceId, nodeId)
        then nodeId in s.sessions && (s.sessions[nodeId].state.GattOnly? || upgrade.Succeeds())
        else ResolvedNode(s, deviceId) == None && forall d :: !Resolves(s, d, nodeId)
  {
    var s2 := GattAnnounced(s, nodeId, deviceId, fromHint);
    var s' := InstallResolvedPeer(s, nodeId, deviceId, upgrade, fromHint);
    assert s' == if upgrade.Succeeds() then InstallL2capSession(s2, nodeId, deviceId) else s2;
    assert Resolves(s2, deviceId, nodeId) && Resolves(s', deviceId, nodeId);
    if Resolves(s, deviceId, nodeId) {
      OldProofKeepsMaps(s, nodeId, deviceId, fromHint);
      GattAnnouncedLog(s, nodeId, deviceId, fromHint);
      assert NodeAgrees(s, nodeId) && OnPath(s, deviceId, nodeId);
      if upgrade.Succeeds() { InstallL2capKeeps(s2, nodeId, deviceId); }
    } else if ResolvedNode(s, deviceId) == None && forall d :: !Resolves(s, d, nodeId) {
      NewProofKeeps(s, nodeId, deviceId, fromHint);
      if upgrade.Succeeds() { InstallL2capKeeps(s2, nodeId, deviceId); }
    } else if d :| Resolves(s, d, nodeId) {
      assert d != deviceId;
      assert Resolves(s', d, nodeId) && !NodeAgrees(s', nodeId);
    } else {
      // The device was proven for another node, whose record now has no prover.
      var other := s.peers[deviceId].nodeId;
      assert NodeAgrees(s, other) && Resolves(s, deviceId, other) && OnPath(s, deviceId, other);
      assert s'.sessions[other] == s.sessions[other];
      assert s'.sessions[other].PreferredEgress().value.deviceId == deviceId;
      assert !Resolves(s', deviceId, other) && !NodeAgrees(s', other);
    }
  }

  /** Only the record of the device's own node refers to the device. */
  lemma OnlyOwnRecordRefers(s: Runtime, deviceId: DeviceId, n: NodeId)
    requires NodeAgrees(s, n) && n in s.sessions
    ensures s.sessions[n].ReferencesDevice(deviceId) <==> Resolves(s, deviceId, n)
  {
    var p := s.sessions[n];
    var d := p.PreferredEgress().value.deviceId;
    assert Resolves(s, d, n) && OnPath(s, d, n);
    if d == deviceId { assert p.Sessions()[0].deviceId == deviceId; }
    if Resolves(s, deviceId, n) { assert d == deviceId; }
  }

  lemma DisconnectMaps(s: Runtime, deviceId: DeviceId)
    requires MapsAgree(s)
    ensures var s' := OnDisconnected(s, deviceId);
      && MapsAgree(s')
      && (forall n :: n in s'.sessions <==> n in s.sessions && !Resolves(s, deviceId, n))
      && (forall n :: n in s'.sessions ==> s'.sessions[n] == s.sessions[n])
  {
    var s' := OnDisconnected(s, deviceId);
    forall n | n in s.sessions ensures s.sessions[n].ReferencesDevice(deviceId) <==> Resolves(s, deviceId, n) {
      assert NodeAgrees(s, n);
      OnlyOwnRecordRefers(s, deviceId, n);
    }
    assert forall d, n :: Resolves(s', d, n) <==> Resolves(s, d, n) && d != deviceId;
    forall n ensures NodeAgrees(s', n) {
      assert NodeAgrees(s, n);
      if Resolves(s, deviceId, n) {
        assert ResolvedNode(s, deviceId) == Some(n);
      } else {
        assert Untouched(s, s', n);
        UntouchedAgrees(s, s', n);
      }
    }
  }

  /** The faults reported for the departing device cover its path and, if it subscribed, its subscription. */
  lemma DepartureFaultsCover(s: Runtime, deviceId: DeviceId, nodeId: NodeId)
    requires MapsAgree(s) && Resolves(s, deviceId, nodeId)
    ensures nodeId in s.sessions
    ensures var endpoints := s.sessions[nodeId].EndpointsForDevice(deviceId);
      ListsUnicast(endpoints) && (NotifyFanoutEndpoint() in endpoints <==> s.sessions[nodeId].notifySubscribers != [])
  {
    assert NodeAgrees(s, nodeId) && OnPath(s, deviceId, nodeId);
    var p := s.sessions[nodeId];
    var path := p.PreferredEgress().value.Endpoint();
    EndpointsNameTheirDevice(deviceId, NotifyFanoutEndpoint());
    EndpointsForDeviceExact(p, deviceId, path);
    EndpointsForDeviceExact(p, deviceId, NotifyFanoutEndpoint());
    assert p.Sessions()[0] == p.PreferredEgress().value;
    assert path in p.EndpointsForDevice(deviceId) && path != NotifyFanoutEndpoint();
    forall i | 0 <= i < |p.Sessions()| ensures p.Sessions()[i].Endpoint() != NotifyFanoutEndpoint() {
      assert p.Sessions()[i].deviceId == deviceId;
    }
    if p.notifySubscribers != [] { assert p.notifySubscribers[0].deviceId == deviceId; }
  }

  lemma DisconnectKeeps(s: Runtime, deviceId: DeviceId)
    requires Coherent(s)
    ensures Coherent(OnDisconnected(s, deviceId))
  {
    var s' := OnDisconnected(s, deviceId);
    DisconnectMaps(s, deviceId);
    match ResolvedNode(s, deviceId) {
      case None =>
        assert forall n :: !Resolves(s, deviceId, n);
        assert forall n :: EgressEndpoint(s', n) == EgressEndpoint(s, n);
      case Some(nodeId) =>
        assert Resolves(s, deviceId, nodeId);
        assert forall n :: Resolves(s, deviceId, n) <==> n == nodeId;
        DepartureFaultsCover(s, deviceId, nodeId);
        ReplayedFaults(s.trace, nodeId, s.sessions[nodeId].EndpointsForDevice(deviceId));
        forall n ensures LivePath(s'.trace, n) == EgressEndpoint(s', n) {
          if n != nodeId { assert EgressEndpoint(s', n) == EgressEndpoint(s, n); }
        }
    }
  }

  /** A change of one record's subscribers and one notify event move together. */
  lemma SubscriptionKeeps(s: Runtime, deviceId: DeviceId, nodeId: NodeId, record: PeerSessions, state: LinkState)
    requires Coherent(s) && Resolves(s, deviceId, nodeId)
    requires nodeId in s.sessions && record.state == s.sessions[nodeId].state
    requires record.notifySubscribers == if state == Active then [BleNotifySubscriber(deviceId)] else []
    ensures Coherent(EmitLink(s.(sessions := s.sessions[nodeId := record]), nodeId, NotifyFanoutEndpoint(), state))
  {
    var s' := EmitLink(s.(sessions := s.sessions[nodeId := record]), nodeId, NotifyFanoutEndpoint(), state);
    Replayed(s.trace, Link(nodeId, NotifyFanoutEndpoint(), state));
    assert NodeAgrees(s, nodeId) && OnPath(s, deviceId, nodeId);
    assert forall d, n :: Resolves(s', d, n) <==> Resolves(s, d, n);
    forall n | n != nodeId ensures Untouched(s, s', n) {}
    assert NodeAgrees(s', nodeId);
    OnlyOneNodeTouched(s, s', nodeId);
  }

  lemma SubscribeKeeps(s: Runtime, deviceId: DeviceId)
    requires Coherent(s)
    ensures Coherent(OnSubscribed(s, deviceId))
    ensures Coherent(OnUnsubscribed(s, deviceId))
  {
    match ResolvedNode(s, deviceId)
    case None =>
    case Some(nodeId) =>
      assert NodeAgrees(s, nodeId) && Resolves(s, deviceId, nodeId) && OnPath(s, deviceId, nodeId);
      var p := s.sessions[nodeId];
      var subscriber := BleNotifySubscriber(deviceId);
      ReplacedIsIdentity(p.notifySubscribers, subscriber);
      if p.notifySubscribers != [] { assert p.notifySubscribers[0].deviceId == deviceId; }
      SubscriptionKeeps(s, deviceId, nodeId, p.InstallGattSubscription(subscriber), Active);
      WithoutFilters(p.notifySubscribers, deviceId);
      if p.notifySubscribers == [] {
        assert p.RemoveGattSubscription(deviceId) == (p, false);
        assert s.sessions[nodeId := p] == s.sessions;
      } else {
        assert Without(p.notifySubscribers[1..], deviceId) == [];
        SubscriptionKeeps(s, deviceId, nodeId, p.RemoveGattSubscription(deviceId).0, Faulted);
      }
  }

  lemma ChannelClosedMaps(s: Runtime, channelId: nat)
    requires MapsAgree(s) && channelId in s.channels
    ensures var s' := OnChannelClosed(s, channelId);
      && MapsAgree(s')
      && (forall n :: n != s.channels[channelId].nodeId ==> EgressEndpoint(s', n) == EgressEndpoint(s, n))
      && (forall n :: n in s'.sessions <==> n in s.sessions)
      && (forall n :: n in s.sessions ==> s'.sessions[n].notifySubscribers == s.sessions[n].notifySubscribers)
  {
    var s' := OnChannelClosed(s, channelId);
    var nodeId, deviceId := s.channels[channelId].nodeId, s.channels[channelId].deviceId;
    assert NodeAgrees(s, nodeId) && Resolves(s, deviceId, nodeId) && OnPath(s, deviceId, nodeId);
    assert forall d, n :: Resolves(s', d, n) <==> Resolves(s, d, n);
    forall n | n != nodeId ensures Untouched(s, s', n) {}
    assert NodeAgrees(s', nodeId);
    OnlyOneNodeTouched(s, s', nodeId);
  }

  /**
   * Losing a channel announces the path that is left: the fallback, or the newer channel when the lost one was
   * stale.
   */
  lemma ChannelClosedKeeps(s: Runtime, channelId: nat)
    requires Coherent(s)
    ensures Coherent(OnChannelClosed(s, channelId))
  {
    if channelId in s.channels {
      ChannelClosedMaps(s, channelId);
      var s' := OnChannelClosed(s, channelId);
      var nodeId, deviceId := s.channels[channelId].nodeId, s.channels[channelId].deviceId;
      assert NodeAgrees(s, nodeId) && Resolves(s, deviceId, nodeId) && OnPath(s, deviceId, nodeId);
      var (record, effective) := s.sessions[nodeId].DowngradeL2cap(channelId);
      assert effective.Some? && effective == record.PreferredEgress() && effective.value.deviceId == deviceId;
      EndpointsNameTheirDevice(deviceId, NotifyFanoutEndpoint());
      var entry := Link(nodeId, effective.value.Endpoint(), Active);
      Replayed(s.trace, entry);
      assert s'.trace == s.trace + [entry];
      assert EgressEndpoint(s', nodeId) == Some(entry.endpoint);
    }
  }

  lemma {:induction false} UnicastKeeps(s: Runtime, deviceId: DeviceId, broken: set<nat>, closed: Option<nat>)
    requires Coherent(s)
    ensures Coherent(Unicast(s, deviceId, broken, closed).0)
    decreases |s.channels|, RoundsLeft(s, deviceId, closed)
  {
    match EgressSession(s, deviceId)
    case Some(L2cap(_, channelId)) =>
      if WriteFails(s, channelId, broken) && closed != Some(channelId) {
        ClosingShrinks(s, channelId);
        ChannelClosedKeeps(s, channelId);
        UnicastKeeps(OnChannelClosed(s, channelId), deviceId, broken, Some(channelId));
      }
    case _ =>
  }

  /** Entries that are not link events, and hints for devices not yet proven, leave the agreement alone. */
  lemma QuietKeeps(s: Runtime, s': Runtime, entry: TraceEntry)
    requires Coherent(s) && !entry.Link?
    requires s'.sessions == s.sessions && s'.channels == s.channels && s'.nextChannelId == s.nextChannelId
    requires s'.trace == s.trace || s'.trace == s.trace + [entry]
    requires forall d, n :: Resolves(s', d, n) <==> Resolves(s, d, n)
    ensures Coherent(s')
  {
    Replayed(s.trace, entry);
    forall n ensures NodeAgrees(s', n) && EgressEndpoint(s', n) == EgressEndpoint(s, n) {
      assert Untouched(s, s', n);
      UntouchedAgrees(s, s', n);
    }
  }

  lemma DiscoveredKeeps(s: Runtime, deviceId: DeviceId, services: seq<Uuid>)
    requires Coherent(s)
    ensures Coherent(OnDiscovered(s, deviceId, services))
  {
    match ParseDiscoveryHint(services)
    case None =>
    case Some(prefix) => QuietKeeps(s, OnDiscovered(s, deviceId, services), Advertised(deviceId, prefix));
  }

  /** From agreement, a handler leads to agreement exactly when the identity it proves, if any, is stable. */
  lemma StepExactly(s: Runtime, step: Step)
    requires Coherent(s) && s.nextChannelId < U64_MAX
    ensures Coherent(Next(s, step)) <==> StableIdentity(s, step)
  {
    match step
    case DeviceDiscovered(deviceId, services) => DiscoveredKeeps(s, deviceId, services);
    case DeviceConnected(deviceId, read, upgrade) =>
      if Identification(s, step).Some? {
        ResolvedPeerExactly(s, Identification(s, step).value.1, deviceId, upgrade, true);
      } else if ParseNodeId(read).Some? && deviceId in s.peers && s.peers[deviceId].Hint? {
        QuietKeeps(s, s.(peers := s.peers - {deviceId}), Advertised(deviceId, s.peers[deviceId].prefix));
      }
    case DeviceRestored(deviceId, services, read, upgrade) =>
      if ParseDiscoveryHint(services).Some? {
        DiscoveredKeeps(s, deviceId, services);
      } else if ParseNodeId(read).Some? {
        ResolvedPeerExactly(s, ParseNodeId(read).value, deviceId, upgrade, false);
      }
    case DeviceDisconnected(deviceId) => DisconnectKeeps(s, deviceId);
    case P2cSubscribed(deviceId) => SubscribeKeeps(s, deviceId);
    case P2cUnsubscribed(deviceId) => SubscribeKeeps(s, deviceId);
    case C2pWritten(deviceId, value) => PayloadKeeps(s, deviceId, value);
    case P2cNotified(deviceId, value) => PayloadKeeps(s, deviceId, value);
    case L2capAccepted(deviceId, claimed) =>
      if claimed.Some? && ResolvedNode(s, deviceId) == claimed {
        assert Resolves(s, deviceId, claimed.value);
        InstallL2capKeeps(s, claimed.value, deviceId);
      }
    case FrameReceived(channelId, payload) =>
      if channelId in s.channels {
        var channel := s.channels[channelId];
        QuietKeeps(s, OnFrame(s, channelId, payload),
                   Payload(channel.nodeId, L2capEndpoint(channel.deviceId), payload));
      }
    case ChannelClosed(channelId) => ChannelClosedKeeps(s, channelId);
    case UnicastDispatched(endpoint, broken) =>
      if DeviceIdFromEndpoint(endpoint).Some? {
        UnicastKeeps(s, DeviceIdFromEndpoint(endpoint).value, broken, None);
      }
  }

  lemma PayloadKeeps(s: Runtime, deviceId: DeviceId, value: seq<Byte>)
    requires Coherent(s)
    ensures Coherent(OnGattPayload(s, deviceId, value))
  {
    match ResolvedNode(s, deviceId)
    case None =>
    case Some(nodeId) =>
      QuietKeeps(s, OnGattPayload(s, deviceId, value), Payload(nodeId, GattEndpoint(deviceId), value));
  }
}

/** Whole runs of the runtime owner: agreement, channel ids, unicast dispatch, and what instability breaks. */
module RuntimeTheorems {
  import opened Identity
  import opened Gatt
  import opened Sessions
  import opened RuntimeSpec
  import opened RuntimeAgreement

  lemma {:induction false} UnicastCounter(s: Runtime, deviceId: DeviceId, broken: set<nat>, closed: Option<nat>)
    ensures var s' := Unicast(s, deviceId, broken, closed).0;
      s'.nextChannelId == s.nextChannelId && s'.peers == s.peers
      && forall c :: c in s'.channels ==> c in s.channels && s'.channels[c] == s.channels[c]
    decreases |s.channels|, RoundsLeft(s, deviceId, closed)
  {
    match EgressSession(s, deviceId)
    case Some(L2cap(_, channelId)) =>
      if WriteFails(s, channelId, broken) && closed != Some(channelId) {
        ClosingShrinks(s, channelId);
        UnicastCounter(OnChannelClosed(s, channelId), deviceId, broken, Some(channelId));
      }
    case _ =>
  }

  ghost predicate ChannelsGrowByNext(s: Runtime, s': Runtime) {
    && s.nextChannelId <= s'.nextChannelId
    && (forall c :: c in s'.channels && c != s.nextChannelId ==> c in s.channels && s'.channels[c] == s.channels[c])
  }

  lemma InstallChannels(s: Runtime, nodeId: NodeId, deviceId: DeviceId, upgrade: Upgrade, fromHint: bool)
    ensures ChannelsGrowByNext(s, InstallResolvedPeer(s, nodeId, deviceId, upgrade, fromHint))
  {
  }

  lemma ConnectedChannels(s: Runtime, deviceId: DeviceId, read: Option<seq<Byte>>, upgrade: Upgrade)
    ensures ChannelsGrowByNext(s, OnConnected(s, deviceId, read, upgrade))
  {
    if ParseNodeId(read).Some? { InstallChannels(s, ParseNodeId(read).value, deviceId, upgrade, true); }
  }

  lemma RestoredChannels(s: Runtime, deviceId: DeviceId, services: seq<Uuid>, read: Option<seq<Byte>>, upgrade: Upgrade)
    ensures ChannelsGrowByNext(s, OnRestored(s, deviceId, services, read, upgrade))
  {
    if ParseNodeId(read).Some? { InstallChannels(s, ParseNodeId(read).value, deviceId, upgrade, false); }
  }

  lemma AcceptedChannels(s: Runtime, deviceId: DeviceId, claimed: Option<NodeId>)
    ensures ChannelsGrowByNext(s, OnAccepted(s, deviceId, claimed))
  {
  }

  lemma DispatchChannels(s: Runtime, endpoint: LinkEndpoint, broken: set<nat>)
    ensures ChannelsGrowByNext(s, OnUnicast(s, endpoint, broken).0)
  {
    if DeviceIdFromEndpoint(endpoint).Some? { UnicastCounter(s, DeviceIdFromEndpoint(endpoint).value, broken, None); }
  }

  /** One step enters at most the id the counter stood at, and leaves every other live channel as it was. */
  lemma StepChannels(s: Runtime, step: Step)
    ensures ChannelsGrowByNext(s, Next(s, step))
  {
    match step
    case UnicastDispatched(endpoint, broken) => DispatchChannels(s, endpoint, broken);
    case DeviceConnected(deviceId, read, upgrade) => ConnectedChannels(s, deviceId, read, upgrade);
    case DeviceRestored(deviceId, services, read, upgrade) => RestoredChannels(s, deviceId, services, read, upgrade);
    case L2capAccepted(deviceId, claimed) => AcceptedChannels(s, deviceId, claimed);
    case _ => OtherChannels(s, step);
  }

  lemma OtherChannels(s: Runtime, step: Step)
    requires !step.UnicastDispatched? && !step.DeviceConnected? && !step.DeviceRestored? && !step.L2capAccepted?
    ensures ChannelsGrowByNext(s, Next(s, step))
  {
  }

  /** An id that has left the channel map never names a channel again, in any run from any state. */
  lemma {:induction false} ChannelIdsAreNotReused(s: Runtime, steps: seq<Step>, channelId: nat)
    requires channelId < s.nextChannelId && channelId !in s.channels
    ensures channelId !in Run(s, steps).channels && s.nextChannelId <= Run(s, steps).nextChannelId
    decreases |steps|
  {
    if |steps| > 0 {
      ChannelIdsAreNotReused(s, steps[..|steps| - 1], channelId);
      StepChannels(Run(s, steps[..|steps| - 1]), steps[|steps| - 1]);
    }
  }

  lemma InitialCoherent()
    ensures Coherent(Initial)
  {
    forall n ensures NodeAgrees(Initial, n) {}
  }

  /**
   * In every reachable state, under stable identity: replaying the log gives each node's real path and the
   * real subscriber set, and every preferred channel is live, for the right node and device, with an id
   * already spent.
   */
  lemma {:induction false} EveryStableRunAgrees(steps: seq<Step>)
    requires StableRun(steps) && Run(Initial, steps).nextChannelId < U64_MAX
    ensures Coherent(Run(Initial, steps))
    decreases |steps|
  {
    if |steps| == 0 {
      InitialCoherent();
    } else {
      var k := |steps| - 1;
      var earlier := steps[..k];
      var s := Run(Initial, earlier);
      StepChannels(s, steps[k]);
      forall i | 0 <= i < |earlier| ensures StableIdentity(Run(Initial, earlier[..i]), earlier[i]) {
        assert earlier[..i] == steps[..i];
      }
      EveryStableRunAgrees(earlier);
      StepExactly(s, steps[k]);
    }
  }

  /** Read node by node: the log's path, the record's path, the channel behind it and the subscription. */
  lemma {:induction false} AgreementReadOff(steps: seq<Step>, nodeId: NodeId)
    requires StableRun(steps) && Run(Initial, steps).nextChannelId < U64_MAX
    ensures var s := Run(Initial, steps);
      && LivePath(s.trace, nodeId) == EgressEndpoint(s, nodeId)
      && (nodeId in Subscribers(s.trace) <==>
            nodeId in s.sessions && s.sessions[nodeId].NotifySubscriberDeviceId().Some?)
      && (nodeId in s.sessions <==> exists d :: Resolves(s, d, nodeId))
      && (nodeId in s.sessions && s.sessions[nodeId].state.L2capPreferred? ==>
            var session := s.sessions[nodeId].state.session;
            session.L2cap? && session.channelId in s.channels
            && s.channels[session.channelId] == Channel(nodeId, session.deviceId))
      && (forall c :: c in s.channels && s.channels[c].nodeId == nodeId ==> nodeId in s.sessions && c < s.nextChannelId)
  {
    var s := Run(Initial, steps);
    EveryStableRunAgrees(steps);
    assert NodeAgrees(s, nodeId);
    if nodeId in s.sessions {
      var d := s.sessions[nodeId].PreferredEgress().value.deviceId;
      assert Resolves(s, d, nodeId) && OnPath(s, d, nodeId);
    }
  }

  // ----- Unicast dispatch -----

  /** In any state and under any failures: bounded, and only the last attempt can hand the payload over. */
  lemma {:induction false} UnicastHandsOverAtMostOnce(
    s: Runtime, deviceId: DeviceId, broken: set<nat>, closed: Option<nat>)
    ensures var attempts := Unicast(s, deviceId, broken, closed).1;
      && |attempts| <= |s.channels| + 1 + RoundsLeft(s, deviceId, closed)
      && forall i :: 0 <= i < |attempts| - 1 ==> !attempts[i].HandedOver()
    decreases |s.channels|, RoundsLeft(s, deviceId, closed)
  {
    match EgressSession(s, deviceId)
    case Some(L2cap(_, channelId)) =>
      if WriteFails(s, channelId, broken) && closed != Some(channelId) {
        var s1 := OnChannelClosed(s, channelId);
        ClosingShrinks(s, channelId);
        UnicastHandsOverAtMostOnce(s1, deviceId, broken, Some(channelId));
      }
    case _ =>
  }

  lemma EgressIsOwnRecord(s: Runtime, deviceId: DeviceId)
    requires MapsAgree(s)
    ensures EgressSession(s, deviceId) ==
            match ResolvedNode(s, deviceId)
            case Some(n) => if n in s.sessions then s.sessions[n].PreferredEgress() else None
            case None => None
  {
    forall n | n in s.sessions ensures s.sessions[n].EgressForDevice(deviceId).Some? <==> Resolves(s, deviceId, n) {
      assert NodeAgrees(s, n);
      var d := s.sessions[n].PreferredEgress().value.deviceId;
      assert Resolves(s, d, n);
    }
    match ResolvedNode(s, deviceId)
    case None => assert EgressNodes(s, deviceId) == {};
    case Some(n) =>
      assert Resolves(s, deviceId, n) && NodeAgrees(s, n) && OnPath(s, deviceId, n);
      assert EgressNodes(s, deviceId) == {n};
  }

  /** What dispatch does on a device whose proven node holds the record p. */
  ghost predicate ExactDispatch(s: Runtime, deviceId: DeviceId, p: PeerSessions, broken: set<nat>,
                                s': Runtime, attempts: seq<SendAttempt>) {
    if p.state.GattOnly? then attempts == [GattWrite(deviceId)] && s' == s
    else
      p.state.L2capPreferred? && p.state.session.L2cap?
      && var c := p.state.session.channelId;
         if c !in broken then attempts == [ChannelWrite(c, true)] && s' == s
         else attempts == [ChannelWrite(c, false), GattWrite(deviceId)] && s' == OnChannelClosed(s, c)
  }

  lemma FallbackTakesOver(s: Runtime, deviceId: DeviceId, n: NodeId, broken: set<nat>)
    requires MapsAgree(s) && Resolves(s, deviceId, n) && n in s.sessions && OnPath(s, deviceId, n)
    requires s.sessions[n].state.L2capPreferred? && s.sessions[n].state.session.channelId in broken
    ensures var c := s.sessions[n].state.session.channelId;
      && Unicast(s, deviceId, broken, None).0 == OnChannelClosed(s, c)
      && Unicast(s, deviceId, broken, None).1 == [ChannelWrite(c, false), GattWrite(deviceId)]
  {
    var session := s.sessions[n].state.session;
    var c := session.channelId;
    var s1 := OnChannelClosed(s, c);
    EgressIsOwnRecord(s, deviceId);
    ChannelClosedMaps(s, c);
    EgressIsOwnRecord(s1, deviceId);
    assert Resolves(s1, deviceId, n) && NodeAgrees(s1, n) && OnPath(s1, deviceId, n);
    LastRound(s1, deviceId, broken, Some(c), GattCentral(deviceId));
    RefusedRound(s, deviceId, broken, None, session, s1);
    assert [ChannelWrite(c, false)] + [GattWrite(deviceId)] == [ChannelWrite(c, false), GattWrite(deviceId)];
  }

  /** Under agreement dispatch is exact: the path in use, then GATT in the same call if the channel refuses. */
  lemma UnicastUnderAgreement(s: Runtime, deviceId: DeviceId, broken: set<nat>)
    requires MapsAgree(s)
    ensures ResolvedNode(s, deviceId) == None ==> Unicast(s, deviceId, broken, None) == (s, [])
    ensures forall n :: Resolves(s, deviceId, n) ==>
              n in s.sessions
              && ExactDispatch(s, deviceId, s.sessions[n], broken,
                               Unicast(s, deviceId, broken, None).0, Unicast(s, deviceId, broken, None).1)
  {
    EgressIsOwnRecord(s, deviceId);
    match ResolvedNode(s, deviceId)
    case None =>
    case Some(n) =>
      assert NodeAgrees(s, n) && Resolves(s, deviceId, n) && OnPath(s, deviceId, n);
      if s.sessions[n].state.L2capPreferred? {
        var c := s.sessions[n].state.session.channelId;
        if c in broken { FallbackTakesOver(s, deviceId, n, broken); }
      }
  }

  /** Every unicast sent on an endpoint the log reports as live leaves through exactly that path. */
  lemma DispatchFollowsTheLog(steps: seq<Step>, nodeId: NodeId, deviceId: DeviceId, broken: set<nat>)
    requires StableRun(steps) && Run(Initial, steps).nextChannelId < U64_MAX
    requires LivePath(Run(Initial, steps).trace, nodeId).Some?
    requires DeviceIdFromEndpoint(LivePath(Run(Initial, steps).trace, nodeId).value) == Some(deviceId)
    ensures var s := Run(Initial, steps);
      var endpoint := LivePath(s.trace, nodeId).value;
      var attempts := OnUnicast(s, endpoint, broken).1;
      && 1 <= |attempts| <= 2 && attempts[|attempts| - 1].HandedOver()
      && (attempts[0] == GattWrite(deviceId) <==> endpoint == GattEndpoint(deviceId))
      && (attempts[0].ChannelWrite? <==> endpoint == L2capEndpoint(deviceId))
      && (attempts[0].ChannelWrite? ==> attempts[0].channelId in s.channels
                                        && s.channels[attempts[0].channelId] == Channel(nodeId, deviceId))
  {
    var s := Run(Initial, steps);
    EveryStableRunAgrees(steps);
    assert NodeAgrees(s, nodeId);
    var session := s.sessions[nodeId].PreferredEgress().value;
    EndpointsNameTheirDevice(session.deviceId, NotifyFanoutEndpoint());
    assert LivePath(s.trace, nodeId) == EgressEndpoint(s, nodeId) == Some(session.Endpoint());
    assert session.deviceId == deviceId;
    assert Resolves(s, deviceId, nodeId) && OnPath(s, deviceId, nodeId);
    UnicastUnderAgreement(s, deviceId, broken);
  }

  // ----- Restored devices -----

  /** The node a restored device proves to be; an advertised one is only hinted. */
  function ProvenNode(step: Step): Option<NodeId>
    requires step.DeviceRestored?
  {
    if ParseDiscoveryHint(step.services).Some? then None else ParseNodeId(step.identityRead)
  }

  /** A restored device list without repeats. */
  ghost predicate RestoredList(steps: seq<Step>) {
    && (forall i :: 0 <= i < |steps| ==> steps[i].DeviceRestored?)
    && (forall i, j :: 0 <= i < j < |steps| ==> steps[i].deviceId != steps[j].deviceId)
  }

  /** Restoring a device the directory does not hold asks only that no other device has proven the node. */
  lemma FreshRestoreIsStable(s: Runtime, step: Step)
    requires step.DeviceRestored? && step.deviceId !in s.peers
    ensures StableIdentity(s, step) <==> ProvenNode(step) == None || forall d :: !Resolves(s, d, ProvenNode(step).value)
  {
  }

  lemma FreshRestoreProves(s: Runtime, step: Step)
    requires step.DeviceRestored? && step.deviceId !in s.peers
    ensures forall d :: d in Next(s, step).peers ==> d in s.peers || d == step.deviceId
    ensures forall d, n :: Resolves(Next(s, step), d, n) <==>
                             Resolves(s, d, n) || (d == step.deviceId && ProvenNode(step) == Some(n))
  {
  }

  ghost predicate Listed(steps: seq<Step>, k: nat, d: DeviceId)
    requires k <= |steps| && forall i :: 0 <= i < |steps| ==> steps[i].DeviceRestored?
  {
    exists i :: 0 <= i < k && steps[i].deviceId == d
  }

  ghost predicate ListedAs(steps: seq<Step>, k: nat, d: DeviceId, n: NodeId)
    requires k <= |steps| && forall i :: 0 <= i < |steps| ==> steps[i].DeviceRestored?
  {
    exists i :: 0 <= i < k && steps[i].deviceId == d && ProvenNode(steps[i]) == Some(n)
  }

  /** The first k entries of such a list prove exactly what their devices read. */
  lemma {:induction false} RestoredDirectory(steps: seq<Step>, k: nat)
    requires RestoredList(steps) && k <= |steps|
    ensures forall d :: d in Run(Initial, steps[..k]).peers ==> Listed(steps, k, d)
    ensures forall d, n :: Resolves(Run(Initial, steps[..k]), d, n) <==> ListedAs(steps, k, d, n)
  {
    if k > 0 {
      var s := Run(Initial, steps[..k - 1]);
      var step := steps[k - 1];
      assert steps[..k][..k - 1] == steps[..k - 1];
      assert Run(Initial, steps[..k]) == Next(s, step);
      RestoredDirectory(steps, k - 1);
      assert !Listed(steps, k - 1, step.deviceId);
      FreshRestoreProves(s, step);
      forall d | Listed(steps, k - 1, d) || d == step.deviceId ensures Listed(steps, k, d) {
        if d == step.deviceId { assert steps[k - 1].deviceId == d; }
      }
      forall d, n ensures ListedAs(steps, k, d, n) <==>
                          ListedAs(steps, k - 1, d, n) || (d == step.deviceId && ProvenNode(step) == Some(n))
      {
        ListedAsGrows(steps, k, d, n);
      }
    }
  }

  lemma ListedAsGrows(steps: seq<Step>, k: nat, d: DeviceId, n: NodeId)
    requires 0 < k <= |steps| && forall i :: 0 <= i < |steps| ==> steps[i].DeviceRestored?
    ensures ListedAs(steps, k, d, n) <==>
              || ListedAs(steps, k - 1, d, n)
              || (d == steps[k - 1].deviceId && ProvenNode(steps[k - 1]) == Some(n))
  {
  }

  /** So rehydration is stable if and only if no two devices of the list prove the same node. */
  lemma {:induction false} RestoredListStableExactly(steps: seq<Step>)
    requires RestoredList(steps)
    ensures StableRun(steps) <==>
              forall i, j :: 0 <= i < j < |steps| && ProvenNode(steps[i]).Some? ==>
                ProvenNode(steps[i]) != ProvenNode(steps[j])
  {
    forall j | 0 <= j < |steps|
      ensures StableIdentity(Run(Initial, steps[..j]), steps[j]) <==> ProvesNewNode(steps, j)
    {
      RestoredDirectory(steps, j);
      FreshRestoreIsStable(Run(Initial, steps[..j]), steps[j]);
      ProvesNewNodeExactly(steps, j);
    }
    assert StableRun(steps) <==> forall j :: 0 <= j < |steps| ==> ProvesNewNode(steps, j);
  }

  ghost predicate ProvesNewNode(steps: seq<Step>, j: nat)
    requires j < |steps| && forall i :: 0 <= i < |steps| ==> steps[i].DeviceRestored?
  {
    forall i :: 0 <= i < j && ProvenNode(steps[i]).Some? ==> ProvenNode(steps[i]) != ProvenNode(steps[j])
  }

  lemma ProvesNewNodeExactly(steps: seq<Step>, j: nat)
    requires j < |steps| && forall i :: 0 <= i < |steps| ==> steps[i].DeviceRestored?
    ensures ProvesNewNode(steps, j) <==>
              || ProvenNode(steps[j]) == None
              || forall d :: !ListedAs(steps, j, d, ProvenNode(steps[j]).value)
  {
    if i :| 0 <= i < j && ProvenNode(steps[i]).Some? && ProvenNode(steps[i]) == ProvenNode(steps[j]) {
      assert ListedAs(steps, j, steps[i].deviceId, ProvenNode(steps[j]).value);
    }
  }

  // ----- Without stable identity -----

  const NoUpgrade := Upgrade(None, false, false)

  const FullUpgrade := Upgrade(Some([1, 0]), true, true)

  /** Two devices that prove the same node. */
  function TwoDevicesOneNode(d1: DeviceId, d2: DeviceId, nodeId: NodeId): seq<Step> {
    [ DeviceDiscovered(d1, [DiscoveryServiceUuid(nodeId)]),
      DeviceConnected(d1, Some(nodeId.bytes), FullUpgrade),
      DeviceDiscovered(d2, [DiscoveryServiceUuid(nodeId)]),
      DeviceConnected(d2, Some(nodeId.bytes), NoUpgrade) ]
  }

  function RecordOf(d: DeviceId): PeerSessions {
    PeerSessions(L2capPreferred(L2cap(d, 1), Some(GattCentral(d))), [])
  }

  lemma OneDeviceRun(d: DeviceId, nodeId: NodeId) returns (s: Runtime)
    ensures s == Next(Next(Initial, DeviceDiscovered(d, [DiscoveryServiceUuid(nodeId)])),
                      DeviceConnected(d, Some(nodeId.bytes), FullUpgrade))
    ensures s.peers == map[d := Resolved(nodeId)] && s.sessions == map[nodeId := RecordOf(d)]
    ensures s.channels == map[1 := Channel(nodeId, d)]
  {
    DiscoveryHintRoundTrip([], nodeId, []);
    assert [] + [DiscoveryServiceUuid(nodeId)] + [] == [DiscoveryServiceUuid(nodeId)];
    var s1 := Next(Initial, DeviceDiscovered(d, [DiscoveryServiceUuid(nodeId)]));
    assert s1 == Runtime(map[d := Hint(NodeIdPrefix(nodeId))], map[], map[], 1, [Advertised(d, NodeIdPrefix(nodeId))]);
    s := Next(s1, DeviceConnected(d, Some(nodeId.bytes), FullUpgrade));
    assert FullUpgrade.Succeeds();
    FallbackClosedForm(GattWithFallback(GattCentral(d)));
  }

  lemma SecondDevice(s: Runtime, d1: DeviceId, d2: DeviceId, nodeId: NodeId) returns (s': Runtime)
    requires d1 != d2 && s.peers == map[d1 := Resolved(nodeId)] && s.sessions == map[nodeId := RecordOf(d1)]
    ensures s' == Next(Next(s, DeviceDiscovered(d2, [DiscoveryServiceUuid(nodeId)])),
                       DeviceConnected(d2, Some(nodeId.bytes), NoUpgrade))
    ensures s'.peers == map[d1 := Resolved(nodeId), d2 := Resolved(nodeId)]
    ensures s'.sessions == s.sessions && s'.channels == s.channels
    ensures |s'.trace| > 0 && s'.trace[|s'.trace| - 1] == Link(nodeId, GattEndpoint(d2), Active)
  {
    DiscoveryHintRoundTrip([], nodeId, []);
    assert [] + [DiscoveryServiceUuid(nodeId)] + [] == [DiscoveryServiceUuid(nodeId)];
    var s1 := Next(s, DeviceDiscovered(d2, [DiscoveryServiceUuid(nodeId)]));
    assert s1.peers == map[d1 := Resolved(nodeId), d2 := Hint(NodeIdPrefix(nodeId))];
    s' := Next(s1, DeviceConnected(d2, Some(nodeId.bytes), NoUpgrade));
    assert s'.sessions == s1.sessions;
  }

  lemma RunOfFour(s: Runtime, steps: seq<Step>)
    requires |steps| == 4
    ensures Run(s, steps) == Next(Next(Next(Next(s, steps[0]), steps[1]), steps[2]), steps[3])
  {
    assert steps[..3][..2] == steps[..2] && steps[..2][..1] == steps[..1] && steps[..1][..0] == [];
    assert Run(s, steps[..1]) == Next(s, steps[0]);
    assert Run(s, steps[..2]) == Next(Run(s, steps[..1]), steps[1]);
    assert Run(s, steps[..3]) == Next(Run(s, steps[..2]), steps[2]);
  }

  lemma TwoDevicesRun(d1: DeviceId, d2: DeviceId, nodeId: NodeId) returns (s: Runtime)
    requires d1 != d2
    ensures s == Run(Initial, TwoDevicesOneNode(d1, d2, nodeId))
    ensures s.peers == map[d1 := Resolved(nodeId), d2 := Resolved(nodeId)]
    ensures s.sessions == map[nodeId := RecordOf(d1)] && s.channels == map[1 := Channel(nodeId, d1)]
    ensures |s.trace| > 0 && s.trace[|s.trace| - 1] == Link(nodeId, GattEndpoint(d2), Active)
  {
    s := OneDeviceRun(d1, nodeId);
    s := SecondDevice(s, d1, d2, nodeId);
    RunOfFour(Initial, TwoDevicesOneNode(d1, d2, nodeId));
  }

  lemma SecondDeviceLeaves(s: Runtime, d1: DeviceId, d2: DeviceId, nodeId: NodeId) returns (after: Runtime)
    requires d1 != d2 && s.peers == map[d1 := Resolved(nodeId), d2 := Resolved(nodeId)]
    requires s.sessions == map[nodeId := RecordOf(d1)] && s.channels == map[1 := Channel(nodeId, d1)]
    ensures after == Next(s, DeviceDisconnected(d2))
    ensures after.channels == map[] && after.sessions == s.sessions
  {
    after := Next(s, DeviceDisconnected(d2));
    var p := s.sessions[nodeId];
    assert p.Sessions() == [L2cap(d1, 1), GattCentral(d1)];
    assert !p.ReferencesDevice(d2);
    assert after.sessions == s.sessions;
    assert after.channels == map[];
  }

  /**
   * With two live devices for one node the log names a path the record does not use; and when the second
   * device leaves, the record keeps a channel that is gone, so a unicast on it is not handed to anything
   * although a GATT fallback is recorded.
   */
  lemma UnstableIdentityBreaksAgreement(d1: DeviceId, d2: DeviceId, nodeId: NodeId, broken: set<nat>)
    requires d1 != d2
    ensures var s := Run(Initial, TwoDevicesOneNode(d1, d2, nodeId));
      && LivePath(s.trace, nodeId) == Some(GattEndpoint(d2))
      && EgressEndpoint(s, nodeId) == Some(L2capEndpoint(d1))
      && var after := Next(s, DeviceDisconnected(d2));
         && after.channels == map[]
         && after.sessions == s.sessions
         && Unicast(after, d1, broken, None) == (after, [NoChannel(1), NoChannel(1)])
  {
    var s := TwoDevicesRun(d1, d2, nodeId);
    EndpointsNameTheirDevice(d2, NotifyFanoutEndpoint());
    var after := SecondDeviceLeaves(s, d1, d2, nodeId);
    SpentFallback(after, d1, nodeId, broken);
  }

  /** A record that keeps a channel which is gone: closing it changes nothing, so the second look ends the loop. */
  lemma SpentFallback(after: Runtime, d1: DeviceId, nodeId: NodeId, broken: set<nat>)
    requires after.sessions == map[nodeId := RecordOf(d1)] && after.channels == map[]
    ensures Unicast(after, d1, broken, None) == (after, [NoChannel(1), NoChannel(1)])
  {
    assert EgressNodes(after, d1) == {nodeId};
    assert EgressSession(after, d1) == Some(L2cap(d1, 1));
    assert OnChannelClosed(after, 1) == after;
    assert Unicast(after, d1, broken, Some(1)) == (after, [NoChannel(1)]);
    var once := [NoChannel(1)];
    assert once + once == [NoChannel(1), NoChannel(1)];
    assert Unicast(after, d1, broken, None) == (after, once + once);
  }
}

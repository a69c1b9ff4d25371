/**
 * Whether a unicast is handed over, in every reachable state and with no assumption on identities. The one
 * fact needed is an invariant of its own: a live channel belongs to the record that prefers it.
 */
module RuntimeDelivery {
  import opened Identity
  import opened Gatt
  import opened Sessions
  import opened RuntimeSpec
  import RuntimeTheorems

  // ----- Channels and the records that prefer them -----

  /** A record's preferred channel has a spent id and, while it lives, is the record's own. */
  ghost predicate OwnsPreferred(s: Runtime, n: NodeId, state: PeerSessionState) {
    && StateValid(state)
    && (state.L2capPreferred? ==>
          && state.session.channelId < s.nextChannelId
          && (state.session.channelId in s.channels ==>
                s.channels[state.session.channelId] == Channel(n, state.session.deviceId)))
  }

  ghost predicate Owned(s: Runtime) {
    && (forall c :: c in s.channels ==> c < s.nextChannelId)
    && (forall n :: n in s.sessions ==> OwnsPreferred(s, n, s.sessions[n].state))
  }

  lemma InstallL2capKeepsOwned(s: Runtime, nodeId: NodeId, deviceId: DeviceId)
    requires Owned(s) && s.nextChannelId < U64_MAX
    ensures Owned(InstallL2capSession(s, nodeId, deviceId))
  {
    if nodeId in s.sessions { FallbackClosedForm(s.sessions[nodeId]); }
  }

  lemma InstallGattKeepsOwned(s: Runtime, nodeId: NodeId, deviceId: DeviceId)
    requires Owned(s)
    ensures Owned(InstallGattSession(s, nodeId, deviceId))
  {
  }

  lemma InstallResolvedKeepsOwned(s: Runtime, nodeId: NodeId, deviceId: DeviceId, upgrade: Upgrade, fromHint: bool)
    requires Owned(s) && s.nextChannelId < U64_MAX
    ensures Owned(InstallResolvedPeer(s, nodeId, deviceId, upgrade, fromHint))
  {
    var proved := s.(peers := s.peers[deviceId := Resolved(nodeId)]);
    var s1 := Record(proved, Identified(deviceId, nodeId, fromHint));
    assert Owned(s1);
    InstallGattKeepsOwned(s1, nodeId, deviceId);
    var s2 := EmitLink(InstallGattSession(s1, nodeId, deviceId), nodeId, GattEndpoint(deviceId), Active);
    assert Owned(s2);
    if upgrade.Succeeds() { InstallL2capKeepsOwned(s2, nodeId, deviceId); }
  }

  lemma ChannelClosedKeepsOwned(s: Runtime, channelId: nat)
    requires Owned(s)
    ensures Owned(OnChannelClosed(s, channelId))
  {
  }

  lemma {:induction false} UnicastKeepsOwned(s: Runtime, deviceId: DeviceId, broken: set<nat>, closed: Option<nat>)
    requires Owned(s)
    ensures Owned(Unicast(s, deviceId, broken, closed).0)
    decreases |s.channels|, RoundsLeft(s, deviceId, closed)
  {
    if EgressSession(s, deviceId).Some? && !LastLook(s, broken, closed, EgressSession(s, deviceId).value) {
      var session := EgressSession(s, deviceId).value;
      var s1 := OnChannelClosed(s, session.channelId);
      RefusedRound(s, deviceId, broken, closed, session, s1);
      ChannelClosedKeepsOwned(s, session.channelId);
      UnicastKeepsOwned(s1, deviceId, broken, Some(session.channelId));
    }
  }

  lemma ConnectedKeepsOwned(s: Runtime, deviceId: DeviceId, read: Option<seq<Byte>>, upgrade: Upgrade)
    requires Owned(s) && s.nextChannelId < U64_MAX
    ensures Owned(OnConnected(s, deviceId, read, upgrade))
  {
    if ParseNodeId(read).Some? { InstallResolvedKeepsOwned(s, ParseNodeId(read).value, deviceId, upgrade, true); }
  }

  lemma RestoredKeepsOwned(s: Runtime, deviceId: DeviceId, services: seq<Uuid>, read: Option<seq<Byte>>,
                           upgrade: Upgrade)
    requires Owned(s) && s.nextChannelId < U64_MAX
    ensures Owned(OnRestored(s, deviceId, services, read, upgrade))
  {
    if ParseNodeId(read).Some? { InstallResolvedKeepsOwned(s, ParseNodeId(read).value, deviceId, upgrade, false); }
  }

  lemma StepKeepsOwned(s: Runtime, step: Step)
    requires Owned(s) && s.nextChannelId < U64_MAX
    ensures Owned(Next(s, step))
  {
    match step
    case DeviceConnected(deviceId, read, upgrade) =>
      ConnectedKeepsOwned(s, deviceId, read, upgrade);
    case DeviceRestored(deviceId, services, read, upgrade) =>
      RestoredKeepsOwned(s, deviceId, services, read, upgrade);
    case L2capAccepted(deviceId, claimed) =>
      if claimed.Some? { InstallL2capKeepsOwned(s, claimed.value, deviceId); }
    case ChannelClosed(channelId) => ChannelClosedKeepsOwned(s, channelId);
    case UnicastDispatched(endpoint, broken) =>
      if DeviceIdFromEndpoint(endpoint).Some? {
        UnicastKeepsOwned(s, DeviceIdFromEndpoint(endpoint).value, broken, None);
      }
    case _ => QuietStepKeepsOwned(s, step);
  }

  lemma QuietStepKeepsOwned(s: Runtime, step: Step)
    requires Owned(s)
    requires !step.DeviceConnected? && !step.DeviceRestored? && !step.L2capAccepted?
    requires !step.ChannelClosed? && !step.UnicastDispatched?
    ensures Owned(Next(s, step))
  {
  }

  /** In every reachable state below the id ceiling, whoever the devices claim to be. */
  lemma {:induction false} EveryRunOwnsItsChannels(steps: seq<Step>)
    requires Run(Initial, steps).nextChannelId < U64_MAX
    ensures Owned(Run(Initial, steps))
    decreases |steps|
  {
    if |steps| > 0 {
      var k := |steps| - 1;
      RuntimeTheorems.StepChannels(Run(Initial, steps[..k]), steps[k]);
      EveryRunOwnsItsChannels(steps[..k]);
      StepKeepsOwned(Run(Initial, steps[..k]), steps[k]);
    }
  }

  // ----- Which record decides -----

  /** The record ends the dispatch: its path is not a live channel that refuses and has no fallback on the device. */
  ghost predicate Decides(s: Runtime, deviceId: DeviceId, broken: set<nat>, n: NodeId) {
    && n in s.sessions && s.sessions[n].EgressForDevice(deviceId).Some?
    && var session := s.sessions[n].EgressForDevice(deviceId).value;
       || session.GattCentral?
       || session.channelId !in s.channels
       || session.channelId !in broken
       || (s.sessions[n].state.L2capPreferred? && s.sessions[n].state.fallback == Some(GattCentral(deviceId)))
  }

  ghost function Deciding(s: Runtime, deviceId: DeviceId, broken: set<nat>): set<NodeId> {
    set n | n in s.sessions && Decides(s, deviceId, broken, n)
  }

  /** The record prefers a channel that is gone. */
  ghost predicate PrefersDropped(s: Runtime, n: NodeId) {
    && n in s.sessions && s.sessions[n].PreferredEgress().Some?
    && s.sessions[n].PreferredEgress().value.L2cap?
    && s.sessions[n].PreferredEgress().value.channelId !in s.channels
  }

  predicate HandedOver(attempts: seq<SendAttempt>) {
    |attempts| > 0 && attempts[|attempts| - 1].HandedOver()
  }

  /** Read off the state before the call: the first deciding record exists and is not on a dropped channel. */
  ghost predicate WillHandOver(s: Runtime, deviceId: DeviceId, broken: set<nat>) {
    && Deciding(s, deviceId, broken) != {}
    && !PrefersDropped(s, First(Deciding(s, deviceId, broken)))
  }

  lemma FirstOfSubset(n: NodeId, small: set<NodeId>, large: set<NodeId>)
    requires small <= large && large != {} && n == First(large) && n in small
    ensures First(small) == n
  {
    FirstUnique(First(small), n, small);
  }

  /** The last look: the first record on the device decides. */
  lemma LastLookDecides(s: Runtime, deviceId: DeviceId, broken: set<nat>, closed: Option<nat>, session: BleSession)
    requires EgressSession(s, deviceId) == Some(session) && LastLook(s, broken, closed, session)
    requires closed.Some? ==> closed.value !in s.channels
    ensures WillHandOver(s, deviceId, broken) <==> SessionAttempt(s, session, broken).HandedOver()
  {
    var n := First(EgressNodes(s, deviceId));
    assert Decides(s, deviceId, broken, n);
    FirstOfSubset(n, Deciding(s, deviceId, broken), EgressNodes(s, deviceId));
  }

  /** A refused live channel: closing it leaves the deciding records, and what they are on, as they were. */
  lemma ClosingKeepsDeciders(s: Runtime, deviceId: DeviceId, broken: set<nat>, n: NodeId)
    requires Owned(s) && n in s.sessions && s.sessions[n].state.L2capPreferred?
    requires s.sessions[n].state.session.deviceId == deviceId
    requires s.sessions[n].state.session.channelId in s.channels && s.sessions[n].state.session.channelId in broken
    ensures var s1 := OnChannelClosed(s, s.sessions[n].state.session.channelId);
      && Deciding(s1, deviceId, broken) == Deciding(s, deviceId, broken)
      && forall m :: m in Deciding(s, deviceId, broken) ==> (PrefersDropped(s1, m) <==> PrefersDropped(s, m))
  {
    var c := s.sessions[n].state.session.channelId;
    var s1 := OnChannelClosed(s, c);
    assert OwnsPreferred(s, n, s.sessions[n].state);
    assert s.channels[c].nodeId == n;
    forall m | m in s.sessions
      ensures Decides(s1, deviceId, broken, m) <==> Decides(s, deviceId, broken, m)
      ensures Decides(s, deviceId, broken, m) ==> (PrefersDropped(s1, m) <==> PrefersDropped(s, m))
    {
      assert OwnsPreferred(s, m, s.sessions[m].state);
      if m != n { assert s1.sessions[m] == s.sessions[m]; }
    }
    assert s1.sessions.Keys == s.sessions.Keys;
  }

  /** A channel that is gone is looked at twice, and then given up. */
  lemma DroppedIsGivenUp(s: Runtime, deviceId: DeviceId, broken: set<nat>, closed: Option<nat>, session: BleSession)
    requires EgressSession(s, deviceId) == Some(session) && session.L2cap? && session.channelId !in s.channels
    requires closed != Some(session.channelId)
    ensures Unicast(s, deviceId, broken, closed).1 == [NoChannel(session.channelId), NoChannel(session.channelId)]
    ensures !WillHandOver(s, deviceId, broken)
  {
    var c := session.channelId;
    ClosingShrinks(s, c);
    RefusedRound(s, deviceId, broken, closed, session, s);
    LastRound(s, deviceId, broken, Some(c), session);
    LastLookDecides(s, deviceId, broken, Some(c), session);
    assert [NoChannel(c)] + [NoChannel(c)] == [NoChannel(c), NoChannel(c)];
  }

  lemma {:induction false} DispatchDecided(s: Runtime, deviceId: DeviceId, broken: set<nat>, closed: Option<nat>)
    requires Owned(s) && (closed.Some? ==> closed.value !in s.channels)
    ensures HandedOver(Unicast(s, deviceId, broken, closed).1) <==> WillHandOver(s, deviceId, broken)
    decreases |s.channels|, RoundsLeft(s, deviceId, closed)
  {
    match EgressSession(s, deviceId)
    case None => assert EgressNodes(s, deviceId) == {} && Deciding(s, deviceId, broken) == {};
    case Some(session) =>
      if LastLook(s, broken, closed, session) {
        LastRound(s, deviceId, broken, closed, session);
        LastLookDecides(s, deviceId, broken, closed, session);
      } else if session.channelId !in s.channels {
        DroppedIsGivenUp(s, deviceId, broken, closed, session);
      } else {
        var n := First(EgressNodes(s, deviceId));
        assert OwnsPreferred(s, n, s.sessions[n].state);
        var s1 := OnChannelClosed(s, session.channelId);
        RefusedRound(s, deviceId, broken, closed, session, s1);
        ChannelClosedKeepsOwned(s, session.channelId);
        ClosingKeepsDeciders(s, deviceId, broken, n);
        DispatchDecided(s1, deviceId, broken, Some(session.channelId));
      }
  }

  /**
   * A unicast is handed over if and only if some record decides and the first that does is not on a dropped
   * channel. Every reachable state, every device, every pattern of refusals, no assumption on identities.
   */
  lemma HandedOverExactly(steps: seq<Step>, deviceId: DeviceId, broken: set<nat>)
    requires Run(Initial, steps).nextChannelId < U64_MAX
    ensures var s := Run(Initial, steps);
      HandedOver(Unicast(s, deviceId, broken, None).1) <==> WillHandOver(s, deviceId, broken)
  {
    EveryRunOwnsItsChannels(steps);
    DispatchDecided(Run(Initial, steps), deviceId, broken, None);
  }

  /** With a recorded GATT fallback a unicast is lost if and only if the channel was dropped under the record. */
  lemma FallbackLostExactly(steps: seq<Step>, deviceId: DeviceId, channelId: nat, broken: set<nat>)
    requires Run(Initial, steps).nextChannelId < U64_MAX
    requires EgressNodes(Run(Initial, steps), deviceId) != {}
    requires var s := Run(Initial, steps);
      s.sessions[First(EgressNodes(s, deviceId))].state
      == L2capPreferred(L2cap(deviceId, channelId), Some(GattCentral(deviceId)))
    ensures var s := Run(Initial, steps);
      HandedOver(Unicast(s, deviceId, broken, None).1) <==> channelId in s.channels
  {
    var s := Run(Initial, steps);
    var n := First(EgressNodes(s, deviceId));
    HandedOverExactly(steps, deviceId, broken);
    assert Decides(s, deviceId, broken, n);
    FirstOfSubset(n, Deciding(s, deviceId, broken), EgressNodes(s, deviceId));
  }
}

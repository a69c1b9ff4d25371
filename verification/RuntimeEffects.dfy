/**
 * What each handler brings about, in any state and with nothing assumed about identities: the entries it adds to
 * the history and the whole of the new state, told by devices, nodes and endpoints.
 */
module RuntimeEffects {
  import opened Identity
  import opened Gatt
  import opened Sessions
  import opened RuntimeSpec
  import opened RuntimeAgreement
  import Notify

  /** Everything but one node's record, and but the history, is as it was. */
  ghost predicate OnlyRecordMoved(s: Runtime, s': Runtime, n: NodeId) {
    && s'.peers == s.peers && s'.channels == s.channels && s'.nextChannelId == s.nextChannelId
    && s'.sessions.Keys == s.sessions.Keys + {n}
    && forall m :: m in s.sessions && m != n ==> s'.sessions[m] == s.sessions[m]
  }

  // ----- Subscriptions -----

  /** A proven device that subscribes is on its node's record, in the log and up for multicast; else nothing happens. */
  lemma SubscriptionTakesHold(s: Runtime, d: DeviceId)
    ensures var s' := Next(s, P2cSubscribed(d));
      && (forall n :: Resolves(s, d, n) ==>
            && s'.trace == s.trace + [Link(n, NotifyFanoutEndpoint(), Active)] && n in Subscribers(s'.trace)
            && OnlyRecordMoved(s, s', n) && s'.sessions[n].Subscribed(d)
            && n in Notify.AllSubscribers(s'.sessions)
            && s'.sessions[n].state == (if n in s.sessions then s.sessions[n].state else Disconnected)
            && forall e :: e != d ==>
                 (s'.sessions[n].Subscribed(e) <==> n in s.sessions && s.sessions[n].Subscribed(e)))
      && ((forall n :: !Resolves(s, d, n)) ==> s' == s)
  {
    if n :| Resolves(s, d, n) {
      var s' := Next(s, P2cSubscribed(d));
      Replayed(s.trace, Link(n, NotifyFanoutEndpoint(), Active));
      if n in s.sessions {
        forall e ensures s'.sessions[n].Subscribed(e) <==> e == d || s.sessions[n].Subscribed(e) {
          ApplyDecidesSubscription(s.sessions[n], Subscribe(d), e);
        }
      } else {
        assert s'.sessions[n].notifySubscribers[0].deviceId == d;
      }
      assert s'.sessions[n].Subscribed(d);
    } else {
      if ResolvedNode(s, d).Some? { assert Resolves(s, d, s.peers[d].nodeId); }
    }
  }

  /** A subscriber that unsubscribes is off the record and reported faulted; other withdrawals change nothing. */
  lemma UnsubscriptionTakesHold(s: Runtime, d: DeviceId)
    ensures var s' := Next(s, P2cUnsubscribed(d));
      && (forall n :: Resolves(s, d, n) && n in s.sessions && s.sessions[n].Subscribed(d) ==>
            && s'.trace == s.trace + [Link(n, NotifyFanoutEndpoint(), Faulted)] && n !in Subscribers(s'.trace)
            && OnlyRecordMoved(s, s', n) && s'.sessions[n].state == s.sessions[n].state
            && !s'.sessions[n].Subscribed(d)
            && forall e :: e != d ==> (s'.sessions[n].Subscribed(e) <==> s.sessions[n].Subscribed(e)))
      && ((forall n :: Resolves(s, d, n) ==> n !in s.sessions || !s.sessions[n].Subscribed(d)) ==> s' == s)
  {
    match ResolvedNode(s, d)
    case None =>
    case Some(n) =>
      assert Resolves(s, d, n);
      if n in s.sessions {
        var p := s.sessions[n];
        WithoutFilters(p.notifySubscribers, d);
        SubscribedIsMember(p, d);
        if p.Subscribed(d) {
          Replayed(s.trace, Link(n, NotifyFanoutEndpoint(), Faulted));
          forall e ensures Next(s, P2cUnsubscribed(d)).sessions[n].Subscribed(e) <==> e != d && p.Subscribed(e) {
            ApplyDecidesSubscription(p, Unsubscribe(d), e);
          }
        } else {
          assert p.RemoveGattSubscription(d) == (p, false);
          assert s.sessions[n := p] == s.sessions;
        }
      }
  }

  /** Under agreement a withdrawal leaves no subscriber: not on the record, not in the log, not for any multicast. */
  lemma UnsubscriptionEndsSubscription(s: Runtime, d: DeviceId, n: NodeId)
    requires Coherent(s) && Resolves(s, d, n)
    ensures var s' := Next(s, P2cUnsubscribed(d));
      && n !in Subscribers(s'.trace) && n !in Notify.AllSubscribers(s'.sessions)
      && n in s'.sessions && s'.sessions[n].notifySubscribers == []
      && LivePath(s'.trace, n) == LivePath(s.trace, n)
  {
    var s' := Next(s, P2cUnsubscribed(d));
    assert NodeAgrees(s, n) && OnPath(s, d, n);
    SubscribeKeeps(s, d);
    UnsubscriptionTakesHold(s, d);
    var p := s.sessions[n];
    if p.notifySubscribers != [] {
      assert p.notifySubscribers[0].deviceId == d && p.Subscribed(d);
      Replayed(s.trace, Link(n, NotifyFanoutEndpoint(), Faulted));
      assert NodeAgrees(s', n) && OnPath(s', d, n);
      SubscribedIsMember(s'.sessions[n], d);
    } else {
      assert !p.Subscribed(d);
    }
  }

  // ----- Payloads -----

  /** A write or notification of a proven device becomes one payload of its node, bytes and all; else nothing. */
  lemma PayloadsPassedOn(s: Runtime, d: DeviceId, value: seq<Byte>)
    ensures Next(s, C2pWritten(d, value)) == Next(s, P2cNotified(d, value))
    ensures var s' := Next(s, C2pWritten(d, value));
      && (forall n :: Resolves(s, d, n) ==> s' == s.(trace := s.trace + [Payload(n, GattEndpoint(d), value)]))
      && ((forall n :: !Resolves(s, d, n)) ==> s' == s)
  {
    if ResolvedNode(s, d).Some? { assert Resolves(s, d, ResolvedNode(s, d).value); }
  }

  /** A frame becomes one payload of its channel's node on its channel's device, bytes and all. */
  lemma FramesPassedOn(s: Runtime, c: nat, n: NodeId, d: DeviceId, payload: seq<Byte>)
    ensures c in s.channels && s.channels[c] == Channel(n, d) ==>
              Next(s, FrameReceived(c, payload)) == s.(trace := s.trace + [Payload(n, L2capEndpoint(d), payload)])
    ensures c !in s.channels ==> Next(s, FrameReceived(c, payload)) == s
  {
  }

  // ----- Identity -----

  /** An advertised prefix is remembered as a hint, unless the device is already proven. */
  lemma DiscoveryTakesHold(s: Runtime, d: DeviceId, before: seq<Uuid>, n: NodeId, after: seq<Uuid>)
    requires forall i :: 0 <= i < |before| ==> before[i][..4] != HINT_NAMESPACE
    ensures var s' := Next(s, DeviceDiscovered(d, before + [DiscoveryServiceUuid(n)] + after));
      && s'.trace == s.trace + [Advertised(d, NodeIdPrefix(n))]
      && s' == s.(trace := s'.trace, peers := s'.peers)
      && s'.peers == (if exists m :: Resolves(s, d, m) then s.peers else s.peers[d := Hint(NodeIdPrefix(n))])
  {
    DiscoveryHintRoundTrip(before, n, after);
    if ResolvedNode(s, d).Some? { assert Resolves(s, d, ResolvedNode(s, d).value); }
  }

  /** The upgrade went through: a usable PSM was read, the channel opened and the identity written. */
  predicate Upgraded(upgrade: Upgrade) {
    upgrade.psmRead.Some? && ParsePsm(upgrade.psmRead.value).Some? && upgrade.channelOpened && upgrade.identityWritten
  }

  /** What a proof of n on d brings: directory, record, channel, and two or three entries of history. */
  ghost predicate Installed(s: Runtime, s': Runtime, d: DeviceId, n: NodeId, fromHint: bool, upgraded: bool) {
    && s'.peers == s.peers[d := Resolved(n)]
    && s'.trace == s.trace + [Identified(d, n, fromHint), Link(n, GattEndpoint(d), Active)]
                   + (if upgraded then [Link(n, L2capEndpoint(d), Active)] else [])
    && s'.channels == (if upgraded then s.channels[s.nextChannelId := Channel(n, d)] else s.channels)
    && s'.nextChannelId == (if upgraded && s.nextChannelId < U64_MAX then s.nextChannelId + 1 else s.nextChannelId)
    && s'.sessions.Keys == s.sessions.Keys + {n}
    && (forall m :: m in s.sessions && m != n ==> s'.sessions[m] == s.sessions[m])
    && var p' := s'.sessions[n];
       var onL2cap := n in s.sessions && s.sessions[n].state.L2capPreferred?;
       && p'.notifySubscribers == (if n in s.sessions then s.sessions[n].notifySubscribers else [])
       && p'.PreferredEgress() ==
            (if upgraded then Some(L2cap(d, s.nextChannelId))
             else if onL2cap then s.sessions[n].PreferredEgress() else Some(GattCentral(d)))
       && (!upgraded && !onL2cap ==> p'.state == GattOnly(GattCentral(d), GattCentral(d)))
       && p'.FirstGattFallback() ==
            (if onL2cap && s.sessions[n].FirstGattFallback().Some? then s.sessions[n].FirstGattFallback()
             else Some(GattCentral(d)))
  }

  lemma InstallTakesHold(s: Runtime, d: DeviceId, n: NodeId, upgrade: Upgrade, fromHint: bool)
    requires n in s.sessions ==> StateValid(s.sessions[n].state)
    ensures Installed(s, InstallResolvedPeer(s, n, d, upgrade, fromHint), d, n, fromHint, Upgraded(upgrade))
  {
    var proof, gatt := Identified(d, n, fromHint), Link(n, GattEndpoint(d), Active);
    var s2 := GattAnnounced(s, n, d, fromHint);
    assert s2.trace == s.trace + [proof] + [gatt] == s.trace + [proof, gatt];
    if n in s.sessions {
      FallbackClosedForm(s.sessions[n]);
      InstallExactly(s.sessions[n], GattCentral(d));
    } else {
      FallbackClosedForm(GattWithFallback(GattCentral(d)));
    }
    FallbackClosedForm(s2.sessions[n]);
    FallbackClosedForm(s2.sessions[n].PromoteL2cap(L2cap(d, s.nextChannelId)));
  }

  /** A hinted device that reads a matching identity is installed; a mismatch forgets the hint; else nothing. */
  lemma ConnectTakesHold(s: Runtime, d: DeviceId, read: Option<seq<Byte>>, upgrade: Upgrade)
    requires forall n :: n in s.sessions ==> StateValid(s.sessions[n].state)
    ensures var s' := Next(s, DeviceConnected(d, read, upgrade));
      && (forall n: NodeId :: read == Some(n.bytes) && d in s.peers && s.peers[d] == Hint(n.bytes[..6]) ==>
            Installed(s, s', d, n, true, Upgraded(upgrade)))
      && (forall n: NodeId, prefix ::
            (read == Some(n.bytes) && d in s.peers && s.peers[d] == Hint(prefix) && prefix != n.bytes[..6]) ==>
              s' == s.(peers := s.peers - {d}))
      && (read == None || |read.value| != 32 || d !in s.peers || s.peers[d].Resolved? ==> s' == s)
  {
    if ParseNodeId(read).Some? && d in s.peers && s.peers[d].Hint? {
      InstallTakesHold(s, d, ParseNodeId(read).value, upgrade, true);
    }
  }

  /** A restored device without an advertised hint is installed by the identity it reads. */
  lemma RestoreTakesHold(s: Runtime, d: DeviceId, services: seq<Uuid>, read: Option<seq<Byte>>, upgrade: Upgrade)
    requires forall n :: n in s.sessions ==> StateValid(s.sessions[n].state)
    ensures var s' := Next(s, DeviceRestored(d, services, read, upgrade));
      && (ParseDiscoveryHint(services).Some? ==> s' == Next(s, DeviceDiscovered(d, services)))
      && (forall n: NodeId :: ParseDiscoveryHint(services) == None && read == Some(n.bytes) ==>
            Installed(s, s', d, n, false, Upgraded(upgrade)))
      && (ParseDiscoveryHint(services) == None && (read == None || |read.value| != 32) ==> s' == s)
  {
    if ParseNodeId(read).Some? { InstallTakesHold(s, d, ParseNodeId(read).value, upgrade, false); }
  }

  /** A channel is accepted for the node its device is proven to be, over the record's own GATT session; else not. */
  lemma AcceptTakesHold(s: Runtime, d: DeviceId, n: NodeId)
    ensures var s' := Next(s, L2capAccepted(d, Some(n)));
      && (Resolves(s, d, n) ==>
            && s'.trace == s.trace + [Link(n, L2capEndpoint(d), Active)]
            && s'.channels == s.channels[s.nextChannelId := Channel(n, d)] && s'.peers == s.peers
            && s'.nextChannelId == (if s.nextChannelId < U64_MAX then s.nextChannelId + 1 else s.nextChannelId)
            && s'.sessions.Keys == s.sessions.Keys + {n}
            && (forall m :: m in s.sessions && m != n ==> s'.sessions[m] == s.sessions[m])
            && s'.sessions[n].state == L2capPreferred(L2cap(d, s.nextChannelId),
                                         if n in s.sessions then s.sessions[n].FirstGattFallback() else None)
            && s'.sessions[n].notifySubscribers == (if n in s.sessions then s.sessions[n].notifySubscribers else []))
      && (!Resolves(s, d, n) ==> s' == s)
    ensures Next(s, L2capAccepted(d, None)) == s
  {
  }

  // ----- Departures -----

  /** The record holds a session or a subscription on the device. */
  ghost predicate HeldOn(p: PeerSessions, d: DeviceId) {
    (exists session :: session in p.Sessions() && session.deviceId == d) || p.Subscribed(d)
  }

  /** The new entries are one fault per endpoint, in order. */
  ghost predicate FaultsAdded(s: Runtime, s': Runtime, n: NodeId, endpoints: seq<LinkEndpoint>) {
    && s.trace <= s'.trace && |s'.trace| == |s.trace| + |endpoints|
    && forall i :: 0 <= i < |endpoints| ==> s'.trace[|s.trace| + i] == Link(n, endpoints[i], Faulted)
  }

  /**
   * A device that leaves is forgotten, with every record that held anything on it and every channel of the node it
   * was proven to be; each endpoint that node held on it is faulted once; all else stays.
   */
  lemma DepartureTakesHold(s: Runtime, d: DeviceId)
    ensures var s' := Next(s, DeviceDisconnected(d));
      && s'.peers == s.peers - {d} && s'.nextChannelId == s.nextChannelId
      && (forall n :: n in s'.sessions <==> n in s.sessions && !HeldOn(s.sessions[n], d))
      && (forall n :: n in s'.sessions ==> s'.sessions[n] == s.sessions[n])
      && (forall c :: c in s'.channels <==> c in s.channels && !Resolves(s, d, s.channels[c].nodeId))
      && (forall c :: c in s'.channels ==> s'.channels[c] == s.channels[c])
      && (forall n :: Resolves(s, d, n) && n in s.sessions ==>
            FaultsAdded(s, s', n, s.sessions[n].EndpointsForDevice(d)))
      && ((forall n :: Resolves(s, d, n) ==> n !in s.sessions) ==> s'.trace == s.trace)
  {
    var s' := Next(s, DeviceDisconnected(d));
    forall n | n in s.sessions ensures HeldOn(s.sessions[n], d) <==> s.sessions[n].ReferencesDevice(d) {}
    match ResolvedNode(s, d) {
      case None =>
      case Some(n) =>
        assert Resolves(s, d, n);
        if n in s.sessions { FaultsListed(n, s.sessions[n].EndpointsForDevice(d)); }
    }
  }

  lemma {:induction false} FaultsListed(n: NodeId, endpoints: seq<LinkEndpoint>)
    ensures |FaultEntries(n, endpoints)| == |endpoints|
    ensures forall i :: 0 <= i < |endpoints| ==> FaultEntries(n, endpoints)[i] == Link(n, endpoints[i], Faulted)
  {
    if |endpoints| > 0 { FaultsListed(n, endpoints[1..]); }
  }

  /**
   * A channel that closes is gone. If it was its node's path the record falls back, to GATT or to nothing; whatever
   * path the record is left with is announced, also when the channel was a stale one; all else stays.
   */
  lemma CloseTakesHold(s: Runtime, c: nat, n: NodeId, d: DeviceId)
    requires c in s.channels && s.channels[c] == Channel(n, d)
    ensures var s' := Next(s, ChannelClosed(c));
      && s'.channels == s.channels - {c} && s'.peers == s.peers && s'.nextChannelId == s.nextChannelId
      && s'.sessions.Keys == s.sessions.Keys
      && (forall m :: m in s.sessions && m != n ==> s'.sessions[m] == s.sessions[m])
      && (n !in s.sessions ==> s'.trace == s.trace)
      && (n in s.sessions ==>
            && s'.sessions[n].notifySubscribers == s.sessions[n].notifySubscribers
            && s'.trace == s.trace + (if EgressEndpoint(s', n).Some?
                                      then [Link(n, EgressEndpoint(s', n).value, Active)] else [])
            && match s.sessions[n].state
               case L2capPreferred(L2cap(_, current), fallback) =>
                 s'.sessions[n].state == (if current != c then s.sessions[n].state
                                          else if fallback.Some? then GattOnly(fallback.value, fallback.value)
                                          else Disconnected)
               case _ => s'.sessions[n].state == s.sessions[n].state)
    ensures forall other :: other !in s.channels ==> Next(s, ChannelClosed(other)) == s
  {
    if n in s.sessions { assert s.sessions[n := s.sessions[n]] == s.sessions; }
  }

  // ----- The counter -----

  /** The channel counter never leaves the range of its 64 bits. */
  lemma {:induction false} CounterStaysInRange(steps: seq<Step>)
    ensures Run(Initial, steps).nextChannelId <= U64_MAX
    decreases |steps|
  {
    if |steps| > 0 {
      var k := |steps| - 1;
      CounterStaysInRange(steps[..k]);
      CounterStep(Run(Initial, steps[..k]), steps[k]);
    }
  }

  lemma CounterStep(s: Runtime, step: Step)
    requires s.nextChannelId <= U64_MAX
    ensures Next(s, step).nextChannelId <= U64_MAX
  {
    match step
    case UnicastDispatched(endpoint, broken) =>
      if DeviceIdFromEndpoint(endpoint).Some? {
        DispatchKeepsCounter(s, DeviceIdFromEndpoint(endpoint).value, broken, None);
      }
    case _ =>
  }

  lemma {:induction false} DispatchKeepsCounter(s: Runtime, deviceId: DeviceId, broken: set<nat>, closed: Option<nat>)
    ensures Unicast(s, deviceId, broken, closed).0.nextChannelId == s.nextChannelId
    decreases |s.channels|, RoundsLeft(s, deviceId, closed)
  {
    if EgressSession(s, deviceId).Some? && !LastLook(s, broken, closed, EgressSession(s, deviceId).value) {
      var session := EgressSession(s, deviceId).value;
      var s1 := OnChannelClosed(s, session.channelId);
      RefusedRound(s, deviceId, broken, closed, session, s1);
      DispatchKeepsCounter(s1, deviceId, broken, Some(session.channelId));
    }
  }
}

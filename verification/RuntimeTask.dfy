/** The task that owns the runtime state; every handler is proved against its step of RuntimeSpec. */
module RuntimeTask {
  import opened Identity
  import opened Gatt
  import opened Sessions
  import opened RuntimeSpec
  import opened Notify
  import PeerRecord
  import ControlIngress
  import Observations

  /** The handlers that ran, in order, among the turns of the loop. */
  function Handled(turns: seq<Option<Step>>): seq<Step>
    decreases |turns|
  {
    if |turns| == 0 then []
    else
      var earlier := Handled(turns[..|turns| - 1]);
      var last := turns[|turns| - 1];
      if last.Some? then earlier + [last.value] else earlier
  }

  lemma TurnExtends(s: Runtime, restored: seq<Step>, events: seq<Option<Step>>, i: nat)
    requires i < |events|
    ensures var before := Run(s, restored + Handled(events[..i]));
      Run(s, restored + Handled(events[..i + 1]))
      == if events[i].Some? then Next(before, events[i].value) else before
  {
    assert events[..i + 1][..i] == events[..i];
    if events[i].Some? {
      var done := restored + Handled(events[..i]);
      assert restored + Handled(events[..i + 1]) == done + [events[i].value];
      assert (done + [events[i].value])[..|done|] == done;
    }
  }

  /** What a history puts into the queue: its link events as control, its payloads as payload, bytes and all. */
  function Emitted(trace: seq<TraceEntry>): seq<ControlIngress.Action>
    decreases |trace|
  {
    if |trace| == 0 then []
    else
      var earlier, last := Emitted(trace[..|trace| - 1]), trace[|trace| - 1];
      match last
      case Link(_, _, _) => earlier + [ControlIngress.Control(Observations.LinkEventOf(last))]
      case Payload(nodeId, endpoint, payload) =>
        earlier + [ControlIngress.Payload(Observations.PayloadReceived(nodeId, endpoint, payload))]
      case _ => earlier
  }

  lemma EmittedSnoc(trace: seq<TraceEntry>, entry: TraceEntry)
    ensures Emitted(trace + [entry]) == Emitted(trace) +
              match entry
              case Link(_, _, _) => [ControlIngress.Control(Observations.LinkEventOf(entry))]
              case Payload(nodeId, endpoint, payload) =>
                [ControlIngress.Payload(Observations.PayloadReceived(nodeId, endpoint, payload))]
              case _ => []
  {
    assert (trace + [entry])[..|trace|] == trace;
  }

  lemma {:induction false} EmittedControls(trace: seq<TraceEntry>)
    ensures ControlIngress.ControlsOf(Emitted(trace)) == Observations.ControlEvents(trace)
    ensures ControlIngress.WellTyped(Emitted(trace))
    decreases |trace|
  {
    if |trace| > 0 {
      var earlier, last := trace[..|trace| - 1], trace[|trace| - 1];
      EmittedControls(earlier);
      if last.Link? || last.Payload? {
        assert Emitted(trace)[..|Emitted(trace)| - 1] == Emitted(earlier);
      }
    }
  }

  function DrainCount(drains: seq<bool>): nat
    decreases |drains|
  {
    if |drains| == 0 then 0 else DrainCount(drains[..|drains| - 1]) + if drains[|drains| - 1] then 1 else 0
  }

  lemma AssociateEntries(trace: seq<TraceEntry>, entry: TraceEntry, rest: seq<TraceEntry>)
    ensures trace + ([entry] + rest) == (trace + [entry]) + rest
  {
  }

  class BleRuntimeTask {
    var peers: map<DeviceId, PeerIdentity>
    var sessions: map<NodeId, PeerSessions>
    var l2capChannels: map<nat, Channel>
    var nextChannelId: nat
    const ingress: ControlIngress.IngressQueue
    ghost var trace: seq<TraceEntry>

    ghost function State(): Runtime
      reads this
    {
      Runtime(peers, sessions, l2capChannels, nextChannelId, trace)
    }

    /** The link events and payloads of the history went into the ingress queue, in its order and as they are. */
    ghost predicate Valid()
      reads this, ingress
    {
      ingress.Valid() && ControlIngress.Emissions(ingress.actions) == Emitted(trace)
    }

    constructor (ingressCapacity: nat)
      ensures Valid() && State() == Initial && fresh(ingress)
    {
      peers, sessions, l2capChannels, nextChannelId := map[], map[], map[], 1;
      trace := [];
      ingress := new ControlIngress.IngressQueue(ingressCapacity);
    }

    // ----- Events -----

    method EmitControlEvent(nodeId: NodeId, endpoint: LinkEndpoint, state: LinkState)
      requires Valid()
      modifies this`trace, ingress
      ensures ControlIngress.Moves(ingress.actions) == old(ControlIngress.Moves(ingress.actions))
      ensures Valid() && State() == EmitLink(old(State()), nodeId, endpoint, state)
    {
      var entry := Link(nodeId, endpoint, state);
      ingress.EmitControlEvent(Observations.LinkEventOf(entry));
      EmittedSnoc(trace, entry);
      trace := trace + [entry];
    }

    method EmitPayload(nodeId: NodeId, endpoint: LinkEndpoint, payload: seq<Byte>)
      requires Valid()
      modifies this`trace, ingress
      ensures ControlIngress.Moves(ingress.actions) == old(ControlIngress.Moves(ingress.actions))
      ensures Valid() && State() == RuntimeSpec.Record(old(State()), Payload(nodeId, endpoint, payload))
    {
      ingress.EmitPayloadEvent(Observations.PayloadReceived(nodeId, endpoint, payload));
      EmittedSnoc(trace, Payload(nodeId, endpoint, payload));
      trace := trace + [Payload(nodeId, endpoint, payload)];
    }

    ghost method Note(entry: TraceEntry)
      requires Valid() && !entry.Link? && !entry.Payload?
      modifies this`trace
      ensures Valid() && State() == RuntimeSpec.Record(old(State()), entry)
    {
      EmittedSnoc(trace, entry);
      trace := trace + [entry];
    }

    function ResolvedNodeIdForDevice(deviceId: DeviceId): (nodeId: Option<NodeId>)
      reads this
      ensures nodeId == ResolvedNode(State(), deviceId)
    {
      if deviceId in peers then
        match peers[deviceId]
        case Resolved(nodeId) => Some(nodeId)
        case Hint(_) => None
      else None
    }

    // ----- Discovery and identity -----

    method HandleDeviceDiscovered(deviceId: DeviceId, services: seq<Uuid>)
      requires Valid()
      modifies this
      ensures Valid() && State() == OnDiscovered(old(State()), deviceId, services)
    {
      match ParseDiscoveryHint(services) {
        case None =>
        case Some(prefix) =>
          Note(Advertised(deviceId, prefix));
          if deviceId !in peers || peers[deviceId].Hint? {
            peers := peers[deviceId := Hint(prefix)];
          }
      }
    }

    method HandleDeviceConnected(deviceId: DeviceId, identityRead: Option<seq<Byte>>, upgrade: Upgrade)
      requires Valid()
      modifies this, ingress
      ensures ControlIngress.Moves(ingress.actions) == old(ControlIngress.Moves(ingress.actions))
      ensures Valid() && State() == OnConnected(old(State()), deviceId, identityRead, upgrade)
    {
      var read := ParseNodeId(identityRead);
      if read == None || deviceId !in peers {
        return;
      }
      var nodeId := read.value;
      match peers[deviceId] {
        case Resolved(_) =>
        case Hint(prefix) =>
          if !HintMatchesNodeId(prefix, nodeId) {
            peers := peers - {deviceId};
            return;
          }
          InstallResolvedPeer(nodeId, deviceId, upgrade, true);
      }
    }

    method HandleRestoredDevice(
      deviceId: DeviceId, services: seq<Uuid>, identityRead: Option<seq<Byte>>, upgrade: Upgrade)
      requires Valid()
      modifies this, ingress
      ensures ControlIngress.Moves(ingress.actions) == old(ControlIngress.Moves(ingress.actions))
      ensures Valid() && State() == OnRestored(old(State()), deviceId, services, identityRead, upgrade)
    {
      if ParseDiscoveryHint(services).Some? {
        HandleDeviceDiscovered(deviceId, services);
        return;
      }
      match ParseNodeId(identityRead) {
        case Some(nodeId) => InstallResolvedPeer(nodeId, deviceId, upgrade, false);
        case None =>
      }
    }

    method InstallResolvedPeer(nodeId: NodeId, deviceId: DeviceId, upgrade: Upgrade, ghost fromHint: bool)
      requires Valid()
      modifies this, ingress
      ensures ControlIngress.Moves(ingress.actions) == old(ControlIngress.Moves(ingress.actions))
      ensures Valid()
      ensures State() == RuntimeSpec.InstallResolvedPeer(old(State()), nodeId, deviceId, upgrade, fromHint)
    {
      peers := peers[deviceId := Resolved(nodeId)];
      Note(Identified(deviceId, nodeId, fromHint));
      InstallGattSession(nodeId, deviceId);
      EmitControlEvent(nodeId, GattEndpoint(deviceId), Active);
      if upgrade.Succeeds() {
        InstallL2capSession(nodeId, deviceId);
      }
    }

    method InstallGattSession(nodeId: NodeId, deviceId: DeviceId)
      requires Valid()
      modifies this`sessions
      ensures Valid() && State() == RuntimeSpec.InstallGattSession(old(State()), nodeId, deviceId)
    {
      var session := GattCentral(deviceId);
      if nodeId in sessions {
        var record := new PeerRecord.Record(sessions[nodeId]);
        record.InstallGattCentral(session);
        sessions := sessions[nodeId := record.Value()];
      } else {
        sessions := sessions[nodeId := GattWithFallback(session)];
      }
    }

    method InstallL2capSession(nodeId: NodeId, deviceId: DeviceId)
      requires Valid()
      modifies this, ingress
      ensures ControlIngress.Moves(ingress.actions) == old(ControlIngress.Moves(ingress.actions))
      ensures Valid() && State() == RuntimeSpec.InstallL2capSession(old(State()), nodeId, deviceId)
    {
      var channelId := RegisterL2capChannel(nodeId, deviceId);
      var session := L2cap(deviceId, channelId);
      if nodeId in sessions {
        var record := new PeerRecord.Record(sessions[nodeId]);
        record.PromoteL2cap(session);
        sessions := sessions[nodeId := record.Value()];
      } else {
        sessions := sessions[nodeId := L2capPreferredSessions(session, None)];
      }
      EmitControlEvent(nodeId, L2capEndpoint(deviceId), Active);
    }

    method RegisterL2capChannel(nodeId: NodeId, deviceId: DeviceId) returns (channelId: nat)
      requires Valid()
      modifies this`l2capChannels, this`nextChannelId
      ensures Valid() && (State(), channelId) == RegisterChannel(old(State()), nodeId, deviceId)
    {
      channelId := nextChannelId;
      nextChannelId := if nextChannelId < U64_MAX then nextChannelId + 1 else nextChannelId;
      l2capChannels := l2capChannels[channelId := Channel(nodeId, deviceId)];
    }

    // ----- Departure -----

    method HandleDeviceDisconnected(deviceId: DeviceId)
      requires Valid()
      modifies this, ingress
      ensures ControlIngress.Moves(ingress.actions) == old(ControlIngress.Moves(ingress.actions))
      ensures Valid() && State() == OnDisconnected(old(State()), deviceId)
    {
      var removed := ResolvedNodeIdForDevice(deviceId);
      peers := peers - {deviceId};
      match removed {
        case Some(nodeId) =>
          EmitFaultedLinksForDevice(nodeId, deviceId);
          l2capChannels := map c | c in l2capChannels && l2capChannels[c].nodeId != nodeId :: l2capChannels[c];
        case None =>
      }
      sessions := map n | n in sessions && !sessions[n].ReferencesDevice(deviceId) :: sessions[n];
    }

    method EmitFaultedLinksForDevice(nodeId: NodeId, deviceId: DeviceId)
      requires Valid()
      modifies this`trace, ingress
      ensures ControlIngress.Moves(ingress.actions) == old(ControlIngress.Moves(ingress.actions))
      ensures Valid() && State() == EmitFaults(old(State()), nodeId, deviceId)
    {
      if nodeId !in sessions {
        return;
      }
      var record := new PeerRecord.Record(sessions[nodeId]);
      var endpoints := record.EndpointsForDevice(deviceId);
      ghost var due := trace + FaultEntries(nodeId, endpoints);
      for i := 0 to |endpoints|
        invariant Valid()
        invariant State() == old(State()).(trace := trace)
        invariant ControlIngress.Moves(ingress.actions) == old(ControlIngress.Moves(ingress.actions))
        invariant due == trace + FaultEntries(nodeId, endpoints[i..])
      {
        ghost var entry, rest := Link(nodeId, endpoints[i], Faulted), FaultEntries(nodeId, endpoints[i + 1..]);
        assert endpoints[i..][1..] == endpoints[i + 1..];
        AssociateEntries(trace, entry, rest);
        EmitControlEvent(nodeId, endpoints[i], Faulted);
      }
      assert FaultEntries(nodeId, endpoints[|endpoints|..]) == [] && due == trace;
    }

    // ----- Notify subscriptions -----

    method HandleP2cSubscription(clientId: DeviceId)
      requires Valid()
      modifies this, ingress
      ensures ControlIngress.Moves(ingress.actions) == old(ControlIngress.Moves(ingress.actions))
      ensures Valid() && State() == OnSubscribed(old(State()), clientId)
    {
      var resolved := ResolvedNodeIdForDevice(clientId);
      match resolved {
        case None =>
        case Some(nodeId) =>
          var subscriber := BleNotifySubscriber(clientId);
          if nodeId in sessions {
            var record := new PeerRecord.Record(sessions[nodeId]);
            record.InstallGattSubscription(subscriber);
            sessions := sessions[nodeId := record.Value()];
          } else {
            sessions := sessions[nodeId := GattNotifyFanout(subscriber)];
          }
          EmitControlEvent(nodeId, NotifyFanoutEndpoint(), Active);
      }
    }

    method HandleP2cUnsubscription(clientId: DeviceId)
      requires Valid()
      modifies this, ingress
      ensures ControlIngress.Moves(ingress.actions) == old(ControlIngress.Moves(ingress.actions))
      ensures Valid() && State() == OnUnsubscribed(old(State()), clientId)
    {
      var resolved := ResolvedNodeIdForDevice(clientId);
      match resolved {
        case None =>
        case Some(nodeId) =>
          if nodeId in sessions {
            var record := new PeerRecord.Record(sessions[nodeId]);
            var removed := record.RemoveGattSubscription(clientId);
            sessions := sessions[nodeId := record.Value()];
            if removed {
              EmitControlEvent(nodeId, NotifyFanoutEndpoint(), Faulted);
            }
          }
      }
    }

    // ----- Payloads -----

    /** `acknowledged` is the answer to a write that asks for one. */
    method HandleC2pWrite(clientId: DeviceId, value: seq<Byte>) returns (acknowledged: bool)
      requires Valid()
      modifies this, ingress
      ensures ControlIngress.Moves(ingress.actions) == old(ControlIngress.Moves(ingress.actions))
      ensures Valid() && State() == OnGattPayload(old(State()), clientId, value)
      ensures acknowledged == old(ResolvedNodeIdForDevice(clientId)).Some?
    {
      var resolved := ResolvedNodeIdForDevice(clientId);
      match resolved {
        case Some(nodeId) =>
          EmitPayload(nodeId, GattEndpoint(clientId), value);
          return true;
        case None =>
          return false;
      }
    }

    method HandleCharacteristicNotification(deviceId: DeviceId, charUuid: Uuid, value: seq<Byte>)
      requires Valid()
      modifies this, ingress
      ensures ControlIngress.Moves(ingress.actions) == old(ControlIngress.Moves(ingress.actions))
      ensures Valid()
      ensures State() == if charUuid == P2C_CHAR_UUID then OnGattPayload(old(State()), deviceId, value)
                         else old(State())
    {
      if charUuid != P2C_CHAR_UUID {
        return;
      }
      var resolved := ResolvedNodeIdForDevice(deviceId);
      if resolved.Some? {
        EmitPayload(resolved.value, GattEndpoint(deviceId), value);
      }
    }

    method HandleL2capFrame(channelId: nat, payload: seq<Byte>)
      requires Valid()
      modifies this, ingress
      ensures ControlIngress.Moves(ingress.actions) == old(ControlIngress.Moves(ingress.actions))
      ensures Valid() && State() == OnFrame(old(State()), channelId, payload)
    {
      if channelId in l2capChannels {
        var channel := l2capChannels[channelId];
        EmitPayload(channel.nodeId, L2capEndpoint(channel.deviceId), payload);
      }
    }

    // ----- L2CAP channels -----

    method HandleL2capAccept(deviceId: DeviceId, claimed: Option<NodeId>)
      requires Valid()
      modifies this, ingress
      ensures ControlIngress.Moves(ingress.actions) == old(ControlIngress.Moves(ingress.actions))
      ensures Valid() && State() == OnAccepted(old(State()), deviceId, claimed)
    {
      var resolved := ResolvedNodeIdForDevice(deviceId);
      if claimed == None || resolved != claimed {
        return;
      }
      InstallL2capSession(claimed.value, deviceId);
    }

    method HandleL2capChannelClosed(channelId: nat)
      requires Valid()
      modifies this, ingress
      ensures ControlIngress.Moves(ingress.actions) == old(ControlIngress.Moves(ingress.actions))
      ensures Valid() && State() == OnChannelClosed(old(State()), channelId)
    {
      if channelId !in l2capChannels {
        return;
      }
      var channel := l2capChannels[channelId];
      l2capChannels := l2capChannels - {channelId};
      if channel.nodeId !in sessions {
        return;
      }
      var record := new PeerRecord.Record(sessions[channel.nodeId]);
      var effective := record.DowngradeL2cap(channelId);
      sessions := sessions[channel.nodeId := record.Value()];
      if effective.Some? {
        EmitControlEvent(channel.nodeId, effective.value.Endpoint(), Active);
      }
    }

    // ----- The run loop -----

    method HandleEvent(step: Step)
      requires Valid()
      modifies this, ingress
      ensures ControlIngress.Moves(ingress.actions) == old(ControlIngress.Moves(ingress.actions))
      ensures Valid() && State() == Next(old(State()), step)
    {
      match step {
        case DeviceDiscovered(deviceId, services) => HandleDeviceDiscovered(deviceId, services);
        case DeviceConnected(deviceId, read, upgrade) => HandleDeviceConnected(deviceId, read, upgrade);
        case DeviceRestored(deviceId, services, read, upgrade) =>
          HandleRestoredDevice(deviceId, services, read, upgrade);
        case DeviceDisconnected(deviceId) => HandleDeviceDisconnected(deviceId);
        case P2cSubscribed(deviceId) => HandleP2cSubscription(deviceId);
        case P2cUnsubscribed(deviceId) => HandleP2cUnsubscription(deviceId);
        case C2pWritten(deviceId, value) => var _ := HandleC2pWrite(deviceId, value);
        case P2cNotified(deviceId, value) => HandleCharacteristicNotification(deviceId, P2C_CHAR_UUID, value);
        case L2capAccepted(deviceId, claimed) => HandleL2capAccept(deviceId, claimed);
        case FrameReceived(channelId, payload) => HandleL2capFrame(channelId, payload);
        case ChannelClosed(channelId) => HandleL2capChannelClosed(channelId);
        case UnicastDispatched(endpoint, broken) => var _ := DispatchUnicastCommand(endpoint, broken);
      }
    }

    method RehydrateRestoredState(devices: seq<Step>)
      requires Valid() && forall i :: 0 <= i < |devices| ==> devices[i].DeviceRestored?
      modifies this, ingress
      ensures ControlIngress.Moves(ingress.actions) == old(ControlIngress.Moves(ingress.actions))
      ensures Valid() && State() == Run(old(State()), devices)
    {
      for i := 0 to |devices|
        invariant Valid() && State() == Run(old(State()), devices[..i])
        invariant ControlIngress.Moves(ingress.actions) == old(ControlIngress.Moves(ingress.actions))
      {
        assert devices[..i + 1][..i] == devices[..i];
        HandleEvent(devices[i]);
      }
      assert devices[..|devices|] == devices;
    }

    /**
     * One turn of the loop: flush what is deferred, before anything new is emitted, then handle what comes, if
     * anything but a timer does.
     */
    method Turn(event: Option<Step>, drained: bool)
      requires Valid()
      modifies this, ingress
      ensures Valid() && State() == if event.Some? then Next(old(State()), event.value) else old(State())
      ensures var before := |old(Emitted(trace))|;
        ControlIngress.Moves(ingress.actions) == old(ControlIngress.Moves(ingress.actions))
          + [ControlIngress.Move(ControlIngress.FlushDeferred, before)]
          + (if drained then [ControlIngress.Move(ControlIngress.DrainMailbox, before)] else [])
    {
      ingress.FlushDeferredControlIngress();
      if drained {
        var _ := ingress.DrainTransportIngress();
      }
      if event.Some? { HandleEvent(event.value); }
    }

    /** Restored devices first, then turns, each with its flush; `drains` says when the bridge empties the mailbox. */
    method RunLoop(restored: seq<Step>, events: seq<Option<Step>>, drains: seq<bool>)
      requires Valid() && |drains| == |events| && forall i :: 0 <= i < |restored| ==> restored[i].DeviceRestored?
      modifies this, ingress
      ensures Valid() && State() == Run(old(State()), restored + Handled(events))
      ensures |ControlIngress.Moves(ingress.actions)|
           == |old(ControlIngress.Moves(ingress.actions))| + |events| + DrainCount(drains)
    {
      RehydrateRestoredState(restored);
      assert restored + Handled(events[..0]) == restored;
      for i := 0 to |events|
        invariant Valid() && State() == Run(old(State()), restored + Handled(events[..i]))
        invariant |ControlIngress.Moves(ingress.actions)|
               == |old(ControlIngress.Moves(ingress.actions))| + i + DrainCount(drains[..i])
      {
        TurnExtends(old(State()), restored, events, i);
        assert drains[..i + 1][..i] == drains[..i];
        Turn(events[i], drains[i]);
      }
      assert events[..|events|] == events && drains[..|drains|] == drains;
    }

    /** What the task did to its queue is a history of the queue's machine that emits the task's own log. */
    lemma QueueHistory()
      requires Valid()
      ensures ControlIngress.WellTyped(ingress.actions)
      ensures ControlIngress.ControlsOf(ingress.actions) == Observations.ControlEvents(trace)
      ensures ControlIngress.Emissions(ingress.actions) == Emitted(trace)
      ensures ingress.State() == ControlIngress.Run(ControlIngress.New(ingress.capacity), ingress.actions)
    {
      ControlIngress.EmissionsDecide(ingress.actions);
      EmittedControls(trace);
    }

    /** At any point of the loop each link event of the history is drained, in the mailbox or deferred, once. */
    lemma NothingIsLost()
      requires Valid()
      ensures multiset(Observations.ControlEvents(trace)) + multiset(ingress.payloads)
           == multiset(ingress.drained) + multiset(ingress.mailbox) + multiset(ingress.deferred)
      ensures |ingress.mailbox| <= ingress.capacity
    {
      QueueHistory();
      ControlIngress.ControlEventsAreConserved(ingress.capacity, ingress.actions);
    }

    // ----- Dispatch -----

    /** Walks the records in node order to the first whose preferred egress is on the device. */
    method EgressSessionForDevice(deviceId: DeviceId) returns (session: Option<BleSession>)
      ensures session == EgressSession(State(), deviceId)
    {
      var remaining := sessions.Keys;
      while remaining != {}
        invariant remaining <= sessions.Keys
        invariant forall n :: n in sessions && n !in remaining ==> sessions[n].EgressForDevice(deviceId) == None
        decreases |remaining|
      {
        FirstExists(remaining);
        var n :| n in remaining && forall m :: m in remaining ==> m == n || Before(n, m);
        session := sessions[n].EgressForDevice(deviceId);
        if session.Some? {
          assert IsFirst(n, EgressNodes(State(), deviceId));
          FirstUnique(n, First(EgressNodes(State(), deviceId)), EgressNodes(State(), deviceId));
          return;
        }
        remaining := remaining - {n};
      }
      assert EgressNodes(State(), deviceId) == {};
      return None;
    }

    /** Sends on the session; a refused channel is returned for closing. `broken` writers refuse. */
    method SendViaSession(session: BleSession, broken: set<nat>) returns (attempt: SendAttempt, failed: Option<nat>)
      ensures attempt == SessionAttempt(State(), session, broken)
      ensures failed == if session.L2cap? && WriteFails(State(), session.channelId, broken)
                        then Some(session.channelId) else None
    {
      match session {
        case GattCentral(deviceId) =>
          return GattWrite(deviceId), None;
        case L2cap(_, channelId) =>
          var sendFailed := true;
          if channelId in l2capChannels {
            sendFailed := channelId in broken;
            attempt := ChannelWrite(channelId, !sendFailed);
          } else {
            attempt := NoChannel(channelId);
          }
          failed := if sendFailed then Some(channelId) else None;
      }
    }

    /** One pass: send on the path in use; a channel that refuses, unless closed before, is closed for another pass. */
    method DispatchOnce(sofar: seq<SendAttempt>, deviceId: DeviceId, broken: set<nat>, downgraded: Option<nat>)
      returns (attempts: seq<SendAttempt>, closed: Option<nat>)
      requires Valid()
      modifies this, ingress
      ensures ControlIngress.Moves(ingress.actions) == old(ControlIngress.Moves(ingress.actions))
      ensures Valid()
      ensures closed == None ==>
                && State() == old(State()) == Unicast(old(State()), deviceId, broken, downgraded).0
                && attempts == sofar + Unicast(old(State()), deviceId, broken, downgraded).1
      ensures closed.Some? ==>
                && Unicast(old(State()), deviceId, broken, downgraded).0 == Unicast(State(), deviceId, broken, closed).0
                && sofar + Unicast(old(State()), deviceId, broken, downgraded).1
                   == attempts + Unicast(State(), deviceId, broken, closed).1
                && (|| |l2capChannels| < old(|l2capChannels|)
                    || (|l2capChannels| == old(|l2capChannels|)
                        && RoundsLeft(State(), deviceId, closed) < RoundsLeft(old(State()), deviceId, downgraded)))
    {
      var session := EgressSessionForDevice(deviceId);
      if session == None {
        return sofar, None;
      }
      var attempt, failed := SendViaSession(session.value, broken);
      if failed == None || downgraded == failed {
        LastRound(State(), deviceId, broken, downgraded, session.value);
        return sofar + [attempt], None;
      }
      HandleL2capChannelClosed(failed.value);
      RefusedRound(old(State()), deviceId, broken, downgraded, session.value, State());
      ghost var rest := Unicast(State(), deviceId, broken, failed).1;
      assert sofar + ([attempt] + rest) == (sofar + [attempt]) + rest;
      return sofar + [attempt], failed;
    }

    /** Sends, and on a refused channel closes it and tries the path that is left. */
    method DispatchUnicastCommand(endpoint: LinkEndpoint, broken: set<nat>) returns (attempts: seq<SendAttempt>)
      requires Valid()
      modifies this, ingress
      ensures ControlIngress.Moves(ingress.actions) == old(ControlIngress.Moves(ingress.actions))
      ensures Valid() && State() == OnUnicast(old(State()), endpoint, broken).0
      ensures attempts == OnUnicast(old(State()), endpoint, broken).1
    {
      var target := DeviceIdFromEndpoint(endpoint);
      if target == None {
        return [];
      }
      ghost var whole := Unicast(State(), target.value, broken, None);
      var closed: Option<nat>;
      attempts, closed := DispatchOnce([], target.value, broken, None);
      while closed.Some?
        invariant Valid()
        invariant ControlIngress.Moves(ingress.actions) == old(ControlIngress.Moves(ingress.actions))
        invariant closed == None ==> whole.0 == State() && whole.1 == attempts
        invariant closed.Some? ==> whole.0 == Unicast(State(), target.value, broken, closed).0
        invariant closed.Some? ==> whole.1 == attempts + Unicast(State(), target.value, broken, closed).1
        decreases closed.Some?, |l2capChannels|, RoundsLeft(State(), target.value, closed)
      {
        attempts, closed := DispatchOnce(attempts, target.value, broken, closed);
      }
    }

    method NotifySubscriberDeviceIds(receivers: seq<NodeId>) returns (deviceIds: Option<seq<DeviceId>>)
      ensures deviceIds == Notify.NotifySubscriberDeviceIds(sessions, receivers)
    {
      if receivers == [] {
        return None;
      }
      var ids := [];
      SubscriberDevicesExact(sessions, receivers);
      for i := 0 to |receivers|
        invariant |ids| == i
        invariant forall j :: 0 <= j < i ==> SubscriberDevice(sessions, receivers[j]) == Some(ids[j])
      {
        var deviceId := if receivers[i] in sessions then sessions[receivers[i]].NotifySubscriberDeviceId() else None;
        if deviceId == None {
          assert receivers[i] !in AllSubscribers(sessions);
          return None;
        }
        ids := ids + [deviceId.value];
      }
      assert forall j :: 0 <= j < |receivers| ==> receivers[j] in AllSubscribers(sessions);
      assert SubscriberDevices(sessions, receivers).value == ids;
      return Some(ids);
    }

    /** The notify calls made, in order. */
    method DispatchMulticastCommand(platform: Platform, endpoint: LinkEndpoint, receivers: seq<NodeId>)
      returns (calls: seq<DeviceId>)
      ensures calls == NotifyCalls(platform, sessions, endpoint, receivers)
    {
      calls := [];
      if endpoint != NotifyFanoutEndpoint() {
        return;
      }
      var deviceIds := NotifySubscriberDeviceIds(receivers);
      if deviceIds == None {
        return;
      }
      var targets := PlatformNotifyDeviceIds(platform, sessions, receivers, deviceIds.value);
      if targets == None {
        return;
      }
      for i := 0 to |targets.value|
        invariant calls == targets.value[..i]
      {
        calls := calls + [targets.value[i]];
      }
    }
  }
}

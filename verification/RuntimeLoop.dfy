/**
 * Runs of the task's loop: restored devices come first and never again, so later a device proves itself only
 * from a hint. What that alone grants, with nothing assumed about who the devices claim to be.
 */
module RuntimeLoop {
  import opened Identity
  import opened Gatt
  import opened Sessions
  import opened RuntimeSpec
  import opened RuntimeAgreement
  import RuntimeTheorems
  import Notify

  /** Any restored devices, repeats and shared nodes included, then any events but restores. */
  ghost predicate LoopRun(restored: seq<Step>, events: seq<Step>) {
    && (forall i :: 0 <= i < |restored| ==> restored[i].DeviceRestored?)
    && (forall i :: 0 <= i < |events| ==> !events[i].DeviceRestored?)
  }

  lemma LoopSnoc(restored: seq<Step>, events: seq<Step>)
    requires |events| > 0
    ensures var k := |events| - 1;
      Run(Initial, restored + events) == Next(Run(Initial, restored + events[..k]), events[k])
  {
    var k := |events| - 1;
    assert restored + events == (restored + events[..k]) + [events[k]];
    OneStepMore(Initial, restored + events[..k], events[k]);
  }

  lemma OneStepMore(s: Runtime, steps: seq<Step>, step: Step)
    ensures Run(s, steps + [step]) == Next(Run(s, steps), step)
  {
    assert (steps + [step])[..|steps|] == steps;
  }

  // ----- Subscribers are proven -----

  /** Whoever is subscribed on a node's record is, now, proven to be that node. */
  ghost predicate SubscribersProven(s: Runtime) {
    forall n, d :: n in s.sessions && s.sessions[n].Subscribed(d) ==> Resolves(s, d, n)
  }

  ghost predicate NoSubscribers(s: Runtime) {
    forall n :: n in s.sessions ==> s.sessions[n].notifySubscribers == []
  }

  lemma {:induction false} RestoringSubscribesNobody(restored: seq<Step>)
    requires forall i :: 0 <= i < |restored| ==> restored[i].DeviceRestored?
    ensures NoSubscribers(Run(Initial, restored))
    decreases |restored|
  {
    if |restored| > 0 { RestoringSubscribesNobody(restored[..|restored| - 1]); }
  }

  /** A proof for a device nobody lists as subscriber leaves every subscriber list as it was. */
  lemma InstallKeepsProven(s: Runtime, nodeId: NodeId, deviceId: DeviceId, upgrade: Upgrade, fromHint: bool)
    requires SubscribersProven(s) && ResolvedNode(s, deviceId) == None
    ensures SubscribersProven(InstallResolvedPeer(s, nodeId, deviceId, upgrade, fromHint))
  {
    var s' := InstallResolvedPeer(s, nodeId, deviceId, upgrade, fromHint);
    forall n, d | n in s'.sessions && s'.sessions[n].Subscribed(d) ensures Resolves(s', d, n) {
      assert n in s.sessions && s.sessions[n].notifySubscribers == s'.sessions[n].notifySubscribers;
      assert s.sessions[n].Subscribed(d);
      assert Resolves(s, d, n);
    }
  }

  lemma SubscriptionKeepsProven(s: Runtime, deviceId: DeviceId)
    requires SubscribersProven(s)
    ensures SubscribersProven(OnSubscribed(s, deviceId)) && SubscribersProven(OnUnsubscribed(s, deviceId))
  {
    match ResolvedNode(s, deviceId)
    case None =>
    case Some(nodeId) =>
      var on, off := OnSubscribed(s, deviceId), OnUnsubscribed(s, deviceId);
      forall n, d | n in on.sessions && on.sessions[n].Subscribed(d) ensures Resolves(on, d, n) {
        if n == nodeId && n in s.sessions { ApplyDecidesSubscription(s.sessions[n], Subscribe(deviceId), d); }
      }
      forall n, d | n in off.sessions && off.sessions[n].Subscribed(d) ensures Resolves(off, d, n) {
        if n == nodeId { ApplyDecidesSubscription(s.sessions[n], Unsubscribe(deviceId), d); }
      }
  }

  /** Steps that touch neither the directory nor any subscriber list. */
  lemma SameSubscribersKeepProven(s: Runtime, s': Runtime)
    requires SubscribersProven(s) && s'.peers == s.peers
    requires forall n :: n in s'.sessions && s'.sessions[n].notifySubscribers != [] ==>
               n in s.sessions && s'.sessions[n].notifySubscribers == s.sessions[n].notifySubscribers
    ensures SubscribersProven(s')
  {
    forall n, d | n in s'.sessions && s'.sessions[n].Subscribed(d) ensures Resolves(s', d, n) {
      assert s.sessions[n].Subscribed(d);
    }
  }

  ghost predicate SameSubscribers(s: Runtime, s': Runtime) {
    && s'.peers == s.peers && s'.sessions.Keys == s.sessions.Keys
    && forall n :: n in s.sessions ==> s'.sessions[n].notifySubscribers == s.sessions[n].notifySubscribers
  }

  lemma ClosingKeepsSubscribers(s: Runtime, channelId: nat)
    ensures SameSubscribers(s, OnChannelClosed(s, channelId))
  {
    assert OnChannelClosed(s, channelId).sessions.Keys == s.sessions.Keys;
  }

  lemma {:induction false} DispatchKeepsSubscribers(
    s: Runtime, deviceId: DeviceId, broken: set<nat>, closed: Option<nat>)
    ensures SameSubscribers(s, Unicast(s, deviceId, broken, closed).0)
    decreases |s.channels|, RoundsLeft(s, deviceId, closed)
  {
    if EgressSession(s, deviceId).Some? && !LastLook(s, broken, closed, EgressSession(s, deviceId).value) {
      var session := EgressSession(s, deviceId).value;
      var s1 := OnChannelClosed(s, session.channelId);
      RefusedRound(s, deviceId, broken, closed, session, s1);
      ClosingKeepsSubscribers(s, session.channelId);
      DispatchKeepsSubscribers(s1, deviceId, broken, Some(session.channelId));
    }
  }

  lemma StepKeepsProven(s: Runtime, step: Step)
    requires SubscribersProven(s) && !step.DeviceRestored?
    ensures SubscribersProven(Next(s, step))
  {
    match step
    case DeviceConnected(deviceId, read, upgrade) =>
      if Identification(s, step).Some? {
        InstallKeepsProven(s, Identification(s, step).value.1, deviceId, upgrade, true);
      }
    case DeviceDisconnected(deviceId) => DisconnectKeepsProven(s, deviceId);
    case P2cSubscribed(deviceId) => SubscriptionKeepsProven(s, deviceId);
    case P2cUnsubscribed(deviceId) => SubscriptionKeepsProven(s, deviceId);
    case UnicastDispatched(endpoint, broken) =>
      if DeviceIdFromEndpoint(endpoint).Some? {
        DispatchKeepsSubscribers(s, DeviceIdFromEndpoint(endpoint).value, broken, None);
        SameSubscribersKeepProven(s, Next(s, step));
      }
    case ChannelClosed(channelId) =>
      ClosingKeepsSubscribers(s, channelId);
      SameSubscribersKeepProven(s, Next(s, step));
    case L2capAccepted(deviceId, claimed) => SameSubscribersKeepProven(s, Next(s, step));
    case DeviceDiscovered(deviceId, services) => DiscoveryKeepsProven(s, deviceId, services);
    case _ =>
  }

  lemma DiscoveryKeepsProven(s: Runtime, deviceId: DeviceId, services: seq<Uuid>)
    requires SubscribersProven(s)
    ensures SubscribersProven(OnDiscovered(s, deviceId, services))
  {
    assert forall d, n :: Resolves(s, d, n) ==> Resolves(OnDiscovered(s, deviceId, services), d, n);
  }

  lemma DisconnectKeepsProven(s: Runtime, deviceId: DeviceId)
    requires SubscribersProven(s)
    ensures SubscribersProven(OnDisconnected(s, deviceId))
  {
    var s' := OnDisconnected(s, deviceId);
    forall n, d | n in s'.sessions && s'.sessions[n].Subscribed(d) ensures Resolves(s', d, n) {
      assert n in s.sessions && s'.sessions[n] == s.sessions[n] && !s.sessions[n].ReferencesDevice(deviceId);
    }
  }

  /** In every state of every loop run, and with no assumption on identities. */
  lemma {:induction false} EverySubscriberIsProven(restored: seq<Step>, events: seq<Step>)
    requires LoopRun(restored, events)
    ensures SubscribersProven(Run(Initial, restored + events))
    decreases |events|
  {
    if |events| == 0 {
      assert restored + events == restored;
      RestoringSubscribesNobody(restored);
    } else {
      var k := |events| - 1;
      LoopSnoc(restored, events);
      EverySubscriberIsProven(restored, events[..k]);
      StepKeepsProven(Run(Initial, restored + events[..k]), events[k]);
    }
  }

  /** So a multicast reaches nobody or exactly the requested receivers, on both platforms, in every loop run. */
  lemma {:induction false} MulticastReachesExactlyTheReceivers(
    restored: seq<Step>, events: seq<Step>, platform: Notify.Platform, endpoint: LinkEndpoint, receivers: seq<NodeId>)
    requires LoopRun(restored, events)
    ensures var sessions := Run(Initial, restored + events).sessions;
      var calls := Notify.NotifyCalls(platform, sessions, endpoint, receivers);
      && Notify.Reached(platform, sessions, calls) == (if calls == [] then {} else Notify.NodeSet(receivers))
      && (calls != [] <==>
            && endpoint == NotifyFanoutEndpoint() && receivers != []
            && Notify.NodeSet(receivers) <= Notify.AllSubscribers(sessions)
            && (platform == Notify.Linux ==> Notify.NodeSet(receivers) == Notify.AllSubscribers(sessions)))
  {
    var s := Run(Initial, restored + events);
    EverySubscriberIsProven(restored, events);
    forall m, n | m in s.sessions && n in s.sessions && s.sessions[m].NotifySubscriberDeviceId().Some?
                  && s.sessions[n].Subscribed(s.sessions[m].NotifySubscriberDeviceId().value)
      ensures m == n
    {
      Notify.NotifiedIsSubscribed(s.sessions, m);
      var d := s.sessions[m].NotifySubscriberDeviceId().value;
      assert Resolves(s, d, m) && Resolves(s, d, n);
    }
    Notify.NotifyReachesExactlyTheReceivers(platform, s.sessions, endpoint, receivers);
    Notify.NotifyIsAllOrNothing(platform, s.sessions, endpoint, receivers);
  }

  // ----- What is left of stable identity -----

  /** No device at all is proven to be the node that the step would prove. */
  ghost predicate ProvesFreeNode(s: Runtime, step: Step) {
    match Identification(s, step)
    case None => true
    case Some((_, nodeId, _)) => forall d :: !Resolves(s, d, nodeId)
  }

  /** A device proves itself from a hint only, so it has no earlier identity to lose. */
  lemma LoopEventStableExactly(s: Runtime, step: Step)
    requires !step.DeviceRestored?
    ensures StableIdentity(s, step) <==> ProvesFreeNode(s, step)
  {
  }

  ghost predicate EveryProofFree(steps: seq<Step>) {
    forall i :: 0 <= i < |steps| ==> ProvesFreeNode(Run(Initial, steps[..i]), steps[i])
  }

  /**
   * Of a loop run whose restored list has no repeats, stable identity asks one thing: that no node is proven
   * while some device is already proven to be it. The rest the loop grants by itself.
   */
  lemma {:induction false} LoopStableExactly(restored: seq<Step>, events: seq<Step>)
    requires LoopRun(restored, events) && RuntimeTheorems.RestoredList(restored)
    ensures StableRun(restored + events) <==> EveryProofFree(restored + events)
  {
    var steps := restored + events;
    forall i | 0 <= i < |steps|
      ensures StableIdentity(Run(Initial, steps[..i]), steps[i]) <==> ProvesFreeNode(Run(Initial, steps[..i]), steps[i])
    {
      if i < |restored| {
        assert steps[..i] == restored[..i] && steps[i] == restored[i];
        RuntimeTheorems.RestoredDirectory(restored, i);
        RuntimeTheorems.FreshRestoreIsStable(Run(Initial, restored[..i]), restored[i]);
      } else {
        assert steps[i] == events[i - |restored|];
        LoopEventStableExactly(Run(Initial, steps[..i]), steps[i]);
      }
    }
  }

  /** The agreement of maps and log over loop runs, resting on that one condition. */
  lemma {:induction false} EveryLoopRunAgrees(restored: seq<Step>, events: seq<Step>)
    requires LoopRun(restored, events) && RuntimeTheorems.RestoredList(restored) && EveryProofFree(restored + events)
    requires Run(Initial, restored + events).nextChannelId < U64_MAX
    ensures Coherent(Run(Initial, restored + events))
  {
    LoopStableExactly(restored, events);
    RuntimeTheorems.EveryStableRunAgrees(restored + events);
  }
}

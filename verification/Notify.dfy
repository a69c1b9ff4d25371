/** Multicast dispatch over GATT notifications: who is called, and whom the calls reach. */
module Notify {
  import opened Identity
  import opened Gatt
  import opened Sessions
  import RuntimeSpec
  import RuntimeAgreement

  datatype Platform = Linux | Targeted

  /** The subscriber device of every receiver, or nothing if a receiver has none or there is no receiver. */
  function NotifySubscriberDeviceIds(
    sessions: map<NodeId, PeerSessions>, receivers: seq<NodeId>): Option<seq<DeviceId>> {
    if |receivers| == 0 then None else SubscriberDevices(sessions, receivers)
  }

  function SubscriberDevice(sessions: map<NodeId, PeerSessions>, nodeId: NodeId): Option<DeviceId> {
    if nodeId in sessions then sessions[nodeId].NotifySubscriberDeviceId() else None
  }

  function SubscriberDevices(sessions: map<NodeId, PeerSessions>, receivers: seq<NodeId>): Option<seq<DeviceId>> {
    if |receivers| == 0 then Some([])
    else
      match SubscriberDevice(sessions, receivers[0])
      case None => None
      case Some(deviceId) =>
        match SubscriberDevices(sessions, receivers[1..])
        case None => None
        case Some(rest) => Some([deviceId] + rest)
  }

  function AllSubscribers(sessions: map<NodeId, PeerSessions>): set<NodeId> {
    set n | n in sessions && sessions[n].NotifySubscriberDeviceId().Some?
  }

  function NodeSet(receivers: seq<NodeId>): set<NodeId> { set n | n in receivers }

  /** Linux cannot single out a subscriber: one call broadcasts, and only if that reaches nobody else. */
  function PlatformNotifyDeviceIds(platform: Platform, sessions: map<NodeId, PeerSessions>, receivers: seq<NodeId>,
                                   deviceIds: seq<DeviceId>): Option<seq<DeviceId>> {
    match platform
    case Targeted => Some(deviceIds)
    case Linux =>
      if NodeSet(receivers) != AllSubscribers(sessions) || deviceIds == [] then None else Some([deviceIds[0]])
  }

  /** The notify calls made for one multicast command. */
  function NotifyCalls(platform: Platform, sessions: map<NodeId, PeerSessions>, endpoint: LinkEndpoint,
                       receivers: seq<NodeId>): seq<DeviceId> {
    if endpoint != NotifyFanoutEndpoint() then []
    else
      match NotifySubscriberDeviceIds(sessions, receivers)
      case None => []
      case Some(deviceIds) =>
        match PlatformNotifyDeviceIds(platform, sessions, receivers, deviceIds)
        case None => []
        case Some(calls) => calls
  }

  /** Nodes a set of calls reaches: every known subscriber on Linux, else those with a subscriber on a called device. */
  ghost function Reached(platform: Platform, sessions: map<NodeId, PeerSessions>, calls: seq<DeviceId>): set<NodeId> {
    if calls == [] then {}
    else if platform == Linux then AllSubscribers(sessions)
    else set n | n in sessions && exists i :: 0 <= i < |calls| && sessions[n].Subscribed(calls[i])
  }

  /** No record listens on the device through which another record is notified. */
  ghost predicate DevicesNotShared(sessions: map<NodeId, PeerSessions>) {
    forall m, n | m in sessions && n in sessions && sessions[m].NotifySubscriberDeviceId().Some? ::
      sessions[n].Subscribed(sessions[m].NotifySubscriberDeviceId().value) ==> m == n
  }

  lemma {:induction false} SubscriberDevicesExact(sessions: map<NodeId, PeerSessions>, receivers: seq<NodeId>)
    ensures SubscriberDevices(sessions, receivers).Some?
            <==> forall i :: 0 <= i < |receivers| ==> receivers[i] in AllSubscribers(sessions)
    ensures SubscriberDevices(sessions, receivers).Some? ==>
              var ids := SubscriberDevices(sessions, receivers).value;
              |ids| == |receivers|
              && forall i :: 0 <= i < |receivers| ==> SubscriberDevice(sessions, receivers[i]) == Some(ids[i])
  {
    if |receivers| > 0 {
      SubscriberDevicesExact(sessions, receivers[1..]);
      var rest := receivers[1..];
      assert receivers == [receivers[0]] + rest;
      assert forall i :: 0 <= i < |rest| ==> rest[i] == receivers[i + 1];
      assert forall i :: 0 < i < |receivers| ==> receivers[i] == rest[i - 1];
    }
  }

  /** Calls are made exactly when every receiver is a known subscriber (and, on Linux, nobody else is). */
  lemma NotifyIsAllOrNothing(
    platform: Platform, sessions: map<NodeId, PeerSessions>, endpoint: LinkEndpoint, receivers: seq<NodeId>)
    ensures NotifyCalls(platform, sessions, endpoint, receivers) != [] <==>
              && endpoint == NotifyFanoutEndpoint() && receivers != []
              && NodeSet(receivers) <= AllSubscribers(sessions)
              && (platform == Linux ==> NodeSet(receivers) == AllSubscribers(sessions))
    ensures platform == Linux ==> |NotifyCalls(platform, sessions, endpoint, receivers)| <= 1
    ensures platform == Targeted && NotifyCalls(platform, sessions, endpoint, receivers) != [] ==>
              var calls := NotifyCalls(platform, sessions, endpoint, receivers);
              |calls| == |receivers|
              && forall i :: 0 <= i < |receivers| ==> SubscriberDevice(sessions, receivers[i]) == Some(calls[i])
  {
    SubscriberDevicesExact(sessions, receivers);
    assert NodeSet(receivers) <= AllSubscribers(sessions)
           <==> forall i :: 0 <= i < |receivers| ==> receivers[i] in AllSubscribers(sessions) by {
      if NodeSet(receivers) <= AllSubscribers(sessions) {
        forall i | 0 <= i < |receivers| ensures receivers[i] in AllSubscribers(sessions) {
          assert receivers[i] in NodeSet(receivers);
        }
      }
    }
  }

  /** The payload reaches nobody, or exactly the requested receivers. */
  lemma NotifyReachesExactlyTheReceivers(
    platform: Platform, sessions: map<NodeId, PeerSessions>, endpoint: LinkEndpoint,
    receivers: seq<NodeId>)
    requires platform == Targeted ==> DevicesNotShared(sessions)
    ensures var calls := NotifyCalls(platform, sessions, endpoint, receivers);
      Reached(platform, sessions, calls) == if calls == [] then {} else NodeSet(receivers)
  {
    var calls := NotifyCalls(platform, sessions, endpoint, receivers);
    NotifyIsAllOrNothing(platform, sessions, endpoint, receivers);
    if platform == Targeted && calls != [] {
      forall n ensures n in Reached(platform, sessions, calls) <==> n in NodeSet(receivers) {
        if n in NodeSet(receivers) {
          var i :| 0 <= i < |receivers| && receivers[i] == n;
          NotifiedIsSubscribed(sessions, n);
          assert SubscriberDevice(sessions, n) == Some(calls[i]);
        }
        if n in Reached(platform, sessions, calls) {
          var i :| 0 <= i < |calls| && sessions[n].Subscribed(calls[i]);
          assert SubscriberDevice(sessions, receivers[i]) == Some(calls[i]);
          assert receivers[i] in sessions && receivers[i] == n;
        }
      }
    }
  }

  lemma NotifiedIsSubscribed(sessions: map<NodeId, PeerSessions>, n: NodeId)
    requires n in sessions && sessions[n].NotifySubscriberDeviceId().Some?
    ensures sessions[n].Subscribed(sessions[n].NotifySubscriberDeviceId().value)
  {
    assert sessions[n].notifySubscribers[0].deviceId == sessions[n].NotifySubscriberDeviceId().value;
  }

  /** That is also needed: targeted calls are exact for all receiver lists if and only if no device is shared so. */
  lemma TargetedExactForAllExactly(sessions: map<NodeId, PeerSessions>)
    ensures DevicesNotShared(sessions) <==>
              forall receivers :: TargetedExact(sessions, receivers)
  {
    if DevicesNotShared(sessions) {
      forall receivers ensures TargetedExact(sessions, receivers) {
        NotifyReachesExactlyTheReceivers(Targeted, sessions, NotifyFanoutEndpoint(), receivers);
      }
    } else {
      var m, n :| m in sessions && n in sessions && sessions[m].NotifySubscriberDeviceId().Some?
                  && sessions[n].Subscribed(sessions[m].NotifySubscriberDeviceId().value) && m != n;
      var calls := NotifyCalls(Targeted, sessions, NotifyFanoutEndpoint(), [m]);
      NotifyIsAllOrNothing(Targeted, sessions, NotifyFanoutEndpoint(), [m]);
      assert NodeSet([m]) == {m};
      assert SubscriberDevice(sessions, [m][0]) == Some(calls[0]);
      assert n in Reached(Targeted, sessions, calls);
      assert !TargetedExact(sessions, [m]);
    }
  }

  ghost predicate TargetedExact(sessions: map<NodeId, PeerSessions>, receivers: seq<NodeId>) {
    var calls := NotifyCalls(Targeted, sessions, NotifyFanoutEndpoint(), receivers);
    Reached(Targeted, sessions, calls) == if calls == [] then {} else NodeSet(receivers)
  }

  /** Agreement of the runtime's maps rules out shared devices. */
  lemma AgreementSharesNoDevice(s: RuntimeSpec.Runtime)
    requires RuntimeAgreement.MapsAgree(s)
    ensures DevicesNotShared(s.sessions)
  {
    forall m, n | m in s.sessions && n in s.sessions
                  && s.sessions[m].NotifySubscriberDeviceId().Some?
                  && s.sessions[n].Subscribed(s.sessions[m].NotifySubscriberDeviceId().value)
      ensures m == n
    {
      assert RuntimeAgreement.NodeAgrees(s, m) && RuntimeAgreement.NodeAgrees(s, n);
      var d := s.sessions[m].PreferredEgress().value.deviceId;
      var e := s.sessions[n].PreferredEgress().value.deviceId;
      assert RuntimeSpec.Resolves(s, d, m) && RuntimeAgreement.OnPath(s, d, m);
      assert RuntimeSpec.Resolves(s, e, n) && RuntimeAgreement.OnPath(s, e, n);
    }
  }
}

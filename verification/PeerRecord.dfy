/** The mutable form of a node's session record, as the runtime task edits it in place. */
module PeerRecord {
  import opened Identity
  import opened Gatt
  import opened Sessions

  class Record {
    var state: PeerSessionState
    var notifySubscribers: seq<BleNotifySubscriber>

    function Value(): PeerSessions
      reads this
    {
      PeerSessions(state, notifySubscribers)
    }

    constructor (value: PeerSessions)
      ensures Value() == value
    {
      state := value.state;
      notifySubscribers := value.notifySubscribers;
    }

    method InstallGattSubscription(subscriber: BleNotifySubscriber)
      modifies this
      ensures Value() == old(Value()).InstallGattSubscription(subscriber)
    {
      var i := 0;
      while i < |notifySubscribers| && notifySubscribers[i].deviceId != subscriber.deviceId
        invariant 0 <= i <= |notifySubscribers|
        invariant Value() == old(Value())
        invariant forall j :: 0 <= j < i ==> notifySubscribers[j].deviceId != subscriber.deviceId
      {
        i := i + 1;
      }
      ReplacedIsIdentity(notifySubscribers, subscriber);
      if i < |notifySubscribers| {
        assert Value().Subscribed(subscriber.deviceId);
        notifySubscribers := notifySubscribers[i := subscriber];
      } else {
        notifySubscribers := notifySubscribers + [subscriber];
      }
    }

    method RemoveGattSubscription(deviceId: DeviceId) returns (removed: bool)
      modifies this
      ensures (Value(), removed) == old(Value()).RemoveGattSubscription(deviceId)
      ensures removed == old(Value()).Subscribed(deviceId)
    {
      var kept := [];
      for i := |notifySubscribers| downto 0
        invariant Value() == old(Value())
        invariant kept == Without(notifySubscribers[i..], deviceId)
      {
        assert notifySubscribers[i..][1..] == notifySubscribers[i + 1..];
        if notifySubscribers[i].deviceId != deviceId { kept := [notifySubscribers[i]] + kept; }
      }
      assert notifySubscribers[0..] == notifySubscribers;
      WithoutFilters(notifySubscribers, deviceId);
      removed := |kept| != |notifySubscribers|;
      assert removed <==> exists i :: 0 <= i < |notifySubscribers| && notifySubscribers[i].deviceId == deviceId;
      notifySubscribers := kept;
    }

    method InstallGattCentral(session: BleSession)
      modifies this
      ensures Value() == old(Value()).InstallGattCentral(session)
    {
      match state {
        case L2capPreferred(current, fallback) =>
          if fallback == None { state := L2capPreferred(current, Some(session)); }
        case _ =>
          state := GattOnly(session, session);
      }
    }

    method PromoteL2cap(session: BleSession)
      modifies this
      ensures Value() == old(Value()).PromoteL2cap(session)
    {
      var sessions := Value().Sessions();
      var fallback: Option<BleSession> := None;
      for i := |sessions| downto 0
        invariant Value() == old(Value())
        invariant fallback == FirstGatt(sessions[i..])
      {
        assert sessions[i..][1..] == sessions[i + 1..];
        if !sessions[i].L2cap? { fallback := Some(sessions[i]); }
      }
      assert sessions[0..] == sessions;
      state := L2capPreferred(session, fallback);
    }

    method DowngradeL2cap(channelId: nat) returns (effective: Option<BleSession>)
      modifies this
      ensures (Value(), effective) == old(Value()).DowngradeL2cap(channelId)
    {
      match state {
        case L2capPreferred(L2cap(_, current), fallback) =>
          if current != channelId {
            return Value().PreferredEgress();
          }
          match fallback {
            case Some(session) =>
              state := GattOnly(session, session);
              return Some(session);
            case None =>
              state := Disconnected;
              return None;
          }
        case _ =>
          return Value().PreferredEgress();
      }
    }

    method EndpointsForDevice(deviceId: DeviceId) returns (endpoints: seq<LinkEndpoint>)
      ensures endpoints == Value().EndpointsForDevice(deviceId)
    {
      endpoints := [];
      var sessions := Value().Sessions();
      for i := 0 to |sessions|
        invariant SessionEndpoints(sessions, deviceId, []) == SessionEndpoints(sessions[i..], deviceId, endpoints)
      {
        assert sessions[i..][1..] == sessions[i + 1..];
        if sessions[i].deviceId == deviceId && sessions[i].Endpoint() !in endpoints {
          endpoints := endpoints + [sessions[i].Endpoint()];
        }
      }
      ghost var fromSessions := endpoints;
      for i := 0 to |notifySubscribers|
        invariant SubscriberEndpoints(notifySubscribers, deviceId, fromSessions)
               == SubscriberEndpoints(notifySubscribers[i..], deviceId, endpoints)
      {
        assert notifySubscribers[i..][1..] == notifySubscribers[i + 1..];
        if notifySubscribers[i].deviceId == deviceId && NotifyFanoutEndpoint() !in endpoints {
          endpoints := endpoints + [NotifyFanoutEndpoint()];
        }
      }
    }
  }
}

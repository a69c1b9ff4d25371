/** Sessions held for one remote node: the preferred path, its fallback and the notify subscribers. */
module Sessions {
  import opened Identity
  import opened Gatt

  datatype BleSession =
    | GattCentral(deviceId: DeviceId)
    | L2cap(deviceId: DeviceId, channelId: nat)
  {
    function Endpoint(): LinkEndpoint {
      if GattCentral? then GattEndpoint(deviceId) else L2capEndpoint(deviceId)
    }
  }

  datatype BleNotifySubscriber = BleNotifySubscriber(deviceId: DeviceId)

  datatype PeerSessionState =
    | Disconnected
    | GattOnly(ingress: BleSession, egress: BleSession)
    | L2capPreferred(session: BleSession, fallback: Option<BleSession>)

  datatype PeerSessions = PeerSessions(state: PeerSessionState, notifySubscribers: seq<BleNotifySubscriber>)
  {
    function PreferredEgress(): Option<BleSession> {
      match state
      case Disconnected => None
      case GattOnly(_, egress) => Some(egress)
      case L2capPreferred(session, _) => Some(session)
    }

    function EgressForDevice(deviceId: DeviceId): Option<BleSession> {
      match PreferredEgress()
      case Some(session) => if session.deviceId == deviceId then Some(session) else None
      case None => None
    }

    function Sessions(): seq<BleSession> {
      match state
      case Disconnected => []
      case GattOnly(ingress, egress) => [ingress, egress]
      case L2capPreferred(session, None) => [session]
      case L2capPreferred(session, Some(fallback)) => [session, fallback]
    }

    predicate Subscribed(deviceId: DeviceId) {
      exists i :: 0 <= i < |notifySubscribers| && notifySubscribers[i].deviceId == deviceId
    }

    predicate ReferencesDevice(deviceId: DeviceId) {
      (exists i :: 0 <= i < |Sessions()| && Sessions()[i].deviceId == deviceId) || Subscribed(deviceId)
    }

    function NotifySubscriberDeviceId(): Option<DeviceId> {
      if notifySubscribers == [] then None else Some(notifySubscribers[0].deviceId)
    }

    function FirstGattFallback(): Option<BleSession> {
      FirstGatt(Sessions())
    }

    /** Endpoints this record holds on a device, each once, sessions before the notify fanout. */
    function EndpointsForDevice(deviceId: DeviceId): (endpoints: seq<LinkEndpoint>) {
      SubscriberEndpoints(notifySubscribers, deviceId, SessionEndpoints(Sessions(), deviceId, []))
    }

    function InstallGattSubscription(subscriber: BleNotifySubscriber): PeerSessions {
      if Subscribed(subscriber.deviceId)
      then this.(notifySubscribers := Replaced(notifySubscribers, subscriber))
      else this.(notifySubscribers := notifySubscribers + [subscriber])
    }

    function RemoveGattSubscription(deviceId: DeviceId): (PeerSessions, bool) {
      var kept := Without(notifySubscribers, deviceId);
      (this.(notifySubscribers := kept), |kept| != |notifySubscribers|)
    }

    function InstallGattCentral(session: BleSession): PeerSessions {
      match state
      case Disconnected => this.(state := GattOnly(session, session))
      case GattOnly(_, _) => this.(state := GattOnly(session, session))
      case L2capPreferred(current, None) => this.(state := L2capPreferred(current, Some(session)))
      case L2capPreferred(_, Some(_)) => this
    }

    function PromoteL2cap(session: BleSession): PeerSessions {
      this.(state := L2capPreferred(session, FirstGattFallback()))
    }

    /** The new record and the session whose endpoint is now the effective one. */
    function DowngradeL2cap(channelId: nat): (PeerSessions, Option<BleSession>) {
      match state
      case L2capPreferred(L2cap(_, current), fallback) =>
        if current != channelId then (this, PreferredEgress())
        else if fallback.Some? then (this.(state := GattOnly(fallback.value, fallback.value)), fallback)
        else (this.(state := Disconnected), None)
      case _ => (this, PreferredEgress())
    }
  }

  const Empty := PeerSessions(Disconnected, [])

  function GattWithFallback(session: BleSession): PeerSessions {
    PeerSessions(GattOnly(session, session), [])
  }

  function GattNotifyFanout(subscriber: BleNotifySubscriber): PeerSessions {
    PeerSessions(Disconnected, [subscriber])
  }

  function L2capPreferredSessions(session: BleSession, fallback: Option<BleSession>): PeerSessions {
    PeerSessions(L2capPreferred(session, fallback), [])
  }

  function FirstGatt(sessions: seq<BleSession>): Option<BleSession> {
    if |sessions| == 0 then None
    else if !sessions[0].L2cap? then Some(sessions[0])
    else FirstGatt(sessions[1..])
  }

  function PushUnique(endpoints: seq<LinkEndpoint>, endpoint: LinkEndpoint): seq<LinkEndpoint> {
    if endpoint in endpoints then endpoints else endpoints + [endpoint]
  }

  function SessionEndpoints(sessions: seq<BleSession>, deviceId: DeviceId, acc: seq<LinkEndpoint>): seq<LinkEndpoint> {
    if |sessions| == 0 then acc
    else SessionEndpoints(sessions[1..], deviceId,
           if sessions[0].deviceId == deviceId then PushUnique(acc, sessions[0].Endpoint()) else acc)
  }

  function SubscriberEndpoints(subscribers: seq<BleNotifySubscriber>, deviceId: DeviceId, acc: seq<LinkEndpoint>):
    seq<LinkEndpoint>
  {
    if |subscribers| == 0 then acc
    else SubscriberEndpoints(subscribers[1..], deviceId,
           if subscribers[0].deviceId == deviceId then PushUnique(acc, NotifyFanoutEndpoint()) else acc)
  }

  /** The first subscriber on the same device is overwritten in place. */
  function Replaced(subscribers: seq<BleNotifySubscriber>, subscriber: BleNotifySubscriber): seq<BleNotifySubscriber> {
    if |subscribers| == 0 then []
    else if subscribers[0].deviceId == subscriber.deviceId then [subscriber] + subscribers[1..]
    else [subscribers[0]] + Replaced(subscribers[1..], subscriber)
  }

  function Without(subscribers: seq<BleNotifySubscriber>, deviceId: DeviceId): (kept: seq<BleNotifySubscriber>) {
    if |subscribers| == 0 then []
    else if subscribers[0].deviceId == deviceId then Without(subscribers[1..], deviceId)
    else [subscribers[0]] + Without(subscribers[1..], deviceId)
  }

  // ----- What the record keeps, whatever happens to it -----

  ghost predicate DistinctDevices(subscribers: seq<BleNotifySubscriber>) {
    forall i, j :: 0 <= i < j < |subscribers| ==> subscribers[i].deviceId != subscribers[j].deviceId
  }

  ghost predicate StateValid(state: PeerSessionState) {
    match state
    case Disconnected => true
    case GattOnly(ingress, egress) => ingress == egress && egress.GattCentral?
    case L2capPreferred(session, fallback) => session.L2cap? && (fallback.Some? ==> fallback.value.GattCentral?)
  }

  ghost predicate Valid(p: PeerSessions) {
    StateValid(p.state) && DistinctDevices(p.notifySubscribers)
  }

  datatype Operation =
    | Install(session: BleSession)
    | Promote(session: BleSession)
    | Downgrade(channelId: nat)
    | Subscribe(deviceId: DeviceId)
    | Unsubscribe(deviceId: DeviceId)
  {
    /** The kind of session each operation is fed by the runtime task. */
    predicate KindOk() {
      (Install? ==> session.GattCentral?) && (Promote? ==> session.L2cap?)
    }
  }

  function Apply(p: PeerSessions, op: Operation): PeerSessions {
    match op
    case Install(session) => p.InstallGattCentral(session)
    case Promote(session) => p.PromoteL2cap(session)
    case Downgrade(channelId) => p.DowngradeL2cap(channelId).0
    case Subscribe(deviceId) => p.InstallGattSubscription(BleNotifySubscriber(deviceId))
    case Unsubscribe(deviceId) => p.RemoveGattSubscription(deviceId).0
  }

  function ApplyAll(p: PeerSessions, ops: seq<Operation>): PeerSessions
    decreases |ops|
  {
    if |ops| == 0 then p else ApplyAll(Apply(p, ops[0]), ops[1..])
  }

  lemma {:induction false} WithoutFilters(subs: seq<BleNotifySubscriber>, deviceId: DeviceId)
    ensures forall s :: s in Without(subs, deviceId) <==> s in subs && s.deviceId != deviceId
    ensures |Without(subs, deviceId)| <= |subs|
    ensures |Without(subs, deviceId)| == |subs| <==> BleNotifySubscriber(deviceId) !in subs
    ensures |Without(subs, deviceId)| == |subs| ==> Without(subs, deviceId) == subs
  {
    if |subs| > 0 {
      WithoutFilters(subs[1..], deviceId);
      assert subs == [subs[0]] + subs[1..];
      assert subs[0] == BleNotifySubscriber(subs[0].deviceId);
    }
  }

  lemma {:induction false} WithoutKeepsDistinct(subs: seq<BleNotifySubscriber>, deviceId: DeviceId)
    requires DistinctDevices(subs)
    ensures DistinctDevices(Without(subs, deviceId))
  {
    if |subs| > 0 {
      assert DistinctDevices(subs[1..]);
      WithoutKeepsDistinct(subs[1..], deviceId);
      var rest := Without(subs[1..], deviceId);
      WithoutFilters(subs[1..], deviceId);
      forall j | 0 <= j < |rest| ensures rest[j].deviceId != subs[0].deviceId {
        assert rest[j] in subs[1..];
      }
    }
  }

  lemma SubscribedIsMember(p: PeerSessions, deviceId: DeviceId)
    ensures p.Subscribed(deviceId) <==> BleNotifySubscriber(deviceId) in p.notifySubscribers
  {
    if p.Subscribed(deviceId) {
      var i :| 0 <= i < |p.notifySubscribers| && p.notifySubscribers[i].deviceId == deviceId;
      assert p.notifySubscribers[i] == BleNotifySubscriber(deviceId);
    }
  }

  lemma {:induction false} ReplacedIsIdentity(subs: seq<BleNotifySubscriber>, subscriber: BleNotifySubscriber)
    ensures Replaced(subs, subscriber) == subs
  {
    if |subs| > 0 {
      ReplacedIsIdentity(subs[1..], subscriber);
      assert subs == [subs[0]] + subs[1..];
    }
  }

  lemma ApplyKeepsValid(p: PeerSessions, op: Operation)
    requires Valid(p) && op.KindOk()
    ensures Valid(Apply(p, op))
  {
    match op
    case Subscribe(deviceId) => ReplacedIsIdentity(p.notifySubscribers, BleNotifySubscriber(deviceId));
    case Unsubscribe(deviceId) => WithoutKeepsDistinct(p.notifySubscribers, deviceId);
    case Promote(_) => FallbackClosedForm(p);
    case _ =>
  }

  /** Any sequence of operations from a disconnected record leaves a coherent one. */
  lemma {:induction false} EveryHistoryIsValid(p: PeerSessions, ops: seq<Operation>)
    requires Valid(p) && forall i :: 0 <= i < |ops| ==> ops[i].KindOk()
    ensures Valid(ApplyAll(p, ops))
    ensures Valid(Empty)
    decreases |ops|
  {
    if |ops| > 0 {
      ApplyKeepsValid(p, ops[0]);
      EveryHistoryIsValid(Apply(p, ops[0]), ops[1..]);
    }
  }

  lemma ApplyDecidesSubscription(p: PeerSessions, op: Operation, deviceId: DeviceId)
    ensures Apply(p, op).Subscribed(deviceId)
            <==> op == Subscribe(deviceId) || (op != Unsubscribe(deviceId) && p.Subscribed(deviceId))
  {
    var q := Apply(p, op);
    SubscribedIsMember(p, deviceId);
    SubscribedIsMember(q, deviceId);
    match op
    case Subscribe(d) =>
      ReplacedIsIdentity(p.notifySubscribers, BleNotifySubscriber(d));
      SubscribedIsMember(p, d);
    case Unsubscribe(d) => WithoutFilters(p.notifySubscribers, d);
    case _ => assert q.notifySubscribers == p.notifySubscribers;
  }

  /** Subscriptions made and withdrawn decide the subscriber set, and nothing else does. */
  lemma {:induction false} SubscriptionsFollowHistory(p: PeerSessions, ops: seq<Operation>, deviceId: DeviceId)
    ensures ApplyAll(p, ops).Subscribed(deviceId) <==> LastWord(p.Subscribed(deviceId), ops, deviceId)
    decreases |ops|
  {
    if |ops| > 0 {
      ApplyDecidesSubscription(p, ops[0], deviceId);
      SubscriptionsFollowHistory(Apply(p, ops[0]), ops[1..], deviceId);
    }
  }

  /** Whether the latest subscribe or unsubscribe for the device was a subscribe. */
  function LastWord(initially: bool, ops: seq<Operation>, deviceId: DeviceId): bool
    decreases |ops|
  {
    if |ops| == 0 then initially
    else LastWord(if ops[0] == Subscribe(deviceId) then true
                  else if ops[0] == Unsubscribe(deviceId) then false else initially, ops[1..], deviceId)
  }

  function PromoteAll(p: PeerSessions, sessions: seq<BleSession>): PeerSessions
    decreases |sessions|
  {
    if |sessions| == 0 then p else PromoteAll(p.PromoteL2cap(sessions[0]), sessions[1..])
  }

  lemma {:induction false} PromoteAllState(p: PeerSessions, sessions: seq<BleSession>)
    requires |sessions| > 0 && forall i :: 0 <= i < |sessions| ==> sessions[i].L2cap?
    ensures PromoteAll(p, sessions) == p.(state := L2capPreferred(sessions[|sessions| - 1], p.FirstGattFallback()))
    decreases |sessions|
  {
    var q := p.PromoteL2cap(sessions[0]);
    if |sessions| > 1 {
      PromoteAllState(q, sessions[1..]);
      FallbackClosedForm(p);
      FallbackClosedForm(q);
    }
  }

  /** The saved GATT session, read off the state. */
  lemma FallbackClosedForm(p: PeerSessions)
    ensures FirstGatt(p.Sessions()).Some? ==> FirstGatt(p.Sessions()).value.GattCentral?
    ensures p.state.GattOnly? && p.state.ingress.GattCentral? ==> p.FirstGattFallback() == Some(p.state.ingress)
    ensures p.state.L2capPreferred? && p.state.session.L2cap?
            && (p.state.fallback.Some? ==> p.state.fallback.value.GattCentral?)
            ==> p.FirstGattFallback() == p.state.fallback
    ensures p.state.Disconnected? ==> p.FirstGattFallback() == None
  {
    FirstGattIsGatt(p.Sessions());
    if p.state.L2capPreferred? {
      match p.state.fallback
      case None => assert p.Sessions()[1..] == [];
      case Some(g) =>
        assert p.Sessions()[1..] == [g];
        if g.GattCentral? { assert FirstGatt([g]) == Some(g); }
    }
  }

  lemma {:induction false} FirstGattIsGatt(sessions: seq<BleSession>)
    ensures FirstGatt(sessions).Some? ==>
              FirstGatt(sessions).value.GattCentral? && FirstGatt(sessions).value in sessions
  {
    if |sessions| > 0 { FirstGattIsGatt(sessions[1..]); }
  }

  /** Upgrades are undone exactly: losing the current channel brings the GATT record back as it was. */
  lemma {:induction false} DowngradeUndoesPromotions(p: PeerSessions, sessions: seq<BleSession>, channelId: nat)
    requires Valid(p) && |sessions| > 0
    requires forall i :: 0 <= i < |sessions| ==> sessions[i].L2cap?
    ensures var promoted := PromoteAll(p, sessions);
            var (downgraded, effective) := promoted.DowngradeL2cap(channelId);
            if channelId != sessions[|sessions| - 1].channelId
            then downgraded == promoted && effective == Some(sessions[|sessions| - 1])
            else downgraded.notifySubscribers == p.notifySubscribers
                 && effective == downgraded.PreferredEgress()
                 && (!p.state.L2capPreferred? ==> downgraded == p)
                 && (p.state.L2capPreferred? ==> effective == p.state.fallback)
  {
    PromoteAllState(p, sessions);
    FallbackClosedForm(p);
  }

  /** A GATT install keeps an L2CAP path and an earlier fallback; it is the path itself where there is no L2CAP. */
  lemma InstallExactly(p: PeerSessions, session: BleSession)
    requires StateValid(p.state) && session.GattCentral?
    ensures var q := p.InstallGattCentral(session);
      && q.notifySubscribers == p.notifySubscribers
      && (p.state.L2capPreferred? ==>
            && q.state.L2capPreferred? && q.PreferredEgress() == p.PreferredEgress()
            && q.FirstGattFallback() ==
                 (if p.FirstGattFallback().Some? then p.FirstGattFallback() else Some(session)))
      && (!p.state.L2capPreferred? ==> q.state == GattOnly(session, session))
  {
    FallbackClosedForm(p);
    FallbackClosedForm(p.InstallGattCentral(session));
  }

  /** Subscribing touches no path, keeps everyone listed in place and lists a new device last. */
  lemma SubscribeExactly(p: PeerSessions, deviceId: DeviceId)
    ensures var q := p.InstallGattSubscription(BleNotifySubscriber(deviceId));
      && q.state == p.state
      && q.notifySubscribers
         == p.notifySubscribers + (if p.Subscribed(deviceId) then [] else [BleNotifySubscriber(deviceId)])
      && q.NotifySubscriberDeviceId()
         == (if p.NotifySubscriberDeviceId().Some? then p.NotifySubscriberDeviceId() else Some(deviceId))
  {
    ReplacedIsIdentity(p.notifySubscribers, BleNotifySubscriber(deviceId));
  }

  /** The faulted endpoints reported for a device name that device, each once, and miss none. */
  lemma EndpointsForDeviceExact(p: PeerSessions, deviceId: DeviceId, endpoint: LinkEndpoint)
    ensures endpoint in p.EndpointsForDevice(deviceId)
            <==> (exists i :: 0 <= i < |p.Sessions()| && p.Sessions()[i].deviceId == deviceId
                              && p.Sessions()[i].Endpoint() == endpoint)
                 || (p.Subscribed(deviceId) && endpoint == NotifyFanoutEndpoint())
    ensures NoRepeats(p.EndpointsForDevice(deviceId))
  {
    var fromSessions := SessionEndpoints(p.Sessions(), deviceId, []);
    SessionEndpointsExact(p.Sessions(), deviceId, [], endpoint);
    SubscriberEndpointsExact(p.notifySubscribers, deviceId, fromSessions, endpoint);
  }

  ghost predicate NoRepeats(endpoints: seq<LinkEndpoint>) {
    forall i, j :: 0 <= i < j < |endpoints| ==> endpoints[i] != endpoints[j]
  }

  lemma {:induction false} SessionEndpointsExact(
    sessions: seq<BleSession>, deviceId: DeviceId, acc: seq<LinkEndpoint>, endpoint: LinkEndpoint)
    ensures endpoint in SessionEndpoints(sessions, deviceId, acc)
            <==> endpoint in acc || exists i :: 0 <= i < |sessions| && sessions[i].deviceId == deviceId
                                               && sessions[i].Endpoint() == endpoint
    ensures NoRepeats(acc) ==> NoRepeats(SessionEndpoints(sessions, deviceId, acc))
  {
    if |sessions| > 0 {
      var acc' := if sessions[0].deviceId == deviceId then PushUnique(acc, sessions[0].Endpoint()) else acc;
      SessionEndpointsExact(sessions[1..], deviceId, acc', endpoint);
      if i :| 0 <= i < |sessions[1..]| && sessions[1..][i].deviceId == deviceId
              && sessions[1..][i].Endpoint() == endpoint {
        assert sessions[i + 1].deviceId == deviceId && sessions[i + 1].Endpoint() == endpoint;
      }
      if i :| 0 <= i < |sessions| && sessions[i].deviceId == deviceId && sessions[i].Endpoint() == endpoint {
        if i > 0 { assert sessions[1..][i - 1] == sessions[i]; }
      }
    }
  }

  lemma {:induction false} SubscriberEndpointsExact(
    subs: seq<BleNotifySubscriber>, deviceId: DeviceId, acc: seq<LinkEndpoint>, endpoint: LinkEndpoint)
    ensures endpoint in SubscriberEndpoints(subs, deviceId, acc)
            <==> endpoint in acc
                 || (endpoint == NotifyFanoutEndpoint() && exists i :: 0 <= i < |subs| && subs[i].deviceId == deviceId)
    ensures NoRepeats(acc) ==> NoRepeats(SubscriberEndpoints(subs, deviceId, acc))
  {
    if |subs| > 0 {
      var acc' := if subs[0].deviceId == deviceId then PushUnique(acc, NotifyFanoutEndpoint()) else acc;
      SubscriberEndpointsExact(subs[1..], deviceId, acc', endpoint);
      if i :| 0 <= i < |subs[1..]| && subs[1..][i].deviceId == deviceId {
        assert subs[i + 1].deviceId == deviceId;
      }
      if i :| 0 <= i < |subs| && subs[i].deviceId == deviceId {
        if i > 0 { assert subs[1..][i - 1] == subs[i]; }
      }
    }
  }
}

/** The client's multicast admission: a view of the subscribers rebuilt from control events alone. */
module Multicast {
  import opened Identity
  import opened Gatt
  import opened Observations
  import opened Views
  import RuntimeSpec
  import RuntimeAgreement
  import RuntimeTheorems
  import Notify

  predicate IsMulticastFanoutObservation(observation: TransportObservation) {
    observation.LinkObserved? && observation.observation.value.endpoint == NotifyFanoutEndpoint()
  }

  function Admit(subscribers: map<NodeId, nat>, observation: TransportObservation): map<NodeId, nat> {
    if !IsMulticastFanoutObservation(observation) then subscribers
    else if observation.observation.value.state == Faulted then subscribers - {observation.remoteNodeId}
    else subscribers[observation.remoteNodeId := observation.observation.observedAtTick]
  }

  function AdmitAll(observations: seq<TransportObservation>): map<NodeId, nat>
    decreases |observations|
  {
    if |observations| == 0 then map[]
    else Admit(AdmitAll(observations[..|observations| - 1]), observations[|observations| - 1])
  }

  /** Latest tick among the receivers that are known; zero when none is. */
  function LatestObservedTick(subscribers: map<NodeId, nat>, receivers: seq<NodeId>): nat {
    if |receivers| == 0 then 0
    else
      var rest := LatestObservedTick(subscribers, receivers[1..]);
      if receivers[0] in subscribers && subscribers[receivers[0]] > rest then subscribers[receivers[0]] else rest
  }

  lemma {:induction false} LatestObservedTickIsMaximum(subscribers: map<NodeId, nat>, receivers: seq<NodeId>)
    ensures forall i :: 0 <= i < |receivers| && receivers[i] in subscribers ==>
              subscribers[receivers[i]] <= LatestObservedTick(subscribers, receivers)
    ensures (exists i :: 0 <= i < |receivers| && receivers[i] in subscribers
                         && subscribers[receivers[i]] == LatestObservedTick(subscribers, receivers))
            || (LatestObservedTick(subscribers, receivers) == 0)
  {
    if |receivers| > 0 {
      LatestObservedTickIsMaximum(subscribers, receivers[1..]);
      forall i | 0 <= i < |receivers| && receivers[i] in subscribers
        ensures subscribers[receivers[i]] <= LatestObservedTick(subscribers, receivers) {
        if i > 0 { assert receivers[1..][i - 1] == receivers[i]; }
      }
      var rest := LatestObservedTick(subscribers, receivers[1..]);
      if receivers[0] in subscribers && subscribers[receivers[0]] > rest {
        assert receivers[0] in subscribers;
      } else {
        var tail := receivers[1..];
        if j :| 0 <= j < |tail| && tail[j] in subscribers && subscribers[tail[j]] == rest {
          assert receivers[j + 1] == tail[j];
        }
      }
    }
  }

  datatype Admission = Admitted(endpoint: LinkEndpoint, receivers: seq<NodeId>) | Rejected

  class MulticastAdmission {
    var subscribers: map<NodeId, nat>

    constructor ()
      ensures subscribers == AdmitAll([])
    {
      subscribers := map[];
    }

    method IngestTransportObservation(observation: TransportObservation)
      modifies this
      ensures subscribers == Admit(old(subscribers), observation)
    {
      if !observation.LinkObserved? {
        return;
      }
      if observation.observation.value.endpoint != NotifyFanoutEndpoint() {
        return;
      }
      if observation.observation.value.state == Faulted {
        subscribers := subscribers - {observation.remoteNodeId};
      } else {
        subscribers := subscribers[observation.remoteNodeId := observation.observation.observedAtTick];
      }
    }

    /** `shaped` is the receiver list delivery shaping grants for the evidence tick, if it grants one. */
    method SupportFor(receivers: seq<NodeId>, shaped: nat -> Option<seq<NodeId>>) returns (admission: Admission)
      ensures admission.Admitted? <==>
                receivers != [] && Notify.NodeSet(receivers) <= subscribers.Keys
                && shaped(LatestObservedTick(subscribers, receivers)).Some?
      ensures admission.Admitted? ==>
                admission.endpoint == NotifyFanoutEndpoint()
                && Some(admission.receivers) == shaped(LatestObservedTick(subscribers, receivers))
    {
      if receivers == [] {
        return Rejected;
      }
      for i := 0 to |receivers|
        invariant forall j :: 0 <= j < i ==> receivers[j] in subscribers
      {
        if receivers[i] !in subscribers {
          assert receivers[i] in Notify.NodeSet(receivers);
          return Rejected;
        }
      }
      var tick := LatestTick(receivers);
      match shaped(tick) {
        case None => return Rejected;
        case Some(granted) => return Admitted(NotifyFanoutEndpoint(), granted);
      }
    }

    method LatestTick(receivers: seq<NodeId>) returns (tick: nat)
      ensures tick == LatestObservedTick(subscribers, receivers)
    {
      tick := 0;
      for i := |receivers| downto 0
        invariant tick == LatestObservedTick(subscribers, receivers[i..])
      {
        assert receivers[i..][1..] == receivers[i + 1..];
        if receivers[i] in subscribers && subscribers[receivers[i]] > tick {
          tick := subscribers[receivers[i]];
        }
      }
    }
  }

  /** Whatever the ticks, the admission's keys are the nodes on which the events' last word is a subscription. */
  lemma {:induction false} AdmissionKeysFollowEvents(
    events: seq<IngressEvent>, observations: seq<TransportObservation>, n: NodeId)
    requires StampsOf(events, observations)
    ensures n in AdmitAll(observations) <==> KnownSubscriber(events, n)
    decreases |events|
  {
    if |events| > 0 {
      var k := |events| - 1;
      AdmissionKeysFollowEvents(events[..k], observations[..k], n);
      assert observations[k] == Observe(events[k], observations[k].Tick());
    }
  }

  predicate FanoutOn(observation: TransportObservation, n: NodeId) {
    IsMulticastFanoutObservation(observation) && observation.remoteNodeId == n
  }

  /** A node is admitted under the tick of the last fanout observation on it, which is not a fault. */
  lemma {:induction false} AdmittedUnderLastTick(observations: seq<TransportObservation>, n: NodeId)
    requires n in AdmitAll(observations)
    ensures exists i :: 0 <= i < |observations| && FanoutOn(observations[i], n)
              && observations[i].observation.value.state != Faulted
              && AdmitAll(observations)[n] == observations[i].Tick()
              && (forall j :: i < j < |observations| ==> !FanoutOn(observations[j], n))
    decreases |observations|
  {
    var k := |observations| - 1;
    if !FanoutOn(observations[k], n) {
      AdmittedUnderLastTick(observations[..k], n);
      var i :| 0 <= i < k && FanoutOn(observations[..k][i], n)
               && observations[..k][i].observation.value.state != Faulted
               && AdmitAll(observations[..k])[n] == observations[..k][i].Tick()
               && (forall j :: i < j < k ==> !FanoutOn(observations[..k][j], n));
      assert forall j :: 0 <= j < k ==> observations[..k][j] == observations[j];
      assert observations[i] == observations[..k][i];
    }
  }

  /** Fed an emitted log in its order, admission holds the nodes whose last fanout event was Active. */
  lemma {:induction false} AdmissionKeysAreSubscribers(trace: seq<RuntimeSpec.TraceEntry>,
                                                       observations: seq<TransportObservation>)
    requires StampsOf(ControlEvents(trace), observations)
    ensures AdmitAll(observations).Keys == RuntimeAgreement.Subscribers(trace)
  {
    forall n ensures n in AdmitAll(observations) <==> n in RuntimeAgreement.Subscribers(trace) {
      AdmissionKeysFollowEvents(ControlEvents(trace), observations, n);
      EventsSayTheLog(trace, n);
    }
  }

  /** Under stable identity the replayed admission knows exactly the nodes whose live record has a subscriber. */
  lemma {:induction false} AdmissionMirrorsTheRuntime(steps: seq<RuntimeSpec.Step>,
                                                      observations: seq<TransportObservation>)
    requires RuntimeSpec.StableRun(steps)
    requires RuntimeSpec.Run(RuntimeSpec.Initial, steps).nextChannelId < RuntimeSpec.U64_MAX
    requires StampsOf(ControlEvents(RuntimeSpec.Run(RuntimeSpec.Initial, steps).trace), observations)
    ensures AdmitAll(observations).Keys == Notify.AllSubscribers(RuntimeSpec.Run(RuntimeSpec.Initial, steps).sessions)
  {
    RuntimeTheorems.EveryStableRunAgrees(steps);
    AdmissionKeysAreSubscribers(RuntimeSpec.Run(RuntimeSpec.Initial, steps).trace, observations);
  }

  /**
   * Admission against dispatch, on both platforms: a targeted dispatch serves exactly the receiver lists that
   * admission knows, a broadcasting one exactly those that name all it knows; either reaches just the receivers.
   */
  lemma {:induction false} AdmittedMulticastIsDelivered(platform: Notify.Platform, steps: seq<RuntimeSpec.Step>,
                                                        observations: seq<TransportObservation>, receivers: seq<NodeId>)
    requires RuntimeSpec.StableRun(steps)
    requires RuntimeSpec.Run(RuntimeSpec.Initial, steps).nextChannelId < RuntimeSpec.U64_MAX
    requires StampsOf(ControlEvents(RuntimeSpec.Run(RuntimeSpec.Initial, steps).trace), observations)
    ensures var sessions := RuntimeSpec.Run(RuntimeSpec.Initial, steps).sessions;
      var known := AdmitAll(observations).Keys;
      var calls := Notify.NotifyCalls(platform, sessions, NotifyFanoutEndpoint(), receivers);
      && (calls != [] <==> receivers != [] && if platform == Notify.Linux then Notify.NodeSet(receivers) == known
                                              else Notify.NodeSet(receivers) <= known)
      && (calls != [] ==> Notify.Reached(platform, sessions, calls) == Notify.NodeSet(receivers))
  {
    var s := RuntimeSpec.Run(RuntimeSpec.Initial, steps);
    AdmissionMirrorsTheRuntime(steps, observations);
    RuntimeTheorems.EveryStableRunAgrees(steps);
    Notify.AgreementSharesNoDevice(s);
    Notify.NotifyIsAllOrNothing(platform, s.sessions, NotifyFanoutEndpoint(), receivers);
    Notify.NotifyReachesExactlyTheReceivers(platform, s.sessions, NotifyFanoutEndpoint(), receivers);
  }
}

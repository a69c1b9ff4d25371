/** The client's two derived views, fed together, held to the runtime they are derived from. */
module DerivedViews {
  import opened Identity
  import opened Gatt
  import opened Observations
  import opened Multicast
  import opened Projector
  import opened Views
  import opened Backpressure
  import ControlIngress
  import Mesh
  import RuntimeSpec
  import RuntimeAgreement
  import RuntimeTask
  import RuntimeTheorems
  import Notify

  /**
   * What the views are fed: an ingested observation, with the profile for a new remote and the host view that
   * follows it, or a round outcome, which moves the host view only.
   */
  datatype Fed =
    | Observed(observation: TransportObservation, profile: nat, host: HostSnapshot)
    | Outcome(host: HostSnapshot)

  datatype Pair = Pair(subscribers: map<NodeId, nat>, topology: State)

  /** The new topology state and whether the projector reports a change; fanout observations do not reach it. */
  function FeedTopology(s: State, f: Fed): (State, bool) {
    match f
    case Observed(o, profile, host) =>
      if IsMulticastFanoutObservation(o) then (s, false) else IngestObservation(s, o, profile, host)
    case Outcome(host) => IngestHostUpdate(s, host)
  }

  /** Every observation goes to admission. */
  function FeedOne(v: Pair, f: Fed): Pair {
    Pair(if f.Observed? then Admit(v.subscribers, f.observation) else v.subscribers, FeedTopology(v.topology, f).0)
  }

  function Feed(v: Pair, fed: seq<Fed>): Pair
    decreases |fed|
  {
    if |fed| == 0 then v else FeedOne(Feed(v, fed[..|fed| - 1]), fed[|fed| - 1])
  }

  function ObservationsOf(fed: seq<Fed>): seq<TransportObservation>
    decreases |fed|
  {
    if |fed| == 0 then []
    else
      var earlier, last := ObservationsOf(fed[..|fed| - 1]), fed[|fed| - 1];
      if last.Observed? then earlier + [last.observation] else earlier
  }

  /** Whether the projector reports a change for something it is fed. */
  predicate Moved(v: Pair, fed: seq<Fed>)
    decreases |fed|
  {
    |fed| > 0
    && var earlier, last := fed[..|fed| - 1], fed[|fed| - 1];
       Moved(v, earlier) || FeedTopology(Feed(v, earlier).topology, last).1
  }

  lemma FeedSnoc(v: Pair, fed: seq<Fed>, f: Fed)
    ensures Feed(v, fed + [f]) == FeedOne(Feed(v, fed), f)
    ensures Moved(v, fed + [f]) == (Moved(v, fed) || FeedTopology(Feed(v, fed).topology, f).1)
  {
    assert (fed + [f])[..|fed|] == fed;
  }

  /** One round's report over the two objects: its observations in order, then the router's outcome. */
  method ApplyBridgeReport(
    admission: MulticastAdmission, projector: TopologyProjector, observations: seq<Fed>, outcome: HostSnapshot)
    returns (changed: bool)
    requires forall i :: 0 <= i < |observations| ==> observations[i].Observed?
    modifies admission, projector
    ensures var before := Pair(old(admission.subscribers), old(projector.Value()));
      var report := observations + [Outcome(outcome)];
      Pair(admission.subscribers, projector.Value()) == Feed(before, report) && changed == Moved(before, report)
  {
    changed := false;
    ghost var before := Pair(admission.subscribers, projector.Value());
    for i := 0 to |observations|
      invariant Pair(admission.subscribers, projector.Value()) == Feed(before, observations[..i])
      invariant changed == Moved(before, observations[..i])
    {
      assert observations[..i + 1][..i] == observations[..i];
      var f := observations[i];
      admission.IngestTransportObservation(f.observation);
      if !IsMulticastFanoutObservation(f.observation) {
        var moved := projector.IngestTransportObservation(f.observation, f.profile, f.host);
        changed := changed || moved;
      }
    }
    assert observations[..|observations|] == observations;
    FeedSnoc(before, observations, Outcome(outcome));
    var moved := projector.IngestHost(outcome);
    changed := changed || moved;
  }

  /** The path the projector shows from the local node: the endpoint of its link, while that is active. */
  function LinkPath(s: State, local: NodeId, n: NodeId): Option<LinkEndpoint> {
    if (local, n) in s.links && s.links[(local, n)].state == Active then Some(s.links[(local, n)].endpoint) else None
  }

  /** A client that starts with no active link, and whose host views keep the local node. */
  ghost predicate StartsAt(v: Pair, local: NodeId, fed: seq<Fed>) {
    && v.subscribers == map[] && v.topology.snapshot.localNodeId == local
    && (forall n :: LinkPath(v.topology, local, n) == None)
    && forall i :: 0 <= i < |fed| ==> fed[i].host.localNodeId == local
  }

  lemma {:induction false} AdmissionStandsAlone(v: Pair, fed: seq<Fed>)
    requires v.subscribers == map[]
    ensures Feed(v, fed).subscribers == AdmitAll(ObservationsOf(fed))
    decreases |fed|
  {
    if |fed| > 0 {
      var k := |fed| - 1;
      AdmissionStandsAlone(v, fed[..k]);
      if fed[k].Observed? {
        assert ObservationsOf(fed)[..|ObservationsOf(fed)| - 1] == ObservationsOf(fed[..k]);
      }
    }
  }

  lemma LinksAfterIngest(s: State, o: TransportObservation, profile: nat, host: HostSnapshot)
    requires s.snapshot.localNodeId == host.localNodeId
    ensures var s' := IngestObservation(s, o, profile, host).0;
      && s'.snapshot.localNodeId == host.localNodeId
      && s'.links == if o.LinkObserved? then s.links[(host.localNodeId, o.remoteNodeId) := o.observation.value]
                     else s.links
  {
    match o
    case PayloadObserved(_, _, _, tick) => assert BumpTick(s, tick).0.links == s.links;
    case LinkObserved(remote, observation) => LinkEntered(s, remote, observation, profile);
  }

  lemma LinkEntered(s: State, remote: NodeId, observation: Observation<Link>, profile: nat)
    ensures var (moved, changed) := Located(s, remote, observation, profile);
      && moved.snapshot == s.snapshot
      && moved.links == s.links[(s.snapshot.localNodeId, remote) := observation.value]
      && (!changed ==> moved.links == s.links)
  {
    var key := (s.snapshot.localNodeId, remote);
    if key in s.links && s.links[key] == observation.value { assert s.links[key := observation.value] == s.links; }
  }

  /** The projector's link from the local node is the path the events leave, whatever the ticks and host views. */
  lemma {:induction false} LinksFollowEvents(
    v: Pair, local: NodeId, events: seq<IngressEvent>, fed: seq<Fed>, n: NodeId)
    requires StartsAt(v, local, fed) && StampsOf(events, ObservationsOf(fed))
    ensures Feed(v, fed).topology.snapshot.localNodeId == local
    ensures LinkPath(Feed(v, fed).topology, local, n) == PathSaid(events, n)
    decreases |fed|
  {
    if |fed| > 0 {
      var k := |fed| - 1;
      var earlier, last := fed[..k], fed[k];
      if last.Observed? {
        var m := |events| - 1;
        assert ObservationsOf(fed) == ObservationsOf(earlier) + [last.observation];
        StampsOfPrefix(events, ObservationsOf(earlier), last.observation);
        LinksFollowEvents(v, local, events[..m], earlier, n);
        OneObserved(Feed(v, earlier).topology, last, local, events[..m], events[m], n);
        assert events == events[..m] + [events[m]];
      } else {
        LinksFollowEvents(v, local, events, earlier, n);
      }
    }
  }

  lemma StampsOfPrefix(events: seq<IngressEvent>, observations: seq<TransportObservation>, last: TransportObservation)
    requires StampsOf(events, observations + [last])
    ensures |events| > 0 && StampsOf(events[..|events| - 1], observations)
    ensures last == Observe(events[|events| - 1], last.Tick())
  {
    var all := observations + [last];
    forall i | 0 <= i < |observations| ensures observations[i] == Observe(events[i], observations[i].Tick()) {
      assert all[i] == observations[i];
    }
    assert all[|observations|] == last;
  }

  lemma OneObserved(s: State, f: Fed, local: NodeId, events: seq<IngressEvent>, event: IngressEvent, n: NodeId)
    requires f.Observed? && f.observation == Observe(event, f.observation.Tick())
    requires s.snapshot.localNodeId == local == f.host.localNodeId && LinkPath(s, local, n) == PathSaid(events, n)
    ensures FeedTopology(s, f).0.snapshot.localNodeId == local
    ensures LinkPath(FeedTopology(s, f).0, local, n) == PathSaid(events + [event], n)
  {
    LinksAfterIngest(s, f.observation, f.profile, f.host);
    OneMore(events, event, PathTo(n));
  }

  /** What both views show of a node is what the events say. */
  lemma {:induction false} ViewsFollowEvents(
    v: Pair, local: NodeId, events: seq<IngressEvent>, fed: seq<Fed>, n: NodeId)
    requires StartsAt(v, local, fed) && StampsOf(events, ObservationsOf(fed))
    ensures n in Feed(v, fed).subscribers <==> KnownSubscriber(events, n)
    ensures LinkPath(Feed(v, fed).topology, local, n) == PathSaid(events, n)
  {
    AdmissionStandsAlone(v, fed);
    AdmissionKeysFollowEvents(events, ObservationsOf(fed), n);
    LinksFollowEvents(v, local, events, fed, n);
  }

  /**
   * Fed the emitted events of a stable run in order, the projector shows for every node exactly the endpoint of
   * the runtime's preferred egress, and admission exactly the runtime's subscribers.
   */
  lemma {:induction false} ViewsMirrorTheRuntime(
    steps: seq<RuntimeSpec.Step>, v: Pair, local: NodeId, fed: seq<Fed>, n: NodeId)
    requires RuntimeSpec.StableRun(steps)
    requires RuntimeSpec.Run(RuntimeSpec.Initial, steps).nextChannelId < RuntimeSpec.U64_MAX
    requires StartsAt(v, local, fed)
    requires StampsOf(ControlEvents(RuntimeSpec.Run(RuntimeSpec.Initial, steps).trace), ObservationsOf(fed))
    ensures var s := RuntimeSpec.Run(RuntimeSpec.Initial, steps);
      && LinkPath(Feed(v, fed).topology, local, n) == RuntimeAgreement.EgressEndpoint(s, n)
      && LinkPath(Feed(v, fed).topology, local, n) == RuntimeAgreement.LivePath(s.trace, n)
      && (n in Feed(v, fed).subscribers <==> n in Notify.AllSubscribers(s.sessions))
  {
    var s := RuntimeSpec.Run(RuntimeSpec.Initial, steps);
    RuntimeTheorems.EveryStableRunAgrees(steps);
    EventsSayTheLog(s.trace, n);
    ViewsFollowEvents(v, local, ControlEvents(s.trace), fed, n);
  }

  /**
   * Fed what came through the bounded mailbox, once all of it has: a view is right about a node if and only if
   * the last emission on that node did not overtake a deferred one saying otherwise.
   */
  lemma {:induction false} ViewsBehindTheMailboxExactly(
    steps: seq<RuntimeSpec.Step>, capacity: nat, actions: seq<ControlIngress.Action>,
    v: Pair, local: NodeId, fed: seq<Fed>, n: NodeId)
    requires RuntimeSpec.StableRun(steps)
    requires RuntimeSpec.Run(RuntimeSpec.Initial, steps).nextChannelId < RuntimeSpec.U64_MAX
    requires ControlIngress.WellTyped(actions) && AllDrained(ControlIngress.Run(ControlIngress.New(capacity), actions))
    requires ControlIngress.ControlsOf(actions)
          == ControlEvents(RuntimeSpec.Run(RuntimeSpec.Initial, steps).trace)
    requires StartsAt(v, local, fed)
    requires StampsOf(ControlIngress.Run(ControlIngress.New(capacity), actions).drained, ObservationsOf(fed))
    ensures var s := RuntimeSpec.Run(RuntimeSpec.Initial, steps);
      && (LinkPath(Feed(v, fed).topology, local, n) == RuntimeAgreement.EgressEndpoint(s, n)
          <==> LastSpeaksLast(capacity, actions, PathTo(n)))
      && ((n in Feed(v, fed).subscribers <==> n in Notify.AllSubscribers(s.sessions))
          <==> LastSpeaksLast(capacity, actions, SubscriptionOf(n)))
  {
    var s := RuntimeSpec.Run(RuntimeSpec.Initial, steps);
    var q := ControlIngress.Run(ControlIngress.New(capacity), actions);
    RuntimeTheorems.EveryStableRunAgrees(steps);
    EventsSayTheLog(s.trace, n);
    ControlIngress.EmittedIsHistory(capacity, actions);
    ViewsFollowEvents(v, local, q.drained, fed, n);
    DrainedViewExactly(capacity, actions, n);
  }

  /** The same of a task and its own queue, at any point of its loop where the bridge has drained everything. */
  lemma {:induction false} TaskViewsExactly(
    task: RuntimeTask.BleRuntimeTask, steps: seq<RuntimeSpec.Step>, v: Pair, local: NodeId, fed: seq<Fed>, n: NodeId)
    requires task.Valid() && task.State() == RuntimeSpec.Run(RuntimeSpec.Initial, steps)
    requires RuntimeSpec.StableRun(steps) && task.nextChannelId < RuntimeSpec.U64_MAX
    requires AllDrained(task.ingress.State())
    requires StartsAt(v, local, fed) && StampsOf(task.ingress.drained, ObservationsOf(fed))
    ensures LinkPath(Feed(v, fed).topology, local, n) == RuntimeAgreement.EgressEndpoint(task.State(), n)
            <==> LastSpeaksLast(task.ingress.capacity, task.ingress.actions, PathTo(n))
    ensures (n in Feed(v, fed).subscribers <==> n in Notify.AllSubscribers(task.sessions))
            <==> LastSpeaksLast(task.ingress.capacity, task.ingress.actions, SubscriptionOf(n))
  {
    task.QueueHistory();
    ViewsBehindTheMailboxExactly(steps, task.ingress.capacity, task.ingress.actions, v, local, fed, n);
  }

  /** The cached snapshot shows a link as it is wherever the host view lists it. */
  lemma SnapshotShowsLinks(s: State, key: Mesh.EdgeKey)
    requires CacheCoherent(s) && key in s.links && key in s.host.links
    ensures key in s.snapshot.edges && s.snapshot.edges[key].observation.value == s.links[key]
  {
  }
}

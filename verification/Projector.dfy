/** The topology projector: a local topology, the generic host view of it, and a cached mesh snapshot. */
module Projector {
  import opened Identity
  import opened Gatt
  import opened Observations
  import opened Mesh

  datatype ObservedLink = ObservedLink(link: Link, observedAtTick: nat)

  datatype ObservedRoute = ObservedRoute(
    routeId: nat, destination: DestinationId, ownerNodeId: NodeId, shape: RouteShape, hopCountHint: Option<nat>,
    protocolMix: seq<TransportKind>, lastValidatedAtTick: nat, lifecycleUpdatedAtTick: nat)

  /** The generic host projector's snapshot; how it is derived is not part of this model. */
  datatype HostSnapshot = HostSnapshot(
    localNodeId: NodeId, observedAtTick: nat, nodes: map<NodeId, nat>, links: map<EdgeKey, ObservedLink>,
    activeRoutes: map<nat, ObservedRoute>)

  function Max(a: nat, b: nat): nat { if a < b then b else a }

  // ----- Projection of one route -----

  predicate LiveDirectEdge(t: MeshTopology, owner: NodeId, terminal: NodeId) {
    (owner, terminal) in t.edges && t.edges[(owner, terminal)].observation.value.state != Faulted
  }

  function DeriveRouteDelivery(t: MeshTopology, owner: NodeId, terminal: NodeId, hopCountHint: nat): Delivery {
    if owner == terminal then LocalDelivery
    else if LiveDirectEdge(t, owner, terminal) && hopCountHint <= 1 then Direct(terminal)
    else Reachable(Max(hopCountHint, 1))
  }

  function MixAlong(t: MeshTopology, hops: seq<NodeId>, mix: seq<TransportKind>): Option<seq<TransportKind>> {
    if |hops| < 2 then Some(mix)
    else if (hops[0], hops[1]) !in t.edges then None
    else
      var kind := t.edges[(hops[0], hops[1])].Kind();
      MixAlong(t, hops[1..], if kind in mix then mix else mix + [kind])
  }

  function PathTransportMix(
    t: MeshTopology, delivery: Delivery, owner: NodeId, terminal: NodeId): Option<seq<TransportKind>> {
    match delivery
    case LocalDelivery => Some([])
    case Direct(_) => MixAlong(t, [owner, terminal], [])
    case Reachable(_) => None
  }

  method PathTransportMixInSteps(t: MeshTopology, delivery: Delivery, owner: NodeId, terminal: NodeId)
    returns (mix: Option<seq<TransportKind>>)
    ensures mix == PathTransportMix(t, delivery, owner, terminal)
  {
    if delivery.Reachable? {
      return None;
    }
    var hops := if delivery.LocalDelivery? then [owner] else [owner, terminal];
    if |hops| <= 1 {
      return Some([]);
    }
    var protocolMix := [];
    var i := 0;
    while i + 1 < |hops|
      invariant 0 <= i < |hops|
      invariant MixAlong(t, hops, []) == MixAlong(t, hops[i..], protocolMix)
    {
      assert hops[i..][1..] == hops[i + 1..] && hops[i..][0] == hops[i] && hops[i..][1] == hops[i + 1];
      if (hops[i], hops[i + 1]) !in t.edges {
        return None;
      }
      var kind := t.edges[(hops[i], hops[i + 1])].Kind();
      if kind !in protocolMix { protocolMix := protocolMix + [kind]; }
      i := i + 1;
    }
    return Some(protocolMix);
  }

  function ProjectObservedRoute(t: MeshTopology, route: ObservedRoute): Option<ActiveRoute> {
    match route.destination
    case OtherDestination(_) => None
    case NodeDestination(terminal) =>
      if terminal !in t.nodes || route.ownerNodeId !in t.nodes then None
      else
        var hint := if route.hopCountHint.Some? then route.hopCountHint.value else 1;
        var delivery := DeriveRouteDelivery(t, route.ownerNodeId, terminal, hint);
        var mix := PathTransportMix(t, delivery, route.ownerNodeId, terminal);
        Some(ActiveRoute(route.routeId, route.ownerNodeId, route.destination, terminal, route.shape,
                         if mix.Some? then mix.value else route.protocolMix, delivery,
                         Max(route.lastValidatedAtTick, route.lifecycleUpdatedAtTick)))
  }

  /** The one projected form the builder refuses: a single-hop hint to another node without a live direct edge. */
  predicate SingleHopWithoutEdge(t: MeshTopology, route: ObservedRoute) {
    route.destination.NodeDestination?
    && route.ownerNodeId != route.destination.nodeId
    && (route.hopCountHint.Some? ==> route.hopCountHint.value <= 1)
    && !LiveDirectEdge(t, route.ownerNodeId, route.destination.nodeId)
  }

  /**
   * The projected route is the observed one: local to its owner, direct over a live edge hinted at one hop, or
   * reachable over the hops hinted, and with the transports of the hops it names.
   */
  predicate ProjectedFrom(t: MeshTopology, route: ObservedRoute, r: ActiveRoute) {
    var hops := if route.hopCountHint == None then 1 else route.hopCountHint.value;
    && r.routeId == route.routeId && r.ownerNodeId == route.ownerNodeId && r.destination == route.destination
    && r.destination == NodeDestination(r.terminalNodeId) && r.shape == route.shape
    && (r.delivery == LocalDelivery <==> r.ownerNodeId == r.terminalNodeId)
    && (r.delivery.Direct? <==>
          r.ownerNodeId != r.terminalNodeId && LiveDirectEdge(t, r.ownerNodeId, r.terminalNodeId) && hops < 2)
    && (r.delivery.Direct? ==> r.delivery.nextHopNodeId == r.terminalNodeId)
    && (r.delivery.Reachable? ==> r.delivery.hopCountHint == (if hops == 0 then 1 else hops))
    && r.protocolMix == (match r.delivery
                         case LocalDelivery => []
                         case Direct(_) => [t.edges[(r.ownerNodeId, r.terminalNodeId)].Kind()]
                         case Reachable(_) => route.protocolMix)
    && r.observedAtTick >= route.lastValidatedAtTick && r.observedAtTick >= route.lifecycleUpdatedAtTick
    && (r.observedAtTick == route.lastValidatedAtTick || r.observedAtTick == route.lifecycleUpdatedAtTick)
  }

  /** A projected route passes the builder's rules on the same snapshot, but for that one form and that one error. */
  lemma ProjectedRouteExactly(t: MeshTopology, route: ObservedRoute)
    ensures ProjectObservedRoute(t, route).Some? <==>
              route.destination.NodeDestination? && {route.ownerNodeId, route.destination.nodeId} <= t.nodes.Keys
    ensures ProjectObservedRoute(t, route).Some? ==>
              var r := ProjectObservedRoute(t, route).value;
              && (SingleHopWithoutEdge(t, route) <==> r.delivery == Reachable(1))
              && ProjectedFrom(t, route, r)
              && ValidateRoute(r, t.nodes, t.edges) ==
                   if SingleHopWithoutEdge(t, route) then Some(ReachableDeliveryRequiresMultiHop(route.routeId))
                   else None
  {
    if ProjectObservedRoute(t, route).Some? {
      var r := ProjectObservedRoute(t, route).value;
      ValidateRouteExactly(r, t.nodes, t.edges);
      if r.delivery.Direct? {
        var hops := [r.ownerNodeId, r.terminalNodeId];
        assert hops[1..] == [r.terminalNodeId];
        var kind := t.edges[(r.ownerNodeId, r.terminalNodeId)].Kind();
        assert MixAlong(t, hops, []) == MixAlong(t, hops[1..], [] + [kind]);
        assert r.protocolMix == [kind];
      }
    }
  }

  // ----- The snapshot -----

  function MeshEdgeFor(edgeObservations: map<EdgeKey, Observation<Link>>, key: EdgeKey, link: ObservedLink): MeshEdge {
    MeshEdge(key.0, key.1,
             if key in edgeObservations then edgeObservations[key] else Observation(link.link, link.observedAtTick))
  }

  function RoutelessSnapshot(edgeObservations: map<EdgeKey, Observation<Link>>, host: HostSnapshot): MeshTopology {
    MeshTopology(host.localNodeId, host.observedAtTick,
      map n | n in host.nodes :: MeshNode(n, if n == host.localNodeId then Local else Remote, host.nodes[n]),
      map k | k in host.links :: MeshEdgeFor(edgeObservations, k, host.links[k]),
      map[])
  }

  /** Routes are projected once nodes and edges are in place; the host keys them by their id. */
  function MeshSnapshotFrom(edgeObservations: map<EdgeKey, Observation<Link>>, host: HostSnapshot): MeshTopology {
    var bare := RoutelessSnapshot(edgeObservations, host);
    bare.(activeRoutes :=
      map r | r in host.activeRoutes && ProjectObservedRoute(bare, host.activeRoutes[r]).Some?
        :: ProjectObservedRoute(bare, host.activeRoutes[r]).value)
  }

  /** The host view keeps its links between known nodes, its local node known, and its routes under their ids. */
  ghost predicate HostOk(host: HostSnapshot) {
    && host.localNodeId in host.nodes
    && (forall k :: k in host.links ==> k.0 in host.nodes && k.1 in host.nodes)
    && (forall r :: r in host.activeRoutes ==> host.activeRoutes[r].routeId == r)
  }

  /** A snapshot of a sound host view is a well-formed topology exactly when no route has the refused form. */
  lemma SnapshotWellFormedExactly(edgeObservations: map<EdgeKey, Observation<Link>>, host: HostSnapshot)
    requires HostOk(host)
    ensures var t := MeshSnapshotFrom(edgeObservations, host);
      TopologyOk(t) <==>
        forall r :: r in host.activeRoutes && ProjectObservedRoute(t, host.activeRoutes[r]).Some?
          ==> !SingleHopWithoutEdge(t, host.activeRoutes[r])
  {
    var t := MeshSnapshotFrom(edgeObservations, host);
    var bare := RoutelessSnapshot(edgeObservations, host);
    forall r | r in host.activeRoutes
      ensures ProjectObservedRoute(bare, host.activeRoutes[r]) == ProjectObservedRoute(t, host.activeRoutes[r])
      ensures ProjectObservedRoute(t, host.activeRoutes[r]).Some? ==>
                r in t.activeRoutes && t.activeRoutes[r] == ProjectObservedRoute(t, host.activeRoutes[r]).value
                && (RouteOk(t.activeRoutes[r], t.nodes, t.edges) <==> !SingleHopWithoutEdge(t, host.activeRoutes[r]))
    {
      var route := host.activeRoutes[r];
      SameParts(bare, t, route);
      ProjectedRouteExactly(t, route);
      if ProjectObservedRoute(t, route).Some? {
        ValidateRouteExactly(ProjectObservedRoute(t, route).value, t.nodes, t.edges);
      }
    }
    assert t.localNodeId in t.nodes && t.nodes[t.localNodeId].role == Local;
  }

  /** Such a route happens: a sound host view of two nodes, a route between them hinted at one hop, and no link. */
  lemma RefusedRouteHappens(local: NodeId, other: NodeId)
    requires local != other
    ensures var route := ObservedRoute(0, NodeDestination(other), local, NextHopOnly, Some(1), [], 0, 0);
      var host := HostSnapshot(local, 0, map[local := 0, other := 0], map[], map[0 := route]);
      var t := MeshSnapshotFrom(map[], host);
      && HostOk(host) && 0 in t.activeRoutes
      && ValidateRoute(t.activeRoutes[0], t.nodes, t.edges) == Some(ReachableDeliveryRequiresMultiHop(0))
      && !TopologyOk(t)
  {
    var route := ObservedRoute(0, NodeDestination(other), local, NextHopOnly, Some(1), [], 0, 0);
    var host := HostSnapshot(local, 0, map[local := 0, other := 0], map[], map[0 := route]);
    var t := MeshSnapshotFrom(map[], host);
    SameParts(RoutelessSnapshot(map[], host), t, route);
    ProjectedRouteExactly(t, route);
    SnapshotWellFormedExactly(map[], host);
  }

  /** The snapshot holds the host view's nodes and links and nothing else, each link under its own observation. */
  lemma SnapshotHoldsTheHostView(edgeObservations: map<EdgeKey, Observation<Link>>, host: HostSnapshot)
    ensures var t := MeshSnapshotFrom(edgeObservations, host);
      && t.localNodeId == host.localNodeId && t.observedAtTick == host.observedAtTick
      && t.nodes.Keys == host.nodes.Keys && t.edges.Keys == host.links.Keys
      && (forall n :: n in t.nodes ==> t.nodes[n].nodeId == n && t.nodes[n].node == host.nodes[n]
                                       && (t.nodes[n].role == Local <==> n == t.localNodeId))
      && (forall k :: k in t.edges ==> t.edges[k].Key() == k)
      && (forall k :: k in t.edges && k in edgeObservations ==> t.edges[k].observation == edgeObservations[k])
      && (forall k :: k in t.edges && k !in edgeObservations ==>
            t.edges[k].observation.value == host.links[k].link
            && t.edges[k].observation.observedAtTick == host.links[k].observedAtTick)
      && (forall r :: r in t.activeRoutes <==>
            r in host.activeRoutes && host.activeRoutes[r].destination.NodeDestination?
            && host.activeRoutes[r].ownerNodeId in t.nodes && host.activeRoutes[r].destination.nodeId in t.nodes)
  {
  }

  /** Projection reads nodes and edges only. */
  lemma SameParts(a: MeshTopology, b: MeshTopology, route: ObservedRoute)
    requires a.nodes == b.nodes && a.edges == b.edges
    ensures ProjectObservedRoute(a, route) == ProjectObservedRoute(b, route)
  {
    if route.destination.NodeDestination? {
      SameMix(a, b, route.ownerNodeId, route.destination.nodeId);
    }
  }

  lemma SameMix(a: MeshTopology, b: MeshTopology, owner: NodeId, terminal: NodeId)
    requires a.edges == b.edges
    ensures MixAlong(a, [owner, terminal], []) == MixAlong(b, [owner, terminal], [])
  {
    var hops := [owner, terminal];
    assert hops[1..] == [terminal];
    forall mix ensures MixAlong(a, hops[1..], mix) == MixAlong(b, hops[1..], mix) {
      assert MixAlong(a, hops[1..], mix) == Some(mix);
      assert MixAlong(b, hops[1..], mix) == Some(mix);
    }
  }

  // ----- The projector's state -----

  datatype State = State(
    tick: nat, nodes: map<NodeId, nat>, links: map<EdgeKey, Link>, edgeObservations: map<EdgeKey, Observation<Link>>,
    host: HostSnapshot, snapshot: MeshTopology)

  function Seed(tick: nat, nodes: map<NodeId, nat>, links: map<EdgeKey, Link>, host: HostSnapshot): State {
    var edgeObservations := map k | k in links :: Observation(links[k], tick);
    State(tick, nodes, links, edgeObservations, host, MeshSnapshotFrom(edgeObservations, host))
  }

  function Refresh(s: State): (State, bool) {
    var next := MeshSnapshotFrom(s.edgeObservations, s.host);
    if next == s.snapshot then (s, false) else (s.(snapshot := next), true)
  }

  /** Capabilities, materialised routes and round outcomes only move the host view. */
  function IngestHostUpdate(s: State, host: HostSnapshot): (State, bool) {
    Refresh(s.(host := host))
  }

  function BumpTick(s: State, tick: nat): (State, bool) {
    if tick > s.tick then (s.(tick := tick), true) else (s, false)
  }

  /** `profile` is the node profile synthesised for a remote seen for the first time. */
  function EnsureRemoteNode(s: State, remote: NodeId, profile: nat): (State, bool) {
    if remote in s.nodes then (s, false) else (s.(nodes := s.nodes[remote := profile]), true)
  }

  /** `host` is the host view after it is given the updated topology, which happens only on a change. */
  function IngestObservation(s: State, o: TransportObservation, profile: nat, host: HostSnapshot): (State, bool) {
    match o
    case PayloadObserved(_, _, _, tick) =>
      var (s1, changed) := BumpTick(s, tick);
      if !changed then (s1, false) else IngestHostUpdate(s1, host)
    case LinkObserved(remote, observation) =>
      var (s1, moved) := Located(s, remote, observation, profile);
      if !moved then (s1, false) else IngestHostUpdate(s1, host)
  }

  /** Links and their observations have the same keys and agree; none is newer than the topology. */
  ghost predicate ObservationsMatch(s: State) {
    && s.edgeObservations.Keys == s.links.Keys
    && (forall k :: k in s.links ==> s.edgeObservations[k].value == s.links[k])
    && (forall k :: k in s.edgeObservations ==> s.edgeObservations[k].observedAtTick <= s.tick)
  }

  /** The cached snapshot is the one a full recompute would give. */
  ghost predicate CacheCoherent(s: State) {
    s.snapshot == MeshSnapshotFrom(s.edgeObservations, s.host) && ObservationsMatch(s)
  }

  lemma HostUpdateKeepsCache(s: State, host: HostSnapshot)
    requires ObservationsMatch(s)
    ensures var (s', changed) := IngestHostUpdate(s, host);
      && CacheCoherent(s') && (changed <==> s'.snapshot != s.snapshot)
      && s'.(snapshot := s.snapshot) == s.(host := host)
  {
  }

  /** The local part of a link observation: tick, node, link and observation, and whether any of them moved. */
  function Located(s: State, remote: NodeId, observation: Observation<Link>, profile: nat): (State, bool) {
    var (s1, ticked) := BumpTick(s, observation.observedAtTick);
    var (s2, added) := EnsureRemoteNode(s1, remote, profile);
    var key := (s.snapshot.localNodeId, remote);
    var s3 := s2.(links := s2.links[key := observation.value],
                  edgeObservations := s2.edgeObservations[key := observation]);
    (s3, ticked || added || !(key in s2.links && s2.links[key] == observation.value
                              && key in s2.edgeObservations && s2.edgeObservations[key] == observation))
  }

  lemma LocatedKeepsMatch(s: State, remote: NodeId, observation: Observation<Link>, profile: nat)
    requires ObservationsMatch(s)
    ensures var (s3, moved) := Located(s, remote, observation, profile);
      && ObservationsMatch(s3) && (!moved ==> s3 == s)
      && s3.tick == Max(s.tick, observation.observedAtTick) && s3.snapshot == s.snapshot && s3.host == s.host
      && s3.nodes.Keys == s.nodes.Keys + {remote}
      && s3.links == s.links[(s.snapshot.localNodeId, remote) := observation.value]
      && s3.edgeObservations == s.edgeObservations[(s.snapshot.localNodeId, remote) := observation]
  {
    var (s3, moved) := Located(s, remote, observation, profile);
    if !moved {
      assert s3.links == s.links && s3.edgeObservations == s.edgeObservations;
    }
  }

  /**
   * One ingest keeps the cache coherent, moves the tick to the maximum, and reports a change exactly when there
   * is one.
   */
  lemma {:induction false} IngestKeepsCache(s: State, o: TransportObservation, profile: nat, host: HostSnapshot)
    requires CacheCoherent(s)
    ensures var (s', changed) := IngestObservation(s, o, profile, host);
      && CacheCoherent(s')
      && s'.tick == Max(s.tick, o.Tick())
      && (changed <==> s'.snapshot != s.snapshot)
      && s'.nodes == (if o.LinkObserved? && o.remoteNodeId !in s.nodes then s.nodes[o.remoteNodeId := profile]
                      else s.nodes)
      && (s' == s || s'.host == host)
      && (forall k :: k in s'.links && k !in s.links ==> k.1 in s'.nodes)
      && (o.LinkObserved? ==>
            var key := (s.snapshot.localNodeId, o.remoteNodeId);
            o.remoteNodeId in s'.nodes && key in s'.links && s'.links[key] == o.observation.value
            && s'.edgeObservations[key] == o.observation)
  {
    match o
    case PayloadObserved(_, _, _, tick) => HostUpdateKeepsCache(BumpTick(s, tick).0, host);
    case LinkObserved(remote, observation) =>
      LocatedKeepsMatch(s, remote, observation, profile);
      HostUpdateKeepsCache(Located(s, remote, observation, profile).0, host);
  }

  datatype Ingest =
    | Observed(observation: TransportObservation, profile: nat, host: HostSnapshot)
    | HostUpdate(host: HostSnapshot)

  function Apply(s: State, i: Ingest): (State, bool) {
    match i
    case Observed(o, profile, host) => IngestObservation(s, o, profile, host)
    case HostUpdate(host) => IngestHostUpdate(s, host)
  }

  function ApplyAll(s: State, ingests: seq<Ingest>): State
    decreases |ingests|
  {
    if |ingests| == 0 then s else Apply(ApplyAll(s, ingests[..|ingests| - 1]), ingests[|ingests| - 1]).0
  }

  function LatestTick(tick: nat, ingests: seq<Ingest>): nat
    decreases |ingests|
  {
    if |ingests| == 0 then tick
    else
      var earlier := LatestTick(tick, ingests[..|ingests| - 1]);
      var last := ingests[|ingests| - 1];
      if last.Observed? then Max(earlier, last.observation.Tick()) else earlier
  }

  ghost predicate RemotesNamed(links: map<EdgeKey, Link>, nodes: map<NodeId, nat>) {
    forall k :: k in links ==> k.1 in nodes
  }

  /** The remote of every link observed so far is a known node. */
  ghost predicate RemotesKnown(s: State, ingests: seq<Ingest>) {
    forall i :: 0 <= i < |ingests| && ingests[i].Observed? && ingests[i].observation.LinkObserved? ==>
      ingests[i].observation.remoteNodeId in s.nodes
  }

  /** One ingest on a coherent state: coherent, nothing forgotten, and its own remote known. */
  lemma ApplyKeepsCache(s: State, i: Ingest)
    requires CacheCoherent(s)
    ensures var s' := Apply(s, i).0;
      && CacheCoherent(s') && s.nodes.Keys <= s'.nodes.Keys
      && s'.tick == (if i.Observed? then Max(s.tick, i.observation.Tick()) else s.tick)
      && (i.Observed? && i.observation.LinkObserved? ==> i.observation.remoteNodeId in s'.nodes)
      && (RemotesNamed(s.links, s.nodes) ==> RemotesNamed(s'.links, s'.nodes))
      && (forall k :: k in s'.links && k !in s.links ==> k.1 in s'.nodes)
  {
    match i
    case Observed(o, profile, host) => IngestKeepsCache(s, o, profile, host);
    case HostUpdate(host) => HostUpdateKeepsCache(s, host);
  }

  /** A projector starts with the initial links, each observed at the initial tick, and the snapshot of that. */
  lemma SeedHoldsTheInitialLinks(tick: nat, nodes: map<NodeId, nat>, links: map<EdgeKey, Link>, host: HostSnapshot)
    ensures var s := Seed(tick, nodes, links, host);
      && s.tick == tick && s.nodes == nodes && s.links == links && s.host == host && CacheCoherent(s)
      && forall k :: k in links ==> s.edgeObservations[k] == Observation(links[k], tick)
  {
  }

  /** What any ingests from a seed leave true. */
  ghost predicate SeedGrown(
    tick: nat, nodes: map<NodeId, nat>, links: map<EdgeKey, Link>, ingests: seq<Ingest>, s: State)
  {
    && CacheCoherent(s) && s.tick == LatestTick(tick, ingests)
    && nodes.Keys <= s.nodes.Keys && RemotesKnown(s, ingests)
    && (forall k :: k in s.links && k !in links ==> k.1 in s.nodes)
    && (RemotesNamed(links, nodes) ==> RemotesNamed(s.links, s.nodes))
  }

  lemma GrowsByOne(
    tick: nat, nodes: map<NodeId, nat>, links: map<EdgeKey, Link>, ingests: seq<Ingest>, i: Ingest, s: State)
    requires SeedGrown(tick, nodes, links, ingests, s)
    ensures SeedGrown(tick, nodes, links, ingests + [i], Apply(s, i).0)
  {
    ApplyKeepsCache(s, i);
    assert (ingests + [i])[..|ingests|] == ingests;
  }

  /**
   * After any ingests from any seed: a coherent cache, the latest tick, and a known remote for every link
   * observed and every link that is new; for every link at all if the seed knows the remotes of its own.
   */
  lemma {:induction false} CacheStaysCoherent(
    tick: nat, nodes: map<NodeId, nat>, links: map<EdgeKey, Link>, host: HostSnapshot, ingests: seq<Ingest>)
    ensures SeedGrown(tick, nodes, links, ingests, ApplyAll(Seed(tick, nodes, links, host), ingests))
    decreases |ingests|
  {
    if |ingests| > 0 {
      var k := |ingests| - 1;
      CacheStaysCoherent(tick, nodes, links, host, ingests[..k]);
      GrowsByOne(tick, nodes, links, ingests[..k], ingests[k], ApplyAll(Seed(tick, nodes, links, host), ingests[..k]));
      assert ingests[..k] + [ingests[k]] == ingests;
    }
  }

  // ----- The projector as an object -----

  class TopologyProjector {
    var topologyTick: nat
    var topologyNodes: map<NodeId, nat>
    var topologyLinks: map<EdgeKey, Link>
    var edgeObservations: map<EdgeKey, Observation<Link>>
    var host: HostSnapshot
    var snapshot: MeshTopology

    ghost function Value(): State
      reads this
    {
      State(topologyTick, topologyNodes, topologyLinks, edgeObservations, host, snapshot)
    }

    constructor (tick: nat, nodes: map<NodeId, nat>, links: map<EdgeKey, Link>, host: HostSnapshot)
      ensures Value() == Seed(tick, nodes, links, host)
    {
      var observations := map k | k in links :: Observation(links[k], tick);
      topologyTick, topologyNodes, topologyLinks := tick, nodes, links;
      edgeObservations := observations;
      this.host := host;
      snapshot := MeshSnapshotFrom(observations, host);
    }

    method RefreshSnapshot() returns (changed: bool)
      modifies this`snapshot
      ensures (Value(), changed) == Refresh(old(Value()))
    {
      var next := MeshSnapshotFrom(edgeObservations, host);
      if next == snapshot {
        return false;
      }
      snapshot := next;
      return true;
    }

    method IngestHost(next: HostSnapshot) returns (changed: bool)
      modifies this
      ensures (Value(), changed) == IngestHostUpdate(old(Value()), next)
    {
      host := next;
      changed := RefreshSnapshot();
    }

    method BumpTopologyTick(observedAtTick: nat) returns (changed: bool)
      modifies this`topologyTick
      ensures (Value(), changed) == BumpTick(old(Value()), observedAtTick)
    {
      changed := observedAtTick > topologyTick;
      if changed { topologyTick := observedAtTick; }
    }

    method EnsureRemote(remoteNodeId: NodeId, profile: nat) returns (added: bool)
      modifies this`topologyNodes
      ensures (Value(), added) == EnsureRemoteNode(old(Value()), remoteNodeId, profile)
    {
      if remoteNodeId in topologyNodes {
        return false;
      }
      topologyNodes := topologyNodes[remoteNodeId := profile];
      return true;
    }

    method IngestTransportObservation(observation: TransportObservation, profile: nat, hostNext: HostSnapshot)
      returns (changed: bool)
      modifies this
      ensures (Value(), changed) == IngestObservation(old(Value()), observation, profile, hostNext)
    {
      match observation {
        case PayloadObserved(_, _, _, observedAtTick) =>
          changed := BumpTopologyTick(observedAtTick);
        case LinkObserved(remoteNodeId, link) =>
          changed := BumpTopologyTick(link.observedAtTick);
          var added := EnsureRemote(remoteNodeId, profile);
          changed := changed || added;
          var edgeKey := (snapshot.localNodeId, remoteNodeId);
          var sameLink := edgeKey in topologyLinks && topologyLinks[edgeKey] == link.value;
          topologyLinks := topologyLinks[edgeKey := link.value];
          var sameObservation := edgeKey in edgeObservations && edgeObservations[edgeKey] == link;
          edgeObservations := edgeObservations[edgeKey := link];
          changed := changed || !sameLink || !sameObservation;
      }
      if !changed {
        return false;
      }
      changed := IngestHost(hostNext);
    }
  }
}

/** Mesh topology snapshots, the rules a topology is built under, and the sanitised local view. */
module Mesh {
  import opened Identity
  import opened Gatt
  import opened Observations

  datatype MeshNodeRole = Local | Remote

  /** `node` stands for the controller, profile and state, which are carried unread. */
  datatype MeshNode = MeshNode(nodeId: NodeId, role: MeshNodeRole, node: nat)

  type EdgeKey = (NodeId, NodeId)

  datatype MeshEdge = MeshEdge(fromNodeId: NodeId, toNodeId: NodeId, observation: Observation<Link>) {
    function Key(): EdgeKey { (fromNodeId, toNodeId) }
    function Kind(): TransportKind { observation.value.endpoint.transportKind }
  }

  datatype Delivery = LocalDelivery | Direct(nextHopNodeId: NodeId) | Reachable(hopCountHint: nat)

  datatype DestinationId = NodeDestination(nodeId: NodeId) | OtherDestination(code: nat)

  datatype RouteShape = ExplicitPath | CorridorEnvelope | NextHopOnly | Opaque

  datatype ActiveRoute = ActiveRoute(
    routeId: nat, ownerNodeId: NodeId, destination: DestinationId, terminalNodeId: NodeId, shape: RouteShape,
    protocolMix: seq<TransportKind>, delivery: Delivery, observedAtTick: nat)
  {
    function HopNodeIds(): seq<NodeId> {
      if delivery.LocalDelivery? then [ownerNodeId] else [ownerNodeId, terminalNodeId]
    }
  }

  datatype MeshTopology = MeshTopology(
    localNodeId: NodeId, observedAtTick: nat, nodes: map<NodeId, MeshNode>, edges: map<EdgeKey, MeshEdge>,
    activeRoutes: map<nat, ActiveRoute>)

  datatype BuildError =
    | MissingLocalNode(nodeId: NodeId)
    | DuplicateNode(nodeId: NodeId)
    | DuplicateEdge(fromNodeId: NodeId, toNodeId: NodeId)
    | EdgeReferencesUnknownNode(fromNodeId: NodeId, toNodeId: NodeId, missingNodeId: NodeId)
    | DuplicateRoute(routeId: nat)
    | RouteOwnerMissing(routeId: nat, nodeId: NodeId)
    | RouteTerminalMissing(routeId: nat, nodeId: NodeId)
    | RouteHopNodeMissing(routeId: nat, nodeId: NodeId)
    | LocalDeliveryTargetsRemote(routeId: nat)
    | LocalDeliveryHasProtocolMix(routeId: nat)
    | DirectDeliveryNextHopMismatch(routeId: nat)
    | ReachableDeliveryCollapsesToDirect(routeId: nat)
    | RouteMissingEdge(routeId: nat, fromNodeId: NodeId, toNodeId: NodeId)
    | RouteProtocolMixMissingTransport(routeId: nat, kind: TransportKind)
    | ReachableDeliveryRequiresMultiHop(routeId: nat)

  datatype Result<+T> = Ok(value: T) | Err(error: BuildError)

  // ----- Route rules -----

  function FirstMissingHop(route: ActiveRoute, hops: seq<NodeId>, nodes: map<NodeId, MeshNode>): Option<BuildError> {
    if |hops| == 0 then None
    else if hops[0] !in nodes then Some(RouteHopNodeMissing(route.routeId, hops[0]))
    else FirstMissingHop(route, hops[1..], nodes)
  }

  function FirstBadPair(route: ActiveRoute, hops: seq<NodeId>, edges: map<EdgeKey, MeshEdge>): Option<BuildError> {
    if |hops| < 2 then None
    else if (hops[0], hops[1]) !in edges then Some(RouteMissingEdge(route.routeId, hops[0], hops[1]))
    else if edges[(hops[0], hops[1])].Kind() !in route.protocolMix
    then Some(RouteProtocolMixMissingTransport(route.routeId, edges[(hops[0], hops[1])].Kind()))
    else FirstBadPair(route, hops[1..], edges)
  }

  function ValidatePath(
    route: ActiveRoute, hops: seq<NodeId>, nodes: map<NodeId, MeshNode>, edges: map<EdgeKey, MeshEdge>):
    Option<BuildError>
  {
    var missing := FirstMissingHop(route, hops, nodes);
    if missing.Some? then missing else FirstBadPair(route, hops, edges)
  }

  function ValidateRoute(
    route: ActiveRoute, nodes: map<NodeId, MeshNode>, edges: map<EdgeKey, MeshEdge>): Option<BuildError> {
    if route.ownerNodeId !in nodes then Some(RouteOwnerMissing(route.routeId, route.ownerNodeId))
    else if route.terminalNodeId !in nodes then Some(RouteTerminalMissing(route.routeId, route.terminalNodeId))
    else match route.delivery
         case LocalDelivery =>
           if route.ownerNodeId != route.terminalNodeId then Some(LocalDeliveryTargetsRemote(route.routeId))
           else if route.protocolMix != [] then Some(LocalDeliveryHasProtocolMix(route.routeId))
           else None
         case Direct(nextHop) =>
           if nextHop != route.terminalNodeId then Some(DirectDeliveryNextHopMismatch(route.routeId))
           else ValidatePath(route, route.HopNodeIds(), nodes, edges)
         case Reachable(hint) =>
           if hint <= 1 then Some(ReachableDeliveryRequiresMultiHop(route.routeId))
           else if route.ownerNodeId == route.terminalNodeId
           then Some(ReachableDeliveryCollapsesToDirect(route.routeId))
           else None
  }

  /** What a route must look like, said without the order of the checks. */
  predicate RouteOk(route: ActiveRoute, nodes: map<NodeId, MeshNode>, edges: map<EdgeKey, MeshEdge>) {
    && {route.ownerNodeId, route.terminalNodeId} <= nodes.Keys
    && (route.ownerNodeId == route.terminalNodeId ==> !route.delivery.Reachable?)
    && (route.delivery == LocalDelivery ==> route.ownerNodeId == route.terminalNodeId && |route.protocolMix| == 0)
    && (route.delivery.Reachable? ==> route.delivery.hopCountHint > 1)
    && (route.delivery.Direct? ==>
          route.delivery.nextHopNodeId == route.terminalNodeId
          && (route.ownerNodeId, route.terminalNodeId) in edges
          && edges[(route.ownerNodeId, route.terminalNodeId)].Kind() in route.protocolMix)
  }

  lemma ValidateRouteExactly(route: ActiveRoute, nodes: map<NodeId, MeshNode>, edges: map<EdgeKey, MeshEdge>)
    ensures ValidateRoute(route, nodes, edges) == None <==> RouteOk(route, nodes, edges)
  {
    var hops := [route.ownerNodeId, route.terminalNodeId];
    assert hops[1..] == [route.terminalNodeId] && hops[1..][1..] == [];
    assert FirstMissingHop(route, hops[1..][1..], nodes) == None;
    assert FirstMissingHop(route, hops, nodes) == None <==> hops[0] in nodes && hops[1] in nodes;
    assert FirstBadPair(route, hops[1..], edges) == None;
    assert FirstBadPair(route, hops, edges) == None
           <==> (hops[0], hops[1]) in edges && edges[(hops[0], hops[1])].Kind() in route.protocolMix;
    if route.delivery.Direct? { assert route.HopNodeIds() == hops; }
  }

  /** What the reported error says is true of the route, and the checks before it passed. */
  predicate ErrorHolds(
    route: ActiveRoute, nodes: map<NodeId, MeshNode>, edges: map<EdgeKey, MeshEdge>, error: BuildError)
  {
    var owner, terminal, id := route.ownerNodeId, route.terminalNodeId, route.routeId;
    match error
    case RouteOwnerMissing(r, n) => r == id && n == owner && owner !in nodes
    case RouteTerminalMissing(r, n) => r == id && n == terminal && owner in nodes && terminal !in nodes
    case LocalDeliveryTargetsRemote(r) =>
      r == id && owner in nodes && terminal in nodes && route.delivery.LocalDelivery? && owner != terminal
    case LocalDeliveryHasProtocolMix(r) =>
      r == id && owner in nodes && owner == terminal && route.delivery.LocalDelivery? && |route.protocolMix| > 0
    case DirectDeliveryNextHopMismatch(r) =>
      r == id && owner in nodes && terminal in nodes
      && route.delivery.Direct? && route.delivery.nextHopNodeId != terminal
    case RouteMissingEdge(r, a, b) =>
      r == id && owner in nodes && terminal in nodes && route.delivery == Direct(terminal)
      && (a, b) == (owner, terminal) && (a, b) !in edges
    case RouteProtocolMixMissingTransport(r, kind) =>
      r == id && owner in nodes && terminal in nodes && route.delivery == Direct(terminal)
      && (owner, terminal) in edges && kind == edges[(owner, terminal)].Kind() && kind !in route.protocolMix
    case ReachableDeliveryRequiresMultiHop(r) =>
      r == id && owner in nodes && terminal in nodes && route.delivery.Reachable? && route.delivery.hopCountHint < 2
    case ReachableDeliveryCollapsesToDirect(r) =>
      r == id && owner in nodes && owner == terminal && route.delivery.Reachable? && route.delivery.hopCountHint >= 2
    case _ => false
  }

  lemma ReportedErrorHolds(route: ActiveRoute, nodes: map<NodeId, MeshNode>, edges: map<EdgeKey, MeshEdge>)
    ensures ValidateRoute(route, nodes, edges).Some? ==>
              ErrorHolds(route, nodes, edges, ValidateRoute(route, nodes, edges).value)
  {
    var hops := [route.ownerNodeId, route.terminalNodeId];
    assert hops[1..] == [route.terminalNodeId] && hops[1..][1..] == [];
    assert FirstMissingHop(route, hops[1..][1..], nodes) == None && FirstBadPair(route, hops[1..], edges) == None;
    if hops[0] in nodes && hops[1] in nodes {
      assert FirstMissingHop(route, hops[1..], nodes) == None;
      assert FirstMissingHop(route, hops, nodes) == None;
    }
    if route.delivery.Direct? { assert route.HopNodeIds() == hops; }
  }

  method ValidatePathInSteps(
    route: ActiveRoute, hops: seq<NodeId>, nodes: map<NodeId, MeshNode>, edges: map<EdgeKey, MeshEdge>)
    returns (error: Option<BuildError>)
    ensures error == ValidatePath(route, hops, nodes, edges)
  {
    for i := 0 to |hops|
      invariant FirstMissingHop(route, hops, nodes) == FirstMissingHop(route, hops[i..], nodes)
    {
      assert hops[i..][1..] == hops[i + 1..];
      if hops[i] !in nodes {
        return Some(RouteHopNodeMissing(route.routeId, hops[i]));
      }
    }
    var i := 0;
    while i + 1 < |hops|
      invariant 0 <= i <= |hops|
      invariant FirstBadPair(route, hops, edges) == FirstBadPair(route, hops[i..], edges)
      decreases |hops| - i
    {
      assert hops[i..][1..] == hops[i + 1..];
      var key := (hops[i], hops[i + 1]);
      assert key == (hops[i..][0], hops[i..][1]);
      if key !in edges {
        return Some(RouteMissingEdge(route.routeId, key.0, key.1));
      }
      if edges[key].Kind() !in route.protocolMix {
        return Some(RouteProtocolMixMissingTransport(route.routeId, edges[key].Kind()));
      }
      i := i + 1;
    }
    return None;
  }

  // ----- The builder -----

  ghost predicate DistinctNodes(nodes: seq<MeshNode>) {
    forall i, j :: 0 <= i < j < |nodes| ==> nodes[i].nodeId != nodes[j].nodeId
  }

  ghost predicate HoldsNodes(nodes: seq<MeshNode>, m: map<NodeId, MeshNode>) {
    && (forall i :: 0 <= i < |nodes| ==> nodes[i].nodeId in m && m[nodes[i].nodeId] == nodes[i])
    && (forall n :: n in m ==> m[n] in nodes && m[n].nodeId == n)
  }

  ghost predicate HasLocal(nodes: seq<MeshNode>, localNodeId: NodeId) {
    exists i :: 0 <= i < |nodes| && nodes[i].nodeId == localNodeId && nodes[i].role == Local
  }

  ghost predicate EdgesOk(edges: seq<MeshEdge>, nodes: map<NodeId, MeshNode>) {
    && (forall i :: 0 <= i < |edges| ==> edges[i].fromNodeId in nodes && edges[i].toNodeId in nodes)
    && (forall i, j :: 0 <= i < j < |edges| ==> edges[i].Key() != edges[j].Key())
  }

  ghost predicate HoldsEdges(edges: seq<MeshEdge>, m: map<EdgeKey, MeshEdge>) {
    && (forall i :: 0 <= i < |edges| ==> edges[i].Key() in m && m[edges[i].Key()] == edges[i])
    && (forall k :: k in m ==> m[k] in edges && m[k].Key() == k)
  }

  ghost predicate RoutesOk(routes: seq<ActiveRoute>, nodes: map<NodeId, MeshNode>, edges: map<EdgeKey, MeshEdge>) {
    && (forall i :: 0 <= i < |routes| ==> RouteOk(routes[i], nodes, edges))
    && (forall i, j :: 0 <= i < j < |routes| ==> routes[i].routeId != routes[j].routeId)
  }

  ghost predicate HoldsRoutes(routes: seq<ActiveRoute>, m: map<nat, ActiveRoute>) {
    && (forall i :: 0 <= i < |routes| ==> routes[i].routeId in m && m[routes[i].routeId] == routes[i])
    && (forall r :: r in m ==> m[r] in routes && m[r].routeId == r)
  }

  /** The first entry that breaks the node rules, after entries that keep them. */
  ghost predicate NodeErrorAt(nodes: seq<MeshNode>, j: nat, error: BuildError) {
    j < |nodes| && DistinctNodes(nodes[..j]) && !DistinctNodes(nodes[..j + 1])
    && error == DuplicateNode(nodes[j].nodeId)
  }

  method CollectNodes(nodes: seq<MeshNode>, localNodeId: NodeId) returns (r: Result<map<NodeId, MeshNode>>)
    ensures r.Ok? <==> DistinctNodes(nodes) && HasLocal(nodes, localNodeId)
    ensures r.Ok? ==> HoldsNodes(nodes, r.value)
    ensures r.Err? ==> if DistinctNodes(nodes) then r.error == MissingLocalNode(localNodeId)
                       else exists j :: NodeErrorAt(nodes, j, r.error)
  {
    var m: map<NodeId, MeshNode> := map[];
    for i := 0 to |nodes|
      invariant DistinctNodes(nodes[..i]) && HoldsNodes(nodes[..i], m)
    {
      var node := nodes[i];
      if node.nodeId in m {
        assert m[node.nodeId] in nodes[..i];
        var k :| 0 <= k < i && nodes[..i][k] == m[node.nodeId];
        assert nodes[..i + 1][k].nodeId == nodes[..i + 1][i].nodeId;
        assert NodeErrorAt(nodes, i, DuplicateNode(node.nodeId));
        assert nodes[k].nodeId == nodes[i].nodeId;
        return Err(DuplicateNode(node.nodeId));
      }
      m := m[node.nodeId := node];
      assert nodes[..i + 1] == nodes[..i] + [node];
    }
    assert nodes[..|nodes|] == nodes;
    if localNodeId !in m {
      return Err(MissingLocalNode(localNodeId));
    }
    if m[localNodeId].role != Local {
      return Err(MissingLocalNode(localNodeId));
    }
    return Ok(m);
  }

  ghost predicate EdgeErrorAt(edges: seq<MeshEdge>, j: nat, nodes: map<NodeId, MeshNode>, error: BuildError) {
    j < |edges| && EdgesOk(edges[..j], nodes)
    && var e := edges[j];
       if e.fromNodeId !in nodes then error == EdgeReferencesUnknownNode(e.fromNodeId, e.toNodeId, e.fromNodeId)
       else if e.toNodeId !in nodes then error == EdgeReferencesUnknownNode(e.fromNodeId, e.toNodeId, e.toNodeId)
       else error == DuplicateEdge(e.fromNodeId, e.toNodeId) && exists i :: 0 <= i < j && edges[i].Key() == e.Key()
  }

  method CollectEdges(edges: seq<MeshEdge>, nodes: map<NodeId, MeshNode>) returns (r: Result<map<EdgeKey, MeshEdge>>)
    ensures r.Ok? <==> EdgesOk(edges, nodes)
    ensures r.Ok? ==> HoldsEdges(edges, r.value)
    ensures r.Err? ==> exists j :: EdgeErrorAt(edges, j, nodes, r.error)
  {
    var m: map<EdgeKey, MeshEdge> := map[];
    for i := 0 to |edges|
      invariant EdgesOk(edges[..i], nodes) && HoldsEdges(edges[..i], m)
    {
      var edge := edges[i];
      if edge.fromNodeId !in nodes {
        r := Err(EdgeReferencesUnknownNode(edge.fromNodeId, edge.toNodeId, edge.fromNodeId));
        assert EdgeErrorAt(edges, i, nodes, r.error);
        return;
      }
      if edge.toNodeId !in nodes {
        r := Err(EdgeReferencesUnknownNode(edge.fromNodeId, edge.toNodeId, edge.toNodeId));
        assert EdgeErrorAt(edges, i, nodes, r.error);
        return;
      }
      if edge.Key() in m {
        assert m[edge.Key()] in edges[..i];
        var k :| 0 <= k < i && edges[..i][k] == m[edge.Key()];
        assert edges[k].Key() == edges[i].Key();
        r := Err(DuplicateEdge(edge.fromNodeId, edge.toNodeId));
        assert EdgeErrorAt(edges, i, nodes, r.error);
        return;
      }
      m := m[edge.Key() := edge];
      assert edges[..i + 1] == edges[..i] + [edge];
    }
    assert edges[..|edges|] == edges;
    return Ok(m);
  }

  ghost predicate RouteErrorAt(
    routes: seq<ActiveRoute>, j: nat, nodes: map<NodeId, MeshNode>, edges: map<EdgeKey, MeshEdge>,
    error: BuildError)
  {
    j < |routes| && RoutesOk(routes[..j], nodes, edges)
    && if ValidateRoute(routes[j], nodes, edges).Some? then Some(error) == ValidateRoute(routes[j], nodes, edges)
       else error == DuplicateRoute(routes[j].routeId)
            && exists i :: 0 <= i < j && routes[i].routeId == routes[j].routeId
  }

  lemma RouteHeld(
    before: seq<ActiveRoute>, route: ActiveRoute, m: map<nat, ActiveRoute>,
    nodes: map<NodeId, MeshNode>, edges: map<EdgeKey, MeshEdge>)
    requires RoutesOk(before, nodes, edges) && HoldsRoutes(before, m)
    requires RouteOk(route, nodes, edges) && route.routeId !in m
    ensures RoutesOk(before + [route], nodes, edges)
    ensures HoldsRoutes(before + [route], m[route.routeId := route])
  {
    var all := before + [route];
    forall i | 0 <= i < |before| ensures all[i] == before[i] && all[i].routeId in m {}
    assert all[|before|] == route;
  }

  method CollectRoutes(routes: seq<ActiveRoute>, nodes: map<NodeId, MeshNode>, edges: map<EdgeKey, MeshEdge>)
    returns (r: Result<map<nat, ActiveRoute>>)
    ensures r.Ok? <==> RoutesOk(routes, nodes, edges)
    ensures r.Ok? ==> HoldsRoutes(routes, r.value)
    ensures r.Err? ==> exists j :: RouteErrorAt(routes, j, nodes, edges, r.error)
  {
    var m: map<nat, ActiveRoute> := map[];
    for i := 0 to |routes|
      invariant RoutesOk(routes[..i], nodes, edges) && HoldsRoutes(routes[..i], m)
    {
      var route := routes[i];
      ValidateRouteExactly(route, nodes, edges);
      var error := ValidateRoute(route, nodes, edges);
      if error.Some? {
        r := Err(error.value);
        assert RouteErrorAt(routes, i, nodes, edges, r.error);
        return;
      }
      if route.routeId in m {
        assert m[route.routeId] in routes[..i];
        var k :| 0 <= k < i && routes[..i][k] == m[route.routeId];
        assert routes[k].routeId == routes[i].routeId;
        r := Err(DuplicateRoute(route.routeId));
        assert RouteErrorAt(routes, i, nodes, edges, r.error);
        return;
      }
      RouteHeld(routes[..i], route, m, nodes, edges);
      m := m[route.routeId := route];
      assert routes[..i + 1] == routes[..i] + [route];
    }
    assert routes[..|routes|] == routes;
    return Ok(m);
  }

  /** A topology whose parts fit together. */
  ghost predicate TopologyOk(t: MeshTopology) {
    && t.localNodeId in t.nodes && t.nodes[t.localNodeId].role == Local
    && (forall n :: n in t.nodes ==> t.nodes[n].nodeId == n)
    && (forall k :: k in t.edges ==> t.edges[k].Key() == k && k.0 in t.nodes && k.1 in t.nodes)
    && (forall r :: r in t.activeRoutes ==>
          t.activeRoutes[r].routeId == r && RouteOk(t.activeRoutes[r], t.nodes, t.edges))
  }

  ghost function NodesById(nodes: seq<MeshNode>): map<NodeId, MeshNode>
    decreases |nodes|
  {
    if |nodes| == 0 then map[]
    else NodesById(nodes[..|nodes| - 1])[nodes[|nodes| - 1].nodeId := nodes[|nodes| - 1]]
  }

  ghost function EdgesByKey(edges: seq<MeshEdge>): map<EdgeKey, MeshEdge>
    decreases |edges|
  {
    if |edges| == 0 then map[]
    else EdgesByKey(edges[..|edges| - 1])[edges[|edges| - 1].Key() := edges[|edges| - 1]]
  }

  lemma {:induction false} NodesByIdHolds(nodes: seq<MeshNode>)
    requires DistinctNodes(nodes)
    ensures HoldsNodes(nodes, NodesById(nodes))
    decreases |nodes|
  {
    if |nodes| > 0 {
      NodesByIdHolds(nodes[..|nodes| - 1]);
      assert nodes == nodes[..|nodes| - 1] + [nodes[|nodes| - 1]];
    }
  }

  lemma {:induction false} EdgesByKeyHolds(edges: seq<MeshEdge>, nodes: map<NodeId, MeshNode>)
    requires EdgesOk(edges, nodes)
    ensures HoldsEdges(edges, EdgesByKey(edges))
    decreases |edges|
  {
    if |edges| > 0 {
      EdgesByKeyHolds(edges[..|edges| - 1], nodes);
      assert edges == edges[..|edges| - 1] + [edges[|edges| - 1]];
    }
  }

  /** The inputs the builder accepts, said over the lists alone. */
  ghost predicate Buildable(localNodeId: NodeId, nodes: seq<MeshNode>, edges: seq<MeshEdge>, routes: seq<ActiveRoute>) {
    && DistinctNodes(nodes) && HasLocal(nodes, localNodeId)
    && EdgesOk(edges, NodesById(nodes))
    && RoutesOk(routes, NodesById(nodes), EdgesByKey(edges))
  }

  lemma NodeMapUnique(nodes: seq<MeshNode>, a: map<NodeId, MeshNode>, b: map<NodeId, MeshNode>)
    requires HoldsNodes(nodes, a) && HoldsNodes(nodes, b)
    ensures a == b
  {
    forall n ensures n in a <==> n in b {
      if n in a { var i :| 0 <= i < |nodes| && nodes[i] == a[n]; }
      if n in b { var i :| 0 <= i < |nodes| && nodes[i] == b[n]; }
    }
    forall n | n in a ensures a[n] == b[n] {
      var i :| 0 <= i < |nodes| && nodes[i] == a[n];
    }
  }

  lemma EdgeMapUnique(edges: seq<MeshEdge>, a: map<EdgeKey, MeshEdge>, b: map<EdgeKey, MeshEdge>)
    requires HoldsEdges(edges, a) && HoldsEdges(edges, b)
    ensures a == b
  {
    forall k ensures k in a <==> k in b {
      if k in a { var i :| 0 <= i < |edges| && edges[i] == a[k]; }
      if k in b { var i :| 0 <= i < |edges| && edges[i] == b[k]; }
    }
    forall k | k in a ensures a[k] == b[k] {
      var i :| 0 <= i < |edges| && edges[i] == a[k];
    }
  }

  /** Accepts exactly the buildable inputs, and the maps then hold exactly the inputs. */
  method Build(
    localNodeId: NodeId, observedAtTick: nat, nodes: seq<MeshNode>, edges: seq<MeshEdge>, routes: seq<ActiveRoute>)
    returns (r: Result<MeshTopology>)
    ensures r.Ok? <==> Buildable(localNodeId, nodes, edges, routes)
    ensures r.Ok? ==>
              && r.value.localNodeId == localNodeId && r.value.observedAtTick == observedAtTick
              && HoldsNodes(nodes, r.value.nodes) && HoldsEdges(edges, r.value.edges)
              && HoldsRoutes(routes, r.value.activeRoutes) && TopologyOk(r.value)
    ensures r.Err? ==>
              if !DistinctNodes(nodes) then exists j :: NodeErrorAt(nodes, j, r.error)
              else if !HasLocal(nodes, localNodeId) then r.error == MissingLocalNode(localNodeId)
              else if !EdgesOk(edges, NodesById(nodes))
              then exists j :: EdgeErrorAt(edges, j, NodesById(nodes), r.error)
              else exists j :: RouteErrorAt(routes, j, NodesById(nodes), EdgesByKey(edges), r.error)
  {
    var nodeMap := CollectNodes(nodes, localNodeId);
    if nodeMap.Err? {
      return Err(nodeMap.error);
    }
    NodesByIdHolds(nodes);
    NodeMapUnique(nodes, NodesById(nodes), nodeMap.value);
    var edgeMap := CollectEdges(edges, nodeMap.value);
    if edgeMap.Err? {
      return Err(edgeMap.error);
    }
    EdgesByKeyHolds(edges, nodeMap.value);
    EdgeMapUnique(edges, EdgesByKey(edges), edgeMap.value);
    var routeMap := CollectRoutes(routes, nodeMap.value, edgeMap.value);
    if routeMap.Err? {
      return Err(routeMap.error);
    }
    var t := MeshTopology(localNodeId, observedAtTick, nodeMap.value, edgeMap.value, routeMap.value);
    HeldPartsFit(t, nodes, edges, routes);
    return Ok(t);
  }

  lemma HeldPartsFit(t: MeshTopology, nodes: seq<MeshNode>, edges: seq<MeshEdge>, routes: seq<ActiveRoute>)
    requires HoldsNodes(nodes, t.nodes) && HasLocal(nodes, t.localNodeId)
    requires HoldsEdges(edges, t.edges) && EdgesOk(edges, t.nodes)
    requires HoldsRoutes(routes, t.activeRoutes) && RoutesOk(routes, t.nodes, t.edges)
    ensures TopologyOk(t)
  {
    forall k | k in t.edges ensures t.edges[k].Key() == k && k.0 in t.nodes && k.1 in t.nodes {
      var i :| 0 <= i < |edges| && edges[i] == t.edges[k];
    }
    forall r | r in t.activeRoutes
      ensures t.activeRoutes[r].routeId == r && RouteOk(t.activeRoutes[r], t.nodes, t.edges) {
      var i :| 0 <= i < |routes| && routes[i] == t.activeRoutes[r];
    }
  }

  // ----- The sanitised view -----

  function VisibleNodeIds(t: MeshTopology): set<NodeId> {
    {t.localNodeId} + set k | k in t.edges && k.0 == t.localNodeId :: k.1
  }

  /** Only what the local node can verify itself: its own edges, its neighbours, routes between visible nodes. */
  function Sanitize(t: MeshTopology): MeshTopology {
    var visible := VisibleNodeIds(t);
    t.(edges := map k | k in t.edges && k.0 == t.localNodeId :: t.edges[k],
       nodes := map n | n in t.nodes && n in visible :: t.nodes[n],
       activeRoutes := map r | r in t.activeRoutes && t.activeRoutes[r].ownerNodeId in visible
                               && t.activeRoutes[r].terminalNodeId in visible :: t.activeRoutes[r])
  }

  predicate SeenFrom(t: MeshTopology, n: NodeId) { n == t.localNodeId || (t.localNodeId, n) in t.edges }

  /** The view keeps, unchanged, exactly the local node and its neighbours, its own edges, and routes among those. */
  lemma SanitizeExactly(t: MeshTopology)
    ensures var s := Sanitize(t);
      && s.localNodeId == t.localNodeId && s.observedAtTick == t.observedAtTick
      && (forall n :: n in s.nodes <==> n in t.nodes && SeenFrom(t, n))
      && (forall n :: n in s.nodes ==> s.nodes[n] == t.nodes[n])
      && (forall k :: k in s.edges <==> k in t.edges && k.0 == t.localNodeId)
      && (forall k :: k in s.edges ==> s.edges[k] == t.edges[k])
      && (forall r :: r in s.activeRoutes <==> r in t.activeRoutes && SeenFrom(t, t.activeRoutes[r].ownerNodeId)
                                               && SeenFrom(t, t.activeRoutes[r].terminalNodeId))
      && (forall r :: r in s.activeRoutes ==> s.activeRoutes[r] == t.activeRoutes[r])
  {
    forall n ensures n in VisibleNodeIds(t) <==> SeenFrom(t, n) {
      if SeenFrom(t, n) && n != t.localNodeId { assert (t.localNodeId, n) in t.edges; }
    }
  }

  lemma SanitizeIdempotent(t: MeshTopology)
    ensures Sanitize(Sanitize(t)) == Sanitize(t)
    ensures VisibleNodeIds(Sanitize(t)) == VisibleNodeIds(t)
  {
    var s := Sanitize(t);
    assert forall k :: k in s.edges <==> k in t.edges && k.0 == t.localNodeId;
    assert VisibleNodeIds(s) == VisibleNodeIds(t);
    assert Sanitize(s).edges == s.edges;
    assert Sanitize(s).nodes == s.nodes;
    assert Sanitize(s).activeRoutes == s.activeRoutes;
  }

  /** The sanitised view is well formed exactly when every direct route it keeps belongs to the local node. */
  lemma SanitizeKeepsTopologyExactly(t: MeshTopology)
    requires TopologyOk(t)
    ensures TopologyOk(Sanitize(t)) <==>
              forall r :: r in t.activeRoutes && t.activeRoutes[r].delivery.Direct?
                && {t.activeRoutes[r].ownerNodeId, t.activeRoutes[r].terminalNodeId} <= VisibleNodeIds(t)
                ==> t.activeRoutes[r].ownerNodeId == t.localNodeId
  {
    var s := Sanitize(t);
    forall r | r in s.activeRoutes
      ensures RouteOk(s.activeRoutes[r], s.nodes, s.edges)
              <==> (s.activeRoutes[r].delivery.Direct? ==> s.activeRoutes[r].ownerNodeId == t.localNodeId)
    {
      var route := t.activeRoutes[r];
      assert RouteOk(route, t.nodes, t.edges);
      assert route.ownerNodeId in s.nodes && route.terminalNodeId in s.nodes;
    }
    forall k | k in s.edges ensures k.0 in s.nodes && k.1 in s.nodes {
      assert k.1 in VisibleNodeIds(t);
    }
    if forall r :: r in t.activeRoutes && t.activeRoutes[r].delivery.Direct?
                && {t.activeRoutes[r].ownerNodeId, t.activeRoutes[r].terminalNodeId} <= VisibleNodeIds(t)
                ==> t.activeRoutes[r].ownerNodeId == t.localNodeId {
      forall r | r in s.activeRoutes ensures RouteOk(s.activeRoutes[r], s.nodes, s.edges) {
        assert {t.activeRoutes[r].ownerNodeId, t.activeRoutes[r].terminalNodeId} <= VisibleNodeIds(t);
      }
      assert TopologyOk(s);
    } else {
      var r :| r in t.activeRoutes && t.activeRoutes[r].delivery.Direct?
                && {t.activeRoutes[r].ownerNodeId, t.activeRoutes[r].terminalNodeId} <= VisibleNodeIds(t)
                && t.activeRoutes[r].ownerNodeId != t.localNodeId;
      assert r in s.activeRoutes && !RouteOk(s.activeRoutes[r], s.nodes, s.edges);
    }
  }

  /**
   * The neighbour's topology a sanitised view breaks: two nodes linked both ways, and its direct route to the
   * local node.
   */
  function WithNeighboursRoute(local: NodeId, neighbour: NodeId, observation: Observation<Link>): MeshTopology {
    var kind := observation.value.endpoint.transportKind;
    MeshTopology(local, 0,
      map[local := MeshNode(local, Local, 0), neighbour := MeshNode(neighbour, Remote, 0)],
      map[(local, neighbour) := MeshEdge(local, neighbour, observation),
          (neighbour, local) := MeshEdge(neighbour, local, observation)],
      map[0 := ActiveRoute(0, neighbour, NodeDestination(local), local, NextHopOnly, [kind], Direct(local), 0)])
  }

  /** A well-formed topology whose sanitised view is not: the kept route has lost its edge. */
  lemma SanitizingBreaksTopology(local: NodeId, neighbour: NodeId, observation: Observation<Link>)
    requires local != neighbour
    ensures var t := WithNeighboursRoute(local, neighbour, observation);
      && TopologyOk(t) && !TopologyOk(Sanitize(t))
      && 0 in Sanitize(t).activeRoutes
      && ValidateRoute(t.activeRoutes[0], Sanitize(t).nodes, Sanitize(t).edges).Some?
  {
    var t := WithNeighboursRoute(local, neighbour, observation);
    var s := Sanitize(t);
    assert (local, neighbour) in t.edges && neighbour in VisibleNodeIds(t) && local in VisibleNodeIds(t);
    ValidateRouteExactly(t.activeRoutes[0], s.nodes, s.edges);
    assert (neighbour, local) !in s.edges;
    assert 0 in s.activeRoutes && !RouteOk(s.activeRoutes[0], s.nodes, s.edges);
  }
}

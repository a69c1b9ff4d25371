/** Any number of nodes pumping application frames hop by hop over a lossy, reordering, duplicating network. */
module RelayNetwork {
  import opened Identity
  import opened Framing

  /** Bytes handed to a next hop. Packets are never removed: each may arrive never, once or often, in any order. */
  datatype Packet = Packet(fromHop: NodeId, toHop: NodeId, bytes: seq<Byte>)

  datatype Event =
    | Sent(source: NodeId, destination: NodeId, payload: seq<Byte>)
    | Surfaced(at: NodeId, claimedSource: NodeId, fromHop: NodeId, payload: seq<Byte>)

  /** `transit` holds the frames a node's pump has taken up for relaying, as received. */
  datatype Network = Network(packets: set<Packet>, transit: set<(NodeId, seq<Byte>)>, history: seq<Event>)

  const Quiet := Network({}, {}, [])

  datatype Step =
    | Send(source: NodeId, destination: NodeId, payload: seq<Byte>, nextHop: NodeId)
    | ForeignTraffic(packet: Packet)
    | Arrive(packet: Packet)
    | Relay(node: NodeId, frame: seq<Byte>, nextHop: NodeId)

  function ApplicationFrameIn(bytes: seq<Byte>): Option<ApplicationFrame> {
    match DecodeClientPayload(bytes)
    case None => None
    case Some(payload) => DecodeApplicationFrame(payload)
  }

  /** Other traffic shares the links but does not carry application frames. */
  predicate Enabled(n: Network, step: Step) {
    match step
    case Send(_, _, _, _) => true
    case ForeignTraffic(packet) => ApplicationFrameIn(packet.bytes) == None
    case Arrive(packet) => packet in n.packets
    case Relay(node, frame, _) => (node, frame) in n.transit
  }

  /** The pump: drop what is no application frame, surface what is for this node, take up the rest. */
  function OnArrival(n: Network, packet: Packet): Network {
    match DecodeClientPayload(packet.bytes)
    case None => n
    case Some(payload) =>
      match DecodeApplicationFrame(payload)
      case None => n
      case Some(frame) =>
        if frame.destinationNodeId == packet.toHop
        then n.(history := n.history + [Surfaced(packet.toHop, frame.fromNodeId, packet.fromHop, frame.payload)])
        else n.(transit := n.transit + {(packet.toHop, payload)})
  }

  function Next(n: Network, step: Step): Network {
    match step
    case Send(source, destination, payload, nextHop) =>
      var frame := EncodeApplicationFrame(ApplicationFrame(source, destination, payload));
      n.(packets := n.packets + {Packet(source, nextHop, EncodeClientPayload(frame))},
         history := n.history + [Sent(source, destination, payload)])
    case ForeignTraffic(packet) => n.(packets := n.packets + {packet})
    case Arrive(packet) => OnArrival(n, packet)
    case Relay(node, frame, nextHop) => n.(packets := n.packets + {Packet(node, nextHop, EncodeClientPayload(frame))})
  }

  ghost predicate AllEnabled(steps: seq<Step>) {
    forall i :: 0 <= i < |steps| ==> Enabled(Run(steps[..i]), steps[i])
  }

  function Run(steps: seq<Step>): Network
    decreases |steps|
  {
    if |steps| == 0 then Quiet else Next(Run(steps[..|steps| - 1]), steps[|steps| - 1])
  }

  ghost predicate WasSent(history: seq<Event>, frame: ApplicationFrame) {
    Sent(frame.fromNodeId, frame.destinationNodeId, frame.payload) in history
  }

  /** Every frame on the wire or in transit was sent, and every surfaced message follows its send. */
  ghost predicate Honest(n: Network) {
    && (forall p :: p in n.packets && ApplicationFrameIn(p.bytes).Some? ==>
          WasSent(n.history, ApplicationFrameIn(p.bytes).value))
    && (forall t :: t in n.transit ==>
          DecodeApplicationFrame(t.1).Some? && WasSent(n.history, DecodeApplicationFrame(t.1).value)
          && DecodeApplicationFrame(t.1).value.destinationNodeId != t.0)
    && (forall i :: 0 <= i < |n.history| && n.history[i].Surfaced? ==>
          Sent(n.history[i].claimedSource, n.history[i].at, n.history[i].payload) in n.history[..i])
  }

  lemma LongerHistory(n: Network, event: Event)
    requires Honest(n)
    requires event.Surfaced? ==> Sent(event.claimedSource, event.at, event.payload) in n.history
    ensures Honest(n.(history := n.history + [event]))
  {
    var longer := n.history + [event];
    forall i | 0 <= i < |longer| && longer[i].Surfaced?
      ensures Sent(longer[i].claimedSource, longer[i].at, longer[i].payload) in longer[..i]
    {
      if i < |n.history| { assert longer[..i] == n.history[..i]; } else { assert longer[..i] == n.history; }
    }
  }

  lemma StepKeepsHonest(n: Network, step: Step)
    requires Honest(n) && Enabled(n, step)
    ensures Honest(Next(n, step))
  {
    match step
    case Send(source, destination, payload, nextHop) =>
      var frame := ApplicationFrame(source, destination, payload);
      var bytes := EncodeApplicationFrame(frame);
      ApplicationFramingExact(bytes, frame);
      ClientFramingExact(EncodeClientPayload(bytes), bytes);
      LongerHistory(n, Sent(source, destination, payload));
      assert WasSent(Next(n, step).history, frame);
    case ForeignTraffic(_) =>
    case Arrive(packet) =>
      if ApplicationFrameIn(packet.bytes).Some? {
        var frame := ApplicationFrameIn(packet.bytes).value;
        assert WasSent(n.history, frame);
        if frame.destinationNodeId == packet.toHop {
          LongerHistory(n, Surfaced(packet.toHop, frame.fromNodeId, packet.fromHop, frame.payload));
        }
      }
    case Relay(node, frame, _) =>
      ClientFramingExact(EncodeClientPayload(frame), frame);
      assert (node, frame) in n.transit;
  }

  lemma {:induction false} EveryRunIsHonest(steps: seq<Step>)
    requires AllEnabled(steps)
    ensures Honest(Run(steps))
    decreases |steps|
  {
    if |steps| > 0 {
      var earlier := steps[..|steps| - 1];
      forall i | 0 <= i < |earlier| ensures Enabled(Run(earlier[..i]), earlier[i]) {
        assert earlier[..i] == steps[..i];
      }
      EveryRunIsHonest(earlier);
      StepKeepsHonest(Run(earlier), steps[|steps| - 1]);
    }
  }

  /**
   * End to end: a message surfaced anywhere is addressed there, and its claimed source and payload are
   * those of an earlier send at that source, whatever hops, losses, repeats and reorderings came between.
   */
  lemma {:induction false} SurfacedMessagesWereSent(steps: seq<Step>, i: nat)
    requires AllEnabled(steps) && i < |Run(steps).history| && Run(steps).history[i].Surfaced?
    ensures exists j :: 0 <= j < i
              && Run(steps).history[j] == Sent(Run(steps).history[i].claimedSource, Run(steps).history[i].at,
                 Run(steps).history[i].payload)
  {
    EveryRunIsHonest(steps);
    var h := Run(steps).history;
    var sent := Sent(h[i].claimedSource, h[i].at, h[i].payload);
    assert sent in h[..i];
    var j :| 0 <= j < |h[..i]| && h[..i][j] == sent;
    assert h[j] == sent;
  }

  lemma {:induction false} Snoc(steps: seq<Step>, step: Step)
    requires AllEnabled(steps) && Enabled(Run(steps), step)
    ensures AllEnabled(steps + [step]) && Run(steps + [step]) == Next(Run(steps), step)
  {
    var longer := steps + [step];
    assert longer[..|steps|] == steps;
    forall i | 0 <= i < |longer| ensures Enabled(Run(longer[..i]), longer[i]) {
      if i < |steps| { assert longer[..i] == steps[..i]; }
    }
  }

  /** The hop a packet comes from when it stands in front of hop k. */
  function Upstream(hops: seq<NodeId>, source: NodeId, k: nat): NodeId
    requires k < |hops|
  {
    if k == 0 then source else hops[k - 1]
  }

  ghost predicate Carries(message: ApplicationFrame, frame: seq<Byte>, wire: seq<Byte>) {
    && frame == EncodeApplicationFrame(message) && wire == EncodeClientPayload(frame)
    && DecodeClientPayload(wire) == Some(frame) && DecodeApplicationFrame(frame) == Some(message)
  }

  lemma FirstHop(message: ApplicationFrame, frame: seq<Byte>, wire: seq<Byte>, nextHop: NodeId)
    requires Carries(message, frame, wire)
    ensures var steps := [Send(message.fromNodeId, message.destinationNodeId, message.payload, nextHop)];
      AllEnabled(steps) && Packet(message.fromNodeId, nextHop, wire) in Run(steps).packets
  {
    var send := Send(message.fromNodeId, message.destinationNodeId, message.payload, nextHop);
    Snoc([], send);
    assert [] + [send] == [send];
  }

  lemma {:induction false} OneHopFurther(
    carried: seq<Step>, packet: Packet, message: ApplicationFrame, frame: seq<Byte>, nextHop: NodeId)
    requires AllEnabled(carried) && packet in Run(carried).packets
    requires Carries(message, frame, packet.bytes) && packet.toHop != message.destinationNodeId
    ensures var longer := carried + [Arrive(packet)] + [Relay(packet.toHop, frame, nextHop)];
      AllEnabled(longer) && Packet(packet.toHop, nextHop, packet.bytes) in Run(longer).packets
  {
    Snoc(carried, Arrive(packet));
    Snoc(carried + [Arrive(packet)], Relay(packet.toHop, frame, nextHop));
  }

  /** A send, then an arrival and a relay per hop, bring the packet in front of hop k. */
  lemma {:induction false} ReachesHop(
    hops: seq<NodeId>, message: ApplicationFrame, frame: seq<Byte>, wire: seq<Byte>, k: nat)
    returns (steps: seq<Step>)
    requires k < |hops| && Carries(message, frame, wire)
    requires forall i :: 0 <= i < |hops| - 1 ==> hops[i] != message.destinationNodeId
    ensures AllEnabled(steps) && Packet(Upstream(hops, message.fromNodeId, k), hops[k], wire) in Run(steps).packets
    decreases k
  {
    if k == 0 {
      FirstHop(message, frame, wire, hops[0]);
      steps := [Send(message.fromNodeId, message.destinationNodeId, message.payload, hops[0])];
    } else {
      var carried := ReachesHop(hops, message, frame, wire, k - 1);
      var packet := Packet(Upstream(hops, message.fromNodeId, k - 1), hops[k - 1], wire);
      OneHopFurther(carried, packet, message, frame, hops[k]);
      steps := carried + [Arrive(packet)] + [Relay(packet.toHop, frame, hops[k])];
    }
  }

  /** A line of hops delivers: what the source sends surfaces at the end, unchanged, under the source's name. */
  lemma {:induction false} LineDelivers(hops: seq<NodeId>, message: ApplicationFrame) returns (steps: seq<Step>)
    requires |hops| > 0 && hops[|hops| - 1] == message.destinationNodeId
    requires forall i :: 0 <= i < |hops| - 1 ==> hops[i] != message.destinationNodeId
    ensures AllEnabled(steps) && |Run(steps).history| > 0
    ensures Run(steps).history[|Run(steps).history| - 1] ==
              Surfaced(message.destinationNodeId, message.fromNodeId, Upstream(hops, message.fromNodeId, |hops| - 1),
                       message.payload)
  {
    var frame := EncodeApplicationFrame(message);
    var wire := EncodeClientPayload(frame);
    ApplicationFramingExact(frame, message);
    ClientFramingExact(wire, frame);
    var k := |hops| - 1;
    var carried := ReachesHop(hops, message, frame, wire, k);
    var packet := Packet(Upstream(hops, message.fromNodeId, k), message.destinationNodeId, wire);
    SurfacesAtDestination(Run(carried), packet, message, frame);
    Snoc(carried, Arrive(packet));
    steps := carried + [Arrive(packet)];
  }

  lemma SurfacesAtDestination(n: Network, packet: Packet, message: ApplicationFrame, frame: seq<Byte>)
    requires Carries(message, frame, packet.bytes) && packet.toHop == message.destinationNodeId
    ensures Next(n, Arrive(packet)).history
         == n.history + [Surfaced(packet.toHop, message.fromNodeId, packet.fromHop, message.payload)]
  {
  }
}

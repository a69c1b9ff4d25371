/** Tick-free ingress events, and the stamped observations the bridge makes of them. */
module Observations {
  import opened Identity
  import opened Gatt
  import RuntimeSpec

  datatype LinkRuntimeState = Active | Faulted | OtherState(code: nat)

  datatype IngressEvent =
    | PayloadReceived(fromNodeId: NodeId, endpoint: LinkEndpoint, payload: seq<Byte>)
    | LinkReported(remoteNodeId: NodeId, endpoint: LinkEndpoint, state: LinkRuntimeState)

  /** What the link record says beyond its endpoint and state: the raw carrier, or evidence shaped at a tick. */
  datatype LinkProfile = Carrier | Shaped(tick: nat) | Foreign(code: nat)

  datatype Link = Link(endpoint: LinkEndpoint, state: LinkRuntimeState, profile: LinkProfile)

  datatype Observation<T> = Observation(value: T, observedAtTick: nat)

  datatype TransportObservation =
    | PayloadObserved(fromNodeId: NodeId, endpoint: LinkEndpoint, payload: seq<Byte>, observedAtTick: nat)
    | LinkObserved(remoteNodeId: NodeId, observation: Observation<Link>)
  {
    function Tick(): nat {
      if PayloadObserved? then observedAtTick else observation.observedAtTick
    }
  }

  /** Only active links are shaped; shaping keeps the endpoint, including its MTU. */
  function LinkObservation(remoteNodeId: NodeId, endpoint: LinkEndpoint, state: LinkRuntimeState, tick: nat):
    TransportObservation
  {
    LinkObserved(remoteNodeId, Observation(Link(endpoint, state,
                 if state == Active then Shaped(tick) else Carrier), tick))
  }

  function Observe(event: IngressEvent, tick: nat): TransportObservation {
    match event
    case PayloadReceived(fromNodeId, endpoint, payload) => PayloadObserved(fromNodeId, endpoint, payload, tick)
    case LinkReported(remoteNodeId, endpoint, state) => LinkObservation(remoteNodeId, endpoint, state, tick)
  }

  /** The control event behind a trace entry. */
  function LinkEventOf(entry: RuntimeSpec.TraceEntry): IngressEvent
    requires entry.Link?
  {
    LinkReported(entry.nodeId, entry.endpoint, if entry.state == RuntimeSpec.Active then Active else Faulted)
  }

  /** The control events of a history, in emission order. */
  function ControlEvents(trace: seq<RuntimeSpec.TraceEntry>): seq<IngressEvent>
    decreases |trace|
  {
    if |trace| == 0 then []
    else
      var earlier := ControlEvents(trace[..|trace| - 1]);
      var last := trace[|trace| - 1];
      if last.Link? then earlier + [LinkEventOf(last)] else earlier
  }
}

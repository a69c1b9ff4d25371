/** What the two derived views read in link events: subscriptions in fanout events, paths in all others. */
module Views {
  import opened Identity
  import opened Gatt
  import opened Observations
  import RuntimeSpec
  import RuntimeAgreement

  datatype Topic = SubscriptionOf(nodeId: NodeId) | PathTo(nodeId: NodeId)

  datatype Word = Subscribed(yes: bool) | Path(endpoint: Option<LinkEndpoint>)

  /** What one event says on a topic, if it speaks of it. */
  function Says(event: IngressEvent, topic: Topic): Option<Word> {
    if !event.LinkReported? || event.remoteNodeId != topic.nodeId then None
    else if topic.SubscriptionOf? then
      if event.endpoint == NotifyFanoutEndpoint() then Some(Subscribed(event.state != Faulted)) else None
    else
      if event.endpoint == NotifyFanoutEndpoint() then None
      else Some(Path(if event.state == Active then Some(event.endpoint) else None))
  }

  /** The last word on a topic. */
  function LastWordOn(events: seq<IngressEvent>, topic: Topic): Option<Word>
    decreases |events|
  {
    if |events| == 0 then None
    else if Says(events[|events| - 1], topic).Some? then Says(events[|events| - 1], topic)
    else LastWordOn(events[..|events| - 1], topic)
  }

  predicate KnownSubscriber(events: seq<IngressEvent>, n: NodeId) {
    LastWordOn(events, SubscriptionOf(n)) == Some(Subscribed(true))
  }

  /** The path the events leave to a node. */
  function PathSaid(events: seq<IngressEvent>, n: NodeId): Option<LinkEndpoint> {
    match LastWordOn(events, PathTo(n))
    case Some(Path(endpoint)) => endpoint
    case _ => None
  }

  /** Later events decide about a topic if they speak of it, earlier ones otherwise. */
  lemma {:induction false} LaterEventsDecide(earlier: seq<IngressEvent>, later: seq<IngressEvent>, topic: Topic)
    ensures LastWordOn(earlier + later, topic)
         == if LastWordOn(later, topic).Some? then LastWordOn(later, topic) else LastWordOn(earlier, topic)
    decreases |later|
  {
    if |later| == 0 {
      assert earlier + later == earlier;
    } else {
      var k := |later| - 1;
      assert (earlier + later)[..|earlier + later| - 1] == earlier + later[..k];
      LaterEventsDecide(earlier, later[..k], topic);
    }
  }

  lemma OneMore(events: seq<IngressEvent>, event: IngressEvent, topic: Topic)
    ensures LastWordOn(events + [event], topic)
         == if Says(event, topic).Some? then Says(event, topic) else LastWordOn(events, topic)
  {
    assert (events + [event])[..|events|] == events;
  }

  /** The emitted events say of every node what replaying the log says. */
  lemma {:induction false} EventsSayTheLog(trace: seq<RuntimeSpec.TraceEntry>, n: NodeId)
    ensures KnownSubscriber(ControlEvents(trace), n) <==> n in RuntimeAgreement.Subscribers(trace)
    ensures PathSaid(ControlEvents(trace), n) == RuntimeAgreement.LivePath(trace, n)
    decreases |trace|
  {
    if |trace| > 0 {
      var k := |trace| - 1;
      var earlier := ControlEvents(trace[..k]);
      EventsSayTheLog(trace[..k], n);
      if trace[k].Link? {
        assert ControlEvents(trace) == earlier + [LinkEventOf(trace[k])];
        OneMore(earlier, LinkEventOf(trace[k]), SubscriptionOf(n));
        OneMore(earlier, LinkEventOf(trace[k]), PathTo(n));
      } else {
        assert ControlEvents(trace) == earlier;
      }
    }
  }

  /** Events in order, each stamped by the round that ingested it. */
  ghost predicate StampsOf(events: seq<IngressEvent>, observations: seq<TransportObservation>) {
    |observations| == |events|
    && forall i :: 0 <= i < |events| ==> observations[i] == Observe(events[i], observations[i].Tick())
  }
}

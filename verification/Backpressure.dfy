/**
 * The derived views behind a bounded mailbox. A direct emission may overtake deferred events, so the drained
 * events can end with an older word on a node than the emitted ones; here is exactly when.
 */
module Backpressure {
  import opened Identity
  import opened Gatt
  import opened Observations
  import opened ControlIngress
  import opened Views

  /** Once everything is through, the events will say on the topic what was last emitted on it. */
  ghost predicate ViewRight(q: Queue, topic: Topic) {
    LastWordOn(q.accepted + q.deferred, topic) == LastWordOn(q.emitted, topic)
  }

  /** Read off the queue before an emission: it is deferred too, or no deferred event says otherwise on the topic. */
  predicate SpeaksLast(q: Queue, event: IngressEvent, topic: Topic) {
    || |q.mailbox| >= q.capacity
    || LastWordOn(q.deferred, topic) == None
    || LastWordOn(q.deferred, topic) == Says(event, topic)
  }

  /** An emission on the topic settles its view by the guard alone; any other leaves it as it was. */
  lemma EmissionSettlesView(q: Queue, event: IngressEvent, topic: Topic)
    ensures ViewRight(EmitControl(q, event), topic) <==>
              if Says(event, topic).Some? then SpeaksLast(q, event, topic) else ViewRight(q, topic)
    ensures var r := EmitControl(q, event);
      Says(event, topic).Some? ==>
        LastWordOn(r.accepted + r.deferred, topic).Some? && LastWordOn(r.emitted, topic).Some?
  {
    OneMore(q.emitted, event, topic);
    if |q.mailbox| < q.capacity {
      LaterEventsDecide(q.accepted + [event], q.deferred, topic);
      LaterEventsDecide(q.accepted, q.deferred, topic);
      OneMore(q.accepted, event, topic);
    } else {
      assert q.accepted + (q.deferred + [event]) == q.accepted + q.deferred + [event];
      OneMore(q.accepted + q.deferred, event, topic);
    }
  }

  lemma OthersLeaveView(q: Queue, action: Action)
    requires |q.mailbox| <= q.capacity && !action.Control?
    ensures Step(q, action).accepted + Step(q, action).deferred == q.accepted + q.deferred
    ensures Step(q, action).emitted == q.emitted
  {
    var k := Min(q.Free(), |q.deferred|);
    assert q.deferred == q.deferred[..k] + q.deferred[k..];
    assert (q.accepted + q.deferred[..k]) + q.deferred[k..] == q.accepted + q.deferred;
  }

  predicate EmitsOn(action: Action, topic: Topic) { action.Control? && Says(action.event, topic).Some? }

  /** Action k is the last emission on the topic. */
  ghost predicate LastEmission(actions: seq<Action>, k: nat, topic: Topic) {
    && k < |actions| && EmitsOn(actions[k], topic)
    && forall j :: k < j < |actions| ==> !EmitsOn(actions[j], topic)
  }

  /** If action k is the last emission on the topic, it speaks last. */
  ghost predicate SpeaksLastAt(capacity: nat, actions: seq<Action>, k: nat, topic: Topic) {
    LastEmission(actions, k, topic) ==> SpeaksLast(Run(New(capacity), actions[..k]), actions[k].event, topic)
  }

  ghost predicate LastSpeaksLast(capacity: nat, actions: seq<Action>, topic: Topic) {
    forall k: nat :: SpeaksLastAt(capacity, actions, k, topic)
  }

  /** Over any history the view on a topic is right if and only if the last emission on it spoke last. */
  lemma {:induction false} ViewRightExactly(capacity: nat, actions: seq<Action>, topic: Topic)
    ensures ViewRight(Run(New(capacity), actions), topic) <==> LastSpeaksLast(capacity, actions, topic)
    ensures var q := Run(New(capacity), actions);
      LastWordOn(q.accepted + q.deferred, topic) == None <==> LastWordOn(q.emitted, topic) == None
    decreases |actions|
  {
    if |actions| > 0 {
      var m := |actions| - 1;
      var q := Run(New(capacity), actions[..m]);
      if EmitsOn(actions[m], topic) {
        EmissionSettlesView(q, actions[m].event, topic);
        assert LastEmission(actions, m, topic);
        assert SpeaksLastAt(capacity, actions, m, topic) == SpeaksLast(q, actions[m].event, topic);
        assert forall k: nat :: LastEmission(actions, k, topic) ==> k == m;
      } else {
        ViewRightExactly(capacity, actions[..m], topic);
        QuietStepKeepsView(q, actions[m], topic);
        QuietEndKeepsLast(capacity, actions, topic);
      }
    }
  }

  lemma QuietStepKeepsView(q: Queue, action: Action, topic: Topic)
    requires |q.mailbox| <= q.capacity && !EmitsOn(action, topic)
    ensures var r := Step(q, action);
      && LastWordOn(r.accepted + r.deferred, topic) == LastWordOn(q.accepted + q.deferred, topic)
      && LastWordOn(r.emitted, topic) == LastWordOn(q.emitted, topic)
  {
    if action.Control? {
      var event := action.event;
      OneMore(q.emitted, event, topic);
      OneMore(q.accepted, event, topic);
      OneMore(q.accepted + q.deferred, event, topic);
      LaterEventsDecide(q.accepted + [event], q.deferred, topic);
      LaterEventsDecide(q.accepted, q.deferred, topic);
      assert q.accepted + (q.deferred + [event]) == q.accepted + q.deferred + [event];
    } else {
      OthersLeaveView(q, action);
    }
  }

  lemma QuietEndKeepsLast(capacity: nat, actions: seq<Action>, topic: Topic)
    requires |actions| > 0 && !EmitsOn(actions[|actions| - 1], topic)
    ensures LastSpeaksLast(capacity, actions, topic) <==> LastSpeaksLast(capacity, actions[..|actions| - 1], topic)
  {
    var earlier := actions[..|actions| - 1];
    forall k: nat ensures SpeaksLastAt(capacity, actions, k, topic) <==> SpeaksLastAt(capacity, earlier, k, topic) {
      LastEmissionOfPrefix(actions, k, topic);
      if k < |earlier| { assert earlier[..k] == actions[..k] && earlier[k] == actions[k]; }
    }
  }

  lemma LastEmissionOfPrefix(actions: seq<Action>, k: nat, topic: Topic)
    requires |actions| > 0 && !EmitsOn(actions[|actions| - 1], topic)
    ensures LastEmission(actions, k, topic) <==> LastEmission(actions[..|actions| - 1], k, topic)
  {
    var earlier := actions[..|actions| - 1];
    assert forall j :: 0 <= j < |earlier| ==> earlier[j] == actions[j];
  }

  // ----- What the bridge drains -----

  /** Payloads aside, what has been drained or waits in the mailbox is what was accepted. */
  lemma {:induction false} DrainedSpeakAsAccepted(capacity: nat, actions: seq<Action>, topic: Topic)
    requires WellTyped(actions)
    ensures var q := Run(New(capacity), actions);
      LastWordOn(q.drained + q.mailbox, topic) == LastWordOn(q.accepted, topic)
    decreases |actions|
  {
    if |actions| > 0 {
      var m := |actions| - 1;
      DrainedSpeakAsAccepted(capacity, actions[..m], topic);
      StepSpeaksAsAccepted(Run(New(capacity), actions[..m]), actions[m], topic);
    }
  }

  lemma StepSpeaksAsAccepted(q: Queue, action: Action, topic: Topic)
    requires |q.mailbox| <= q.capacity && (action.Payload? ==> action.event.PayloadReceived?)
    requires LastWordOn(q.drained + q.mailbox, topic) == LastWordOn(q.accepted, topic)
    ensures var r := Step(q, action);
      LastWordOn(r.drained + r.mailbox, topic) == LastWordOn(r.accepted, topic)
  {
    match action
    case Control(event) =>
      assert q.drained + (q.mailbox + [event]) == (q.drained + q.mailbox) + [event];
      OneMore(q.drained + q.mailbox, event, topic);
      OneMore(q.accepted, event, topic);
    case Payload(event) =>
      assert q.drained + (q.mailbox + [event]) == (q.drained + q.mailbox) + [event];
      OneMore(q.drained + q.mailbox, event, topic);
    case FlushDeferred =>
      var moved := q.deferred[..Min(q.Free(), |q.deferred|)];
      assert q.drained + (q.mailbox + moved) == (q.drained + q.mailbox) + moved;
      LaterEventsDecide(q.drained + q.mailbox, moved, topic);
      LaterEventsDecide(q.accepted, moved, topic);
    case DrainMailbox =>
      assert (q.drained + q.mailbox) + [] == q.drained + q.mailbox;
  }

  /** Everything emitted has been drained. */
  predicate AllDrained(q: Queue) { q.mailbox == [] && q.deferred == [] }

  /**
   * When everything emitted has been drained, the drained events have of each node the subscription (the path)
   * of the emitted ones if and only if the last emission on it did not overtake a deferred one saying otherwise.
   */
  lemma {:induction false} DrainedViewExactly(capacity: nat, actions: seq<Action>, n: NodeId)
    requires WellTyped(actions) && AllDrained(Run(New(capacity), actions))
    ensures var q := Run(New(capacity), actions);
      && ((KnownSubscriber(q.drained, n) <==> KnownSubscriber(q.emitted, n))
          <==> LastSpeaksLast(capacity, actions, SubscriptionOf(n)))
      && (PathSaid(q.drained, n) == PathSaid(q.emitted, n) <==> LastSpeaksLast(capacity, actions, PathTo(n)))
  {
    var q := Run(New(capacity), actions);
    assert q.drained + q.mailbox == q.drained && q.accepted + q.deferred == q.accepted;
    forall topic
      ensures LastWordOn(q.drained, topic) == LastWordOn(q.emitted, topic) <==> LastSpeaksLast(capacity, actions, topic)
      ensures LastWordOn(q.drained, topic) == None <==> LastWordOn(q.emitted, topic) == None
    {
      DrainedSpeakAsAccepted(capacity, actions, topic);
      ViewRightExactly(capacity, actions, topic);
    }
    WordsFitTopics(q.drained, n);
    WordsFitTopics(q.emitted, n);
  }

  lemma {:induction false} WordsFitTopics(events: seq<IngressEvent>, n: NodeId)
    ensures LastWordOn(events, SubscriptionOf(n)).Some? ==> LastWordOn(events, SubscriptionOf(n)).value.Subscribed?
    ensures LastWordOn(events, PathTo(n)).Some? ==> LastWordOn(events, PathTo(n)).value.Path?
    decreases |events|
  {
    if |events| > 0 { WordsFitTopics(events[..|events| - 1], n); }
  }

  /** It does go wrong: a subscription is deferred, its end overtakes it, and the drained events keep the subscriber. */
  lemma OvertakenSubscription(filler: IngressEvent, n: NodeId)
    requires filler.PayloadReceived?
    ensures var on := LinkReported(n, NotifyFanoutEndpoint(), Active);
      var off := LinkReported(n, NotifyFanoutEndpoint(), Faulted);
      var q0 := EmitControl(EmitPayload(New(1), filler), on);
      var q := Drain(Flush(Drain(EmitControl(Drain(q0), off))));
      && AllDrained(q) && q.emitted == [on, off] && q.drained == [filler, off, on]
      && !KnownSubscriber(q.emitted, n) && KnownSubscriber(q.drained, n)
  {
  }
}

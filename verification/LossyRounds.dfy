/**
 * The derived views behind bridge rounds that fail or overflow: what such rounds took or left is lost to the
 * views, and here is exactly when a view is wrong for it.
 */
module LossyRounds {
  import opened Identity
  import opened Observations
  import opened Views
  import opened DerivedViews
  import B = Bridge
  import Backpressure

  function DrainedIn(input: B.RoundInput): seq<IngressEvent> {
    if input.drained.Some? then input.drained.value else []
  }

  /** What the round reports of its drained events, and what it does not. */
  function KeptIn(b: B.Bridge, input: B.RoundInput): seq<IngressEvent> {
    if B.RoundFails(b, input) then [] else B.Taken(b, input)
  }

  function LostIn(b: B.Bridge, input: B.RoundInput): seq<IngressEvent> { DrainedIn(input)[|KeptIn(b, input)|..] }

  lemma KeptThenLost(b: B.Bridge, input: B.RoundInput)
    ensures DrainedIn(input) == KeptIn(b, input) + LostIn(b, input)
  {
  }

  function AllDrainedEvents(inputs: seq<B.RoundInput>): seq<IngressEvent>
    decreases |inputs|
  {
    if |inputs| == 0 then [] else DrainedIn(inputs[0]) + AllDrainedEvents(inputs[1..])
  }

  function AllKeptEvents(b: B.Bridge, inputs: seq<B.RoundInput>): seq<IngressEvent>
    decreases |inputs|
  {
    if |inputs| == 0 then [] else KeptIn(b, inputs[0]) + AllKeptEvents(b, inputs[1..])
  }

  lemma Associate(a: seq<IngressEvent>, b: seq<IngressEvent>, c: seq<IngressEvent>)
    ensures a + (b + c) == (a + b) + c
  {
  }

  lemma {:induction false} DrainedOneMore(inputs: seq<B.RoundInput>, input: B.RoundInput)
    ensures AllDrainedEvents(inputs + [input]) == AllDrainedEvents(inputs) + DrainedIn(input)
    decreases |inputs|
  {
    if |inputs| == 0 {
      assert inputs + [input] == [input] && [input][1..] == [];
    } else {
      var head, tail, end := DrainedIn(inputs[0]), AllDrainedEvents(inputs[1..]), DrainedIn(input);
      var longer := inputs + [input];
      assert longer[0] == inputs[0] && longer[1..] == inputs[1..] + [input];
      DrainedOneMore(inputs[1..], input);
      Associate(head, tail, end);
    }
  }

  lemma {:induction false} KeptOneMore(b: B.Bridge, inputs: seq<B.RoundInput>, input: B.RoundInput)
    ensures AllKeptEvents(b, inputs + [input]) == AllKeptEvents(b, inputs) + KeptIn(b, input)
    decreases |inputs|
  {
    if |inputs| == 0 {
      assert inputs + [input] == [input] && [input][1..] == [];
    } else {
      var head, tail, end := KeptIn(b, inputs[0]), AllKeptEvents(b, inputs[1..]), KeptIn(b, input);
      var longer := inputs + [input];
      assert longer[0] == inputs[0] && longer[1..] == inputs[1..] + [input];
      KeptOneMore(b, inputs[1..], input);
      Associate(head, tail, end);
    }
  }

  lemma OneRoundMore(b: B.Bridge, inputs: seq<B.RoundInput>, input: B.RoundInput)
    ensures AllDrainedEvents(inputs + [input]) == AllDrainedEvents(inputs) + DrainedIn(input)
    ensures AllKeptEvents(b, inputs + [input]) == AllKeptEvents(b, inputs) + KeptIn(b, input)
  {
    DrainedOneMore(inputs, input);
    KeptOneMore(b, inputs, input);
  }

  /** The reported observations are the kept events, stamped. */
  lemma {:induction false} IngestedAreKept(b: B.Bridge, inputs: seq<B.RoundInput>)
    requires B.Idle(b)
    ensures StampsOf(AllKeptEvents(b, inputs), B.Ingested(B.Run(b, inputs)))
    decreases |inputs|
  {
    if |inputs| > 0 {
      var r := B.Round(b, inputs[0]);
      B.RoundExact(b, inputs[0]);
      IngestedAreKept(r.bridge, inputs[1..]);
      KeptByCapacity(b, r.bridge, inputs[1..]);
      assert B.Run(b, inputs)[1..] == B.Run(r.bridge, inputs[1..]);
      var head := if r.progress.Advanced? then r.progress.report.ingested else [];
      assert StampsOf(KeptIn(b, inputs[0]), head);
      StampsConcat(KeptIn(b, inputs[0]), head, AllKeptEvents(b, inputs[1..]), B.Ingested(B.Run(r.bridge, inputs[1..])));
    }
  }

  lemma {:induction false} KeptByCapacity(b: B.Bridge, c: B.Bridge, inputs: seq<B.RoundInput>)
    requires b.capacity == c.capacity
    ensures AllKeptEvents(b, inputs) == AllKeptEvents(c, inputs)
    decreases |inputs|
  {
    if |inputs| > 0 { KeptByCapacity(b, c, inputs[1..]); }
  }

  lemma StampsConcat(
    events: seq<IngressEvent>, observations: seq<TransportObservation>,
    moreEvents: seq<IngressEvent>, moreObservations: seq<TransportObservation>)
    requires StampsOf(events, observations) && StampsOf(moreEvents, moreObservations)
    ensures StampsOf(events + moreEvents, observations + moreObservations)
  {
  }

  // ----- When the kept events say enough -----

  /** What a view shows for a last word; a topic nobody spoke of is as if ended. */
  function Effect(topic: Topic, word: Option<Word>): Word {
    match word
    case Some(w) => w
    case None => if topic.SubscriptionOf? then Subscribed(false) else Path(None)
  }

  predicate SameEffect(kept: seq<IngressEvent>, drained: seq<IngressEvent>, topic: Topic) {
    Effect(topic, LastWordOn(kept, topic)) == Effect(topic, LastWordOn(drained, topic))
  }

  /** The round loses no word on the topic, or the last one it loses says what the kept events say by then. */
  predicate LosesNothingNew(keptByThen: seq<IngressEvent>, lost: seq<IngressEvent>, topic: Topic) {
    LastWordOn(lost, topic) == None || SameEffect(keptByThen, lost, topic)
  }

  /** A round that speaks on the topic settles its view by what it loses; a silent one leaves it as it was. */
  lemma RoundSettlesView(
    kept: seq<IngressEvent>, drained: seq<IngressEvent>, more: seq<IngressEvent>, lost: seq<IngressEvent>, topic: Topic)
    ensures SameEffect(kept + more, drained + (more + lost), topic) <==>
              if LastWordOn(more + lost, topic).Some? then LosesNothingNew(kept + more, lost, topic)
              else SameEffect(kept, drained, topic)
  {
    LaterEventsDecide(drained, more + lost, topic);
    LaterEventsDecide(more, lost, topic);
    LaterEventsDecide(kept, more, topic);
  }

  predicate SpeaksIn(input: B.RoundInput, topic: Topic) { LastWordOn(DrainedIn(input), topic).Some? }

  ghost predicate LastSpeaking(inputs: seq<B.RoundInput>, j: nat, topic: Topic) {
    && j < |inputs| && SpeaksIn(inputs[j], topic)
    && forall i :: j < i < |inputs| ==> !SpeaksIn(inputs[i], topic)
  }

  /** If round j is the last to speak on the topic, it loses nothing new. */
  ghost predicate KeepsWordAt(b: B.Bridge, inputs: seq<B.RoundInput>, j: nat, topic: Topic) {
    LastSpeaking(inputs, j, topic) ==>
      LosesNothingNew(AllKeptEvents(b, inputs[..j + 1]), LostIn(b, inputs[j]), topic)
  }

  ghost predicate KeepsLastWord(b: B.Bridge, inputs: seq<B.RoundInput>, topic: Topic) {
    forall j: nat :: KeepsWordAt(b, inputs, j, topic)
  }

  /** Over any rounds the kept events say what the drained ones say iff the last round to speak loses nothing new. */
  lemma {:induction false} KeptEventsSayExactly(b: B.Bridge, inputs: seq<B.RoundInput>, topic: Topic)
    ensures SameEffect(AllKeptEvents(b, inputs), AllDrainedEvents(inputs), topic) <==> KeepsLastWord(b, inputs, topic)
    decreases |inputs|
  {
    if |inputs| > 0 {
      var m := |inputs| - 1;
      var earlier, last := inputs[..m], inputs[m];
      assert inputs == earlier + [last];
      OneRoundMore(b, earlier, last);
      KeptThenLost(b, last);
      RoundSettlesView(AllKeptEvents(b, earlier), AllDrainedEvents(earlier), KeptIn(b, last), LostIn(b, last), topic);
      if SpeaksIn(last, topic) {
        assert LastSpeaking(inputs, m, topic) && inputs[..m + 1] == inputs;
        assert KeepsWordAt(b, inputs, m, topic) == LosesNothingNew(AllKeptEvents(b, inputs), LostIn(b, last), topic);
        assert forall j: nat :: LastSpeaking(inputs, j, topic) ==> j == m;
      } else {
        KeptEventsSayExactly(b, earlier, topic);
        SilentEndKeepsLast(b, inputs, topic);
      }
    }
  }

  lemma SilentEndKeepsLast(b: B.Bridge, inputs: seq<B.RoundInput>, topic: Topic)
    requires |inputs| > 0 && !SpeaksIn(inputs[|inputs| - 1], topic)
    ensures KeepsLastWord(b, inputs, topic) <==> KeepsLastWord(b, inputs[..|inputs| - 1], topic)
  {
    var earlier := inputs[..|inputs| - 1];
    forall j: nat ensures KeepsWordAt(b, inputs, j, topic) <==> KeepsWordAt(b, earlier, j, topic) {
      LastSpeakingOfPrefix(inputs, j, topic);
      if j < |earlier| { assert earlier[..j + 1] == inputs[..j + 1] && earlier[j] == inputs[j]; }
    }
  }

  lemma LastSpeakingOfPrefix(inputs: seq<B.RoundInput>, j: nat, topic: Topic)
    requires |inputs| > 0 && !SpeaksIn(inputs[|inputs| - 1], topic)
    ensures LastSpeaking(inputs, j, topic) <==> LastSpeaking(inputs[..|inputs| - 1], j, topic)
  {
    var earlier := inputs[..|inputs| - 1];
    assert forall i :: 0 <= i < |earlier| ==> earlier[i] == inputs[i];
  }

  /**
   * After any rounds of an idle bridge, successes, failures and overflows, each view of each node is what all the
   * drained events say if and only if the last round that drained a word on it lost none, or lost last a word
   * that says what the kept events already say.
   */
  lemma {:induction false} ViewsAfterRoundsExactly(
    b: B.Bridge, inputs: seq<B.RoundInput>, v: Pair, local: NodeId, fed: seq<Fed>, n: NodeId)
    requires B.Idle(b) && StartsAt(v, local, fed)
    requires ObservationsOf(fed) == B.Ingested(B.Run(b, inputs))
    ensures LinkPath(Feed(v, fed).topology, local, n) == PathSaid(AllDrainedEvents(inputs), n)
            <==> KeepsLastWord(b, inputs, PathTo(n))
    ensures (n in Feed(v, fed).subscribers <==> KnownSubscriber(AllDrainedEvents(inputs), n))
            <==> KeepsLastWord(b, inputs, SubscriptionOf(n))
  {
    var kept, drained := AllKeptEvents(b, inputs), AllDrainedEvents(inputs);
    IngestedAreKept(b, inputs);
    ViewsFollowEvents(v, local, kept, fed, n);
    KeptEventsSayExactly(b, inputs, PathTo(n));
    KeptEventsSayExactly(b, inputs, SubscriptionOf(n));
    Backpressure.WordsFitTopics(kept, n);
    Backpressure.WordsFitTopics(drained, n);
  }

  /** It does go wrong: a failing round takes the end of a path, and nothing speaks of the node again. */
  lemma FailedRoundKeepsADeadPath(b: B.Bridge, n: NodeId, up: IngressEvent, down: IngressEvent, good: B.RoundInput)
    requires b.capacity > 0
    requires up.LinkReported? && Says(up, PathTo(n)) == Some(Path(Some(up.endpoint)))
    requires Says(down, PathTo(n)) == Some(Path(None))
    requires good.drained == Some([up]) && !B.RoundFails(b, good)
    ensures var inputs := [good, good.(drained := Some([down]), outcome := None)];
      && PathSaid(AllKeptEvents(b, inputs), n) == Some(up.endpoint)
      && PathSaid(AllDrainedEvents(inputs), n) == None
      && !KeepsLastWord(b, inputs, PathTo(n))
  {
    var bad := good.(drained := Some([down]), outcome := None);
    var inputs := [good, bad];
    OneRoundMore(b, [], good);
    OneRoundMore(b, [good], bad);
    assert [] + [good] == [good] && [good] + [bad] == inputs;
    assert KeptIn(b, good) == [up] && KeptIn(b, bad) == [];
    assert AllKeptEvents(b, inputs) == [] + [up] + [] == [up];
    assert AllDrainedEvents(inputs) == [] + [up] + [down] == [up, down];
    assert [up, down][..1] == [up] && [up][..0] == [];
    KeptEventsSayExactly(b, inputs, PathTo(n));
  }
}

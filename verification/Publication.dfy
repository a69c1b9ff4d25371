/** The topology the client publishes, against the projector's snapshot: which calls leave it behind. */
module Publication {
  import opened Identity
  import opened Mesh
  import opened Projector
  import opened Multicast
  import opened DerivedViews

  datatype Client = Client(views: Pair, published: MeshTopology)
  {
    function Snapshot(): MeshTopology { views.topology.snapshot }

    predicate Current() { published == Snapshot() }
  }

  /** How a bridge round ends: an error, a wait, or a report whose outcome may ask for a round at once. */
  datatype RoundEnd =
    | RoundErr
    | RoundWaiting
    | RoundAdvanced(observations: seq<Fed>, outcome: HostSnapshot, immediate: bool)

  /** A call that drives the bridge; the slow send first ingests its route and may fail before any round. */
  datatype Call =
    | Drive(first: RoundEnd, followUp: RoundEnd)
    | SlowSend(routed: HostSnapshot, reachesRound: bool, first: RoundEnd, followUp: RoundEnd)

  function ReportOf(r: RoundEnd): seq<Fed> {
    if r.RoundAdvanced? then r.observations + [Outcome(r.outcome)] else []
  }

  predicate FollowsUp(first: RoundEnd) { first.RoundAdvanced? && first.immediate }

  /** Whether the rounds of a call come back without an error. */
  predicate RoundsComplete(first: RoundEnd, followUp: RoundEnd) {
    !first.RoundErr? && (FollowsUp(first) ==> !followUp.RoundErr?)
  }

  predicate Completes(call: Call) {
    (call.SlowSend? ==> call.reachesRound) && RoundsComplete(call.first, call.followUp)
  }

  /** Everything the views are fed by the rounds, up to an error. */
  function RoundsFed(first: RoundEnd, followUp: RoundEnd): seq<Fed> {
    if FollowsUp(first) then ReportOf(first) + ReportOf(followUp) else ReportOf(first)
  }

  function DriveBridge(c: Client, first: RoundEnd, followUp: RoundEnd): Client {
    var fed := RoundsFed(first, followUp);
    var views := Feed(c.views, fed);
    Client(views, if RoundsComplete(first, followUp) && Moved(c.views, fed) then views.topology.snapshot
                  else c.published)
  }

  function OnCall(c: Client, call: Call): Client {
    match call
    case Drive(first, followUp) => DriveBridge(c, first, followUp)
    case SlowSend(routed, reachesRound, first, followUp) =>
      var (topology, routeMoved) := IngestHostUpdate(c.views.topology, routed);
      var c1 := c.(views := c.views.(topology := topology));
      if !reachesRound then c1
      else
        var c2 := DriveBridge(c1, first, followUp);
        if RoundsComplete(first, followUp) && routeMoved then c2.(published := c2.Snapshot()) else c2
  }

  /** Whether the projector reported a change anywhere in the call. */
  predicate CallMoved(c: Client, call: Call) {
    match call
    case Drive(first, followUp) => Moved(c.views, RoundsFed(first, followUp))
    case SlowSend(routed, reachesRound, first, followUp) =>
      var (topology, routeMoved) := IngestHostUpdate(c.views.topology, routed);
      routeMoved || (reachesRound && Moved(c.views.(topology := topology), RoundsFed(first, followUp)))
  }

  /** With a coherent cache, feeding keeps it so, and what reports no change leaves the snapshot as it was. */
  lemma {:induction false} QuietFeedKeepsSnapshot(v: Pair, fed: seq<Fed>)
    requires CacheCoherent(v.topology)
    ensures CacheCoherent(Feed(v, fed).topology)
    ensures !Moved(v, fed) ==> Feed(v, fed).topology.snapshot == v.topology.snapshot
    decreases |fed|
  {
    if |fed| > 0 {
      var k := |fed| - 1;
      QuietFeedKeepsSnapshot(v, fed[..k]);
      FeedOneKeepsCache(Feed(v, fed[..k]).topology, fed[k]);
    }
  }

  lemma FeedOneKeepsCache(s: State, f: Fed)
    requires CacheCoherent(s)
    ensures CacheCoherent(FeedTopology(s, f).0)
    ensures FeedTopology(s, f).1 <==> FeedTopology(s, f).0.snapshot != s.snapshot
  {
    match f
    case Observed(o, profile, host) =>
      if !IsMulticastFanoutObservation(o) { IngestKeepsCache(s, o, profile, host); }
    case Outcome(host) => HostUpdateKeepsCache(s, host);
  }

  /** Every report a call receives before an error is fed in whole and in order: the first, then the follow-up's. */
  lemma CallFeedsItsReports(c: Client, first: RoundEnd, followUp: RoundEnd)
    ensures var views := OnCall(c, Drive(first, followUp)).views;
      match first
      case RoundErr => views == c.views
      case RoundWaiting => views == c.views
      case RoundAdvanced(observations, outcome, immediate) =>
        var after := Feed(c.views, observations + [Outcome(outcome)]);
        match followUp
        case RoundAdvanced(more, next, _) =>
          views == if immediate then Feed(after, more + [Outcome(next)]) else after
        case _ => views == after
  {
    if first.RoundAdvanced? {
      FeedConcat(c.views, ReportOf(first), ReportOf(followUp));
      assert ReportOf(first) + [] == ReportOf(first);
    }
  }

  /** The slow send feeds its route first, and the rounds only if they are reached. */
  lemma SlowSendFeedsItsRoute(c: Client, routed: HostSnapshot, reachesRound: bool, first: RoundEnd, followUp: RoundEnd)
    ensures var routedClient := c.(views := Feed(c.views, [Outcome(routed)]));
      OnCall(c, SlowSend(routed, reachesRound, first, followUp)).views ==
        if reachesRound then OnCall(routedClient, Drive(first, followUp)).views else routedClient.views
  {
    assert [Outcome(routed)][..0] == [];
  }

  /**
   * After any call from any client: a call that completes leaves the published topology current if and only if it
   * was, or the call moved the snapshot; a call cut short publishes nothing, so it is current if and only if what
   * was published before is the snapshot now.
   */
  lemma CallCurrentExactly(c: Client, call: Call)
    requires CacheCoherent(c.views.topology)
    ensures var c' := OnCall(c, call);
      && CacheCoherent(c'.views.topology)
      && (Completes(call) ==> (c'.Current() <==> c.Current() || CallMoved(c, call)))
      && (!Completes(call) ==> c'.published == c.published)
      && (Completes(call) && !CallMoved(c, call) ==> c'.Snapshot() == c.Snapshot())
  {
    match call
    case Drive(first, followUp) => QuietFeedKeepsSnapshot(c.views, RoundsFed(first, followUp));
    case SlowSend(routed, _, first, followUp) =>
      HostUpdateKeepsCache(c.views.topology, routed);
      var topology := IngestHostUpdate(c.views.topology, routed).0;
      QuietFeedKeepsSnapshot(c.views.(topology := topology), RoundsFed(first, followUp));
  }

  function Run(c: Client, calls: seq<Call>): Client
    decreases |calls|
  {
    if |calls| == 0 then c else OnCall(Run(c, calls[..|calls| - 1]), calls[|calls| - 1])
  }

  lemma {:induction false} RunKeepsCache(c: Client, calls: seq<Call>)
    requires CacheCoherent(c.views.topology)
    ensures CacheCoherent(Run(c, calls).views.topology)
    decreases |calls|
  {
    if |calls| > 0 {
      RunKeepsCache(c, calls[..|calls| - 1]);
      CallCurrentExactly(Run(c, calls[..|calls| - 1]), calls[|calls| - 1]);
    }
  }

  /** The call is cut short after it changed the snapshot. */
  predicate LosesAChange(c: Client, call: Call) {
    !Completes(call) && OnCall(c, call).Snapshot() != c.Snapshot()
  }

  ghost predicate AlwaysCurrent(c: Client, calls: seq<Call>) {
    forall i :: 0 <= i <= |calls| ==> Run(c, calls[..i]).Current()
  }

  ghost predicate NoneLosesAChange(c: Client, calls: seq<Call>) {
    forall i :: 0 <= i < |calls| ==> !LosesAChange(Run(c, calls[..i]), calls[i])
  }

  lemma CurrentAfterOneMore(c: Client, calls: seq<Call>, i: nat)
    requires CacheCoherent(c.views.topology) && i < |calls| && Run(c, calls[..i]).Current()
    ensures Run(c, calls[..i + 1]).Current() <==> !LosesAChange(Run(c, calls[..i]), calls[i])
  {
    assert calls[..i + 1][..i] == calls[..i];
    RunKeepsCache(c, calls[..i]);
    CallCurrentExactly(Run(c, calls[..i]), calls[i]);
  }

  /** Over any run from a current client, the topology is current after every call iff no call loses a change. */
  lemma {:induction false} AlwaysCurrentExactly(c: Client, calls: seq<Call>)
    requires CacheCoherent(c.views.topology) && c.Current()
    ensures AlwaysCurrent(c, calls) <==> NoneLosesAChange(c, calls)
  {
    if NoneLosesAChange(c, calls) {
      forall i: nat | i <= |calls| ensures Run(c, calls[..i]).Current() { CurrentUpTo(c, calls, i); }
    }
    if AlwaysCurrent(c, calls) {
      forall i: nat | i < |calls| ensures !LosesAChange(Run(c, calls[..i]), calls[i]) {
        assert Run(c, calls[..i + 1]).Current() && Run(c, calls[..i]).Current();
        CurrentAfterOneMore(c, calls, i);
      }
    }
  }

  lemma {:induction false} CurrentUpTo(c: Client, calls: seq<Call>, i: nat)
    requires CacheCoherent(c.views.topology) && c.Current() && NoneLosesAChange(c, calls) && i <= |calls|
    ensures Run(c, calls[..i]).Current()
  {
    if i > 0 {
      CurrentUpTo(c, calls, i - 1);
      CurrentAfterOneMore(c, calls, i - 1);
    }
  }

  /** It happens: a report brings a second node and asks for a round at once, and that round fails. */
  lemma CutShortGoesStale(local: NodeId, other: NodeId)
    requires local != other
    ensures var host := HostSnapshot(local, 0, map[local := 0], map[], map[]);
      var next := HostSnapshot(local, 1, map[local := 0, other := 0], map[], map[]);
      var topology := Seed(0, map[local := 0], map[], host);
      var c := Client(Pair(map[], topology), topology.snapshot);
      var call := Drive(RoundAdvanced([], next, true), RoundErr);
      && CacheCoherent(topology) && c.Current()
      && LosesAChange(c, call) && !OnCall(c, call).Current()
  {
    var host := HostSnapshot(local, 0, map[local := 0], map[], map[]);
    var next := HostSnapshot(local, 1, map[local := 0, other := 0], map[], map[]);
    var topology := Seed(0, map[local := 0], map[], host);
    var c := Client(Pair(map[], topology), topology.snapshot);
    var call := Drive(RoundAdvanced([], next, true), RoundErr);
    var fed := RoundsFed(call.first, call.followUp);
    assert fed == [Outcome(next)] && fed[..0] == [];
    assert Feed(c.views, fed) == FeedOne(c.views, Outcome(next));
    assert MeshSnapshotFrom(topology.edgeObservations, next).observedAtTick == 1;
  }

  // ----- The client task -----

  class ClientTopology {
    const admission: MulticastAdmission
    const projector: TopologyProjector
    var published: MeshTopology

    ghost function Value(): Client
      reads this, admission, projector
    {
      Client(Pair(admission.subscribers, projector.Value()), published)
    }

    /** `initial` is the snapshot taken before the engines' capabilities were ingested. */
    constructor (admission: MulticastAdmission, projector: TopologyProjector, initial: MeshTopology)
      ensures this.admission == admission && this.projector == projector && published == initial
    {
      this.admission, this.projector, published := admission, projector, initial;
    }

    /** Applies a round that has ended; a wait brings nothing. */
    method ApplyBridgeProgress(r: RoundEnd) returns (changed: bool)
      requires !r.RoundErr?
      requires r.RoundAdvanced? ==> forall i :: 0 <= i < |r.observations| ==> r.observations[i].Observed?
      modifies admission, projector
      ensures Value().views == Feed(old(Value()).views, ReportOf(r)) && published == old(published)
      ensures changed == Moved(old(Value()).views, ReportOf(r))
    {
      match r {
        case RoundAdvanced(observations, outcome, _) =>
          changed := ApplyBridgeReport(admission, projector, observations, outcome);
        case RoundWaiting =>
          changed := false;
      }
    }

    /** `ok` is false when a round fails; what an earlier round changed is then applied but not published. */
    method DriveBridgeRound(first: RoundEnd, followUp: RoundEnd) returns (ok: bool)
      requires first.RoundAdvanced? ==> forall i :: 0 <= i < |first.observations| ==> first.observations[i].Observed?
      requires followUp.RoundAdvanced? ==>
                 forall i :: 0 <= i < |followUp.observations| ==> followUp.observations[i].Observed?
      modifies this, admission, projector
      ensures Value() == DriveBridge(old(Value()), first, followUp) && ok == RoundsComplete(first, followUp)
    {
      if first.RoundErr? {
        return false;
      }
      var changed := ApplyBridgeProgress(first);
      if first.RoundAdvanced? && first.immediate {
        FeedConcat(old(Value()).views, ReportOf(first), ReportOf(followUp));
        if followUp.RoundErr? {
          assert ReportOf(first) + [] == ReportOf(first);
          return false;
        }
        var more := ApplyBridgeProgress(followUp);
        changed := changed || more;
      }
      if changed { published := projector.snapshot; }
      return true;
    }

    /** The slow send: `reachesRound` is false when the router or the sender refuses before any round. */
    method ActivateAndForward(routed: HostSnapshot, reachesRound: bool, first: RoundEnd, followUp: RoundEnd)
      returns (ok: bool)
      requires first.RoundAdvanced? ==> forall i :: 0 <= i < |first.observations| ==> first.observations[i].Observed?
      requires followUp.RoundAdvanced? ==>
                 forall i :: 0 <= i < |followUp.observations| ==> followUp.observations[i].Observed?
      modifies this, admission, projector
      ensures Value() == OnCall(old(Value()), SlowSend(routed, reachesRound, first, followUp))
      ensures ok == Completes(SlowSend(routed, reachesRound, first, followUp))
    {
      var topologyChanged := projector.IngestHost(routed);
      if !reachesRound {
        return false;
      }
      ok := DriveBridgeRound(first, followUp);
      if ok && topologyChanged { published := projector.snapshot; }
    }
  }

  lemma {:induction false} FeedConcat(v: Pair, fed: seq<Fed>, more: seq<Fed>)
    ensures Feed(v, fed + more) == Feed(Feed(v, fed), more)
    ensures Moved(v, fed + more) == (Moved(v, fed) || Moved(Feed(v, fed), more))
    decreases |more|
  {
    if |more| == 0 {
      assert fed + more == fed;
    } else {
      var init, last := more[..|more| - 1], more[|more| - 1];
      assert more == init + [last];
      FeedConcat(v, fed, init);
      FeedConcatOne(v, fed, init, last);
      assert fed + more == fed + (init + [last]);
    }
  }

  lemma FeedConcatOne(v: Pair, fed: seq<Fed>, more: seq<Fed>, f: Fed)
    requires Feed(v, fed + more) == Feed(Feed(v, fed), more)
    requires Moved(v, fed + more) == (Moved(v, fed) || Moved(Feed(v, fed), more))
    ensures Feed(v, fed + (more + [f])) == Feed(Feed(v, fed), more + [f])
    ensures Moved(v, fed + (more + [f])) == (Moved(v, fed) || Moved(Feed(v, fed), more + [f]))
  {
    assert fed + (more + [f]) == (fed + more) + [f];
    FeedSnoc(v, fed + more, f);
    FeedSnoc(Feed(v, fed), more, f);
  }
}

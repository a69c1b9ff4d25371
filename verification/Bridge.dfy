/** The host bridge: synchronous rounds over the asynchronous mailbox, with stamping and drop accounting. */
module Bridge {
  import opened Identity
  import opened Observations

  const U64_MAX: nat := 0xFFFF_FFFF_FFFF_FFFF
  const U32_MAX: nat := 0xFFFF_FFFF

  function SaturatingAdd(a: nat, b: nat): (sum: nat)
    ensures sum <= U64_MAX && (sum == a + b || (sum == U64_MAX && a + b > U64_MAX))
  {
    if a + b > U64_MAX then U64_MAX else a + b
  }

  function NarrowCount(value: nat): (count: nat)
    ensures count <= U32_MAX && (count == value || (count == U32_MAX && value > U32_MAX))
  {
    if value > U32_MAX then U32_MAX else value
  }

  function Min(a: nat, b: nat): nat { if a < b then a else b }

  datatype TickHint = Immediate | WithinTicks(ticks: nat) | HostDefault

  datatype RouterOutcome = RouterOutcome(changed: bool, nextRoundHint: TickHint)

  datatype Clock = Clock(nowTick: nat, nextTick: nat, nextOrder: nat)

  datatype Bridge = Bridge(capacity: nat, pending: seq<TransportObservation>, dropped: nat, clock: Clock)

  /**
   * What the surroundings answer in one round: the drained events (or a driver failure), how many
   * observations the router takes before it fails, its outcome, the flush, and the stamps it draws itself.
   */
  datatype RoundInput = RoundInput(
    drained: Option<seq<IngressEvent>>, routerAccepts: nat, outcome: Option<RouterOutcome>, flushed: Option<nat>,
    pendingOutbound: nat, notifierSnapshot: nat, routerStamps: nat)

  datatype RoundReport = RoundReport(
    outcome: RouterOutcome, ingested: seq<TransportObservation>, flushedCommands: nat, droppedObservations: nat)

  datatype WaitState = WaitState(
    nextRoundHint: TickHint, pendingObservations: nat, pendingCommands: nat,
    droppedObservations: nat, notifierSnapshot: nat)

  datatype BridgeError = RouteError | TransportError

  datatype Progress = Advanced(report: RoundReport) | Waiting(state: WaitState) | Failed(error: BridgeError)

  // ----- Clock -----

  function AdvanceTick(c: Clock): Clock {
    c.(nowTick := c.nextTick, nextTick := SaturatingAdd(c.nextTick, 1))
  }

  function NextOrderStamp(c: Clock): Clock {
    c.(nextOrder := SaturatingAdd(c.nextOrder, 1))
  }

  // ----- Staging -----

  /** Staging state: the bridge and the order stamps drawn for link events so far. */
  datatype Staging = Staging(bridge: Bridge, stamps: seq<nat>)

  function StageOne(st: Staging, event: IngressEvent, tick: nat): Staging {
    var b := st.bridge;
    if |b.pending| >= b.capacity
    then st.(bridge := b.(dropped := SaturatingAdd(b.dropped, 1)))
    else
      var clock := if event.LinkReported? then NextOrderStamp(b.clock) else b.clock;
      Staging(b.(pending := b.pending + [Observe(event, tick)], clock := clock),
              if event.LinkReported? then st.stamps + [clock.nextOrder] else st.stamps)
  }

  function Stage(st: Staging, events: seq<IngressEvent>, tick: nat): Staging
    decreases |events|
  {
    if |events| == 0 then st else Stage(StageOne(st, events[0], tick), events[1..], tick)
  }

  // ----- One round -----

  datatype RoundResult = RoundResult(bridge: Bridge, tick: nat, stamps: seq<nat>, progress: Progress)

  function Round(b: Bridge, input: RoundInput): RoundResult {
    var b0 := b.(clock := AdvanceTick(b.clock));
    var tick := b0.clock.nowTick;
    match input.drained
    case None => RoundResult(b0, tick, [], Failed(TransportError))
    case Some(events) =>
      var staged := Stage(Staging(b0, []), events, tick);
      var ingested := staged.bridge.pending;
      var clock := staged.bridge.clock;
      var b1 := staged.bridge.(pending := [],
                                  clock := clock.(nextOrder := SaturatingAdd(clock.nextOrder, input.routerStamps)));
      if input.routerAccepts < |ingested| || input.outcome == None
      then RoundResult(b1, tick, staged.stamps, Failed(RouteError))
      else if input.flushed == None then RoundResult(b1, tick, staged.stamps, Failed(TransportError))
      else
        var b2 := b1.(dropped := 0);
        var outcome := input.outcome.value;
        if ingested == [] && input.flushed.value == 0 && b1.dropped == 0 && !outcome.changed
        then RoundResult(b2, tick, staged.stamps, Waiting(WaitState(
               outcome.nextRoundHint, NarrowCount(|b2.pending|), NarrowCount(input.pendingOutbound),
               NarrowCount(b1.dropped),
               input.notifierSnapshot)))
        else RoundResult(b2, tick, staged.stamps, Advanced(RoundReport(
               outcome, ingested, NarrowCount(input.flushed.value), NarrowCount(b1.dropped))))
  }

  datatype WaitDecision = AdvanceImmediately | WaitUntilTick(ticks: nat) | BlockOnNotifier(snapshot: nat)

  function Decide(state: WaitState): WaitDecision {
    if state.pendingObservations > 0 || state.pendingCommands > 0 then AdvanceImmediately
    else match state.nextRoundHint
         case Immediate => AdvanceImmediately
         case WithinTicks(ticks) => WaitUntilTick(ticks)
         case HostDefault => BlockOnNotifier(state.notifierSnapshot)
  }

  // ----- What one round does -----

  function ObserveAll(events: seq<IngressEvent>, tick: nat): seq<TransportObservation> {
    seq(|events|, i requires 0 <= i < |events| => Observe(events[i], tick))
  }

  function LinkCount(events: seq<IngressEvent>): nat {
    if |events| == 0 then 0 else (if events[0].LinkReported? then 1 else 0) + LinkCount(events[1..])
  }

  /** Stamps drawn one after the other from a counter. */
  function Drawn(nextOrder: nat, count: nat): seq<nat> {
    seq(count, i requires 0 <= i < count => SaturatingAdd(nextOrder, i + 1))
  }

  ghost predicate Bounded(b: Bridge) {
    |b.pending| <= b.capacity && b.dropped <= U64_MAX && b.clock.nextOrder <= U64_MAX
  }

  lemma {:induction false} StageSplits(st: Staging, first: seq<IngressEvent>, second: seq<IngressEvent>, tick: nat)
    ensures Stage(st, first + second, tick) == Stage(Stage(st, first, tick), second, tick)
    decreases |first|
  {
    if |first| == 0 {
      assert first + second == second;
    } else {
      StageSplits(StageOne(st, first[0], tick), first[1..], second, tick);
      assert (first + second)[1..] == first[1..] + second;
    }
  }

  /** While there is room every event is staged in order, and link events draw consecutive stamps. */
  lemma {:induction false} StageWithRoom(st: Staging, events: seq<IngressEvent>, tick: nat)
    requires Bounded(st.bridge) && |events| <= st.bridge.capacity - |st.bridge.pending|
    ensures var b := st.bridge;
      Stage(st, events, tick) == Staging(
        b.(pending := b.pending + ObserveAll(events, tick),
           clock := b.clock.(nextOrder := SaturatingAdd(b.clock.nextOrder, LinkCount(events)))),
        st.stamps + Drawn(b.clock.nextOrder, LinkCount(events)))
    decreases |events|
  {
    var b := st.bridge;
    if |events| == 0 {
      assert b.pending + ObserveAll(events, tick) == b.pending;
      assert st.stamps + Drawn(b.clock.nextOrder, 0) == st.stamps;
    } else {
      var next := StageOne(st, events[0], tick);
      StageWithRoom(next, events[1..], tick);
      assert b.pending + ObserveAll(events, tick) == next.bridge.pending + ObserveAll(events[1..], tick);
      if events[0].LinkReported? {
        assert st.stamps + Drawn(b.clock.nextOrder, LinkCount(events))
            == next.stamps + Drawn(next.bridge.clock.nextOrder, LinkCount(events[1..]));
      }
    }
  }

  /** A full queue only counts. */
  lemma {:induction false} StageWhenFull(st: Staging, events: seq<IngressEvent>, tick: nat)
    requires Bounded(st.bridge) && |st.bridge.pending| == st.bridge.capacity
    ensures Stage(st, events, tick) == st.(bridge := st.bridge.(dropped := SaturatingAdd(st.bridge.dropped, |events|)))
    decreases |events|
  {
    if |events| > 0 { StageWhenFull(StageOne(st, events[0], tick), events[1..], tick); }
  }

  lemma StageClosedForm(st: Staging, events: seq<IngressEvent>, tick: nat)
    requires Bounded(st.bridge)
    ensures var b := st.bridge;
      var taken := events[..Min(b.capacity - |b.pending|, |events|)];
      Stage(st, events, tick) == Staging(
        b.(pending := b.pending + ObserveAll(taken, tick),
           dropped := SaturatingAdd(b.dropped, |events| - |taken|),
           clock := b.clock.(nextOrder := SaturatingAdd(b.clock.nextOrder, LinkCount(taken)))),
        st.stamps + Drawn(b.clock.nextOrder, LinkCount(taken)))
  {
    var b := st.bridge;
    var k := Min(b.capacity - |b.pending|, |events|);
    StageSplits(st, events[..k], events[k..], tick);
    assert events == events[..k] + events[k..];
    StageWithRoom(st, events[..k], tick);
    if k < |events| { StageWhenFull(Stage(st, events[..k], tick), events[k..], tick); }
  }

  ghost predicate Idle(b: Bridge) {
    b.pending == [] && b.dropped <= U64_MAX && b.clock.nextOrder <= U64_MAX && b.clock.nextTick <= U64_MAX
  }

  function Taken(b: Bridge, input: RoundInput): seq<IngressEvent> {
    match input.drained
    case None => []
    case Some(events) => events[..Min(b.capacity, |events|)]
  }

  function Excess(b: Bridge, input: RoundInput): nat {
    match input.drained
    case None => 0
    case Some(events) => |events| - Min(b.capacity, |events|)
  }

  /**
   * One round from an idle bridge: it ends idle; a success ingests exactly the first capacity-many drained
   * events, in order, under this round's tick; drops are reported on success and carried on failure.
   */
  lemma RoundExact(b: Bridge, input: RoundInput)
    requires Idle(b)
    ensures var r := Round(b, input);
      && Idle(r.bridge) && r.bridge.capacity == b.capacity
      && r.tick == b.clock.nextTick && r.bridge.clock.nextTick == SaturatingAdd(b.clock.nextTick, 1)
      && r.stamps == Drawn(b.clock.nextOrder, LinkCount(Taken(b, input)))
      && r.bridge.clock.nextOrder ==
           (if input.drained == None then b.clock.nextOrder
            else SaturatingAdd(SaturatingAdd(b.clock.nextOrder, LinkCount(Taken(b, input))), input.routerStamps))
      && (r.progress.Advanced? ==>
            r.progress.report.ingested == ObserveAll(Taken(b, input), r.tick)
            && r.progress.report.droppedObservations == NarrowCount(SaturatingAdd(b.dropped, Excess(b, input))))
      && (r.progress.Failed? <==> RoundFails(b, input))
      && (r.progress.Waiting? <==> input.drained == Some([]) && b.dropped == 0 && input.flushed == Some(0)
                                   && input.outcome.Some? && !input.outcome.value.changed)
      && (r.progress.Failed? ==>
            (r.progress.error == TransportError <==>
               input.drained == None || (input.routerAccepts >= |Taken(b, input)| && input.outcome.Some?)))
      && (r.progress.Advanced? ==>
            r.progress.report.outcome == input.outcome.value
            && r.progress.report.flushedCommands == NarrowCount(input.flushed.value))
      && (r.progress.Waiting? ==>
            r.progress.state == WaitState(input.outcome.value.nextRoundHint, 0, NarrowCount(input.pendingOutbound), 0,
                                          input.notifierSnapshot))
      && r.bridge.dropped == if r.progress.Failed? then SaturatingAdd(b.dropped, Excess(b, input)) else 0
  {
    match input.drained
    case None =>
    case Some(events) => StageFromIdle(b, input);
  }

  /** The observation is the event's own, under the tick: same parties, endpoint and bytes or state. */
  predicate ObservedUnder(event: IngressEvent, o: TransportObservation, tick: nat) {
    match event
    case PayloadReceived(from, endpoint, payload) => o == PayloadObserved(from, endpoint, payload, tick)
    case LinkReported(remote, endpoint, state) =>
      && o.LinkObserved? && o.remoteNodeId == remote && o.observation.observedAtTick == tick
      && o.observation.value.endpoint == endpoint && o.observation.value.state == state
      && o.observation.value.profile == (if state == Active then Shaped(tick) else Carrier)
  }

  /** Every observation of a round's report is a drained event, in its place, under that round's own tick. */
  lemma ReportedUnderOwnTick(b: Bridge, input: RoundInput)
    requires Idle(b) && Round(b, input).progress.Advanced?
    ensures var ingested := Round(b, input).progress.report.ingested;
      && input.drained.Some? && |ingested| == Min(b.capacity, |input.drained.value|)
      && forall i :: 0 <= i < |ingested| ==>
           ObservedUnder(input.drained.value[i], ingested[i], b.clock.nextTick)
           && ingested[i].Tick() == b.clock.nextTick
  {
    RoundExact(b, input);
    var taken := Taken(b, input);
    forall i | 0 <= i < |taken|
      ensures ObservedUnder(taken[i], Observe(taken[i], b.clock.nextTick), b.clock.nextTick)
    {
    }
  }

  lemma StageFromIdle(b: Bridge, input: RoundInput)
    requires Idle(b) && input.drained.Some?
    ensures var b0 := b.(clock := AdvanceTick(b.clock));
      var taken := Taken(b, input);
      Stage(Staging(b0, []), input.drained.value, b0.clock.nowTick) == Staging(
        b0.(pending := ObserveAll(taken, b0.clock.nowTick),
            dropped := SaturatingAdd(b.dropped, Excess(b, input)),
            clock := b0.clock.(nextOrder := SaturatingAdd(b.clock.nextOrder, LinkCount(taken)))),
        Drawn(b.clock.nextOrder, LinkCount(taken)))
  {
    var b0 := b.(clock := AdvanceTick(b.clock));
    StageClosedForm(Staging(b0, []), input.drained.value, b0.clock.nowTick);
    assert b0.pending + ObserveAll(Taken(b, input), b0.clock.nowTick) == ObserveAll(Taken(b, input), b0.clock.nowTick);
    var drawn := Drawn(b.clock.nextOrder, LinkCount(Taken(b, input)));
    assert [] + drawn == drawn;
  }

  // ----- Runs -----

  function Run(b: Bridge, inputs: seq<RoundInput>): seq<RoundResult>
    decreases |inputs|
  {
    if |inputs| == 0 then []
    else var r := Round(b, inputs[0]); [r] + Run(r.bridge, inputs[1..])
  }

  function Final(b: Bridge, inputs: seq<RoundInput>): Bridge {
    var rounds := Run(b, inputs);
    if |rounds| == 0 then b else rounds[|rounds| - 1].bridge
  }

  function ReportedDrops(rounds: seq<RoundResult>): nat {
    if |rounds| == 0 then 0
    else (if rounds[0].progress.Advanced? then rounds[0].progress.report.droppedObservations else 0)
         + ReportedDrops(rounds[1..])
  }

  function TotalExcess(b: Bridge, inputs: seq<RoundInput>): nat {
    if |inputs| == 0 then 0 else Excess(b, inputs[0]) + TotalExcess(b, inputs[1..])
  }

  lemma {:induction false} ExcessDependsOnCapacity(b: Bridge, c: Bridge, inputs: seq<RoundInput>)
    requires b.capacity == c.capacity
    ensures TotalExcess(b, inputs) == TotalExcess(c, inputs)
  {
    if |inputs| > 0 { ExcessDependsOnCapacity(b, c, inputs[1..]); }
  }

  /** Reported drops plus the carried counter are the whole excess, over any mix of successes and failures. */
  lemma {:induction false} DropsAreAccounted(b: Bridge, inputs: seq<RoundInput>)
    requires Idle(b) && b.dropped + TotalExcess(b, inputs) <= U32_MAX
    ensures ReportedDrops(Run(b, inputs)) + Final(b, inputs).dropped == b.dropped + TotalExcess(b, inputs)
    ensures Idle(Final(b, inputs))
    decreases |inputs|
  {
    if |inputs| > 0 {
      var r := Round(b, inputs[0]);
      RoundExact(b, inputs[0]);
      ExcessDependsOnCapacity(b, r.bridge, inputs[1..]);
      DropsAreAccounted(r.bridge, inputs[1..]);
      var rest := Run(r.bridge, inputs[1..]);
      assert Run(b, inputs)[1..] == rest;
    }
  }

  /** The surroundings fail the round: the drain, the router on some observation or its outcome, or the flush. */
  predicate RoundFails(b: Bridge, input: RoundInput) {
    || input.drained == None || input.routerAccepts < |Taken(b, input)|
    || input.outcome == None || input.flushed == None
  }

  /** Everything that rounds reported as ingested, in order. */
  function Ingested(rounds: seq<RoundResult>): seq<TransportObservation> {
    if |rounds| == 0 then []
    else (if rounds[0].progress.Advanced? then rounds[0].progress.report.ingested else []) + Ingested(rounds[1..])
  }

  /** What the rounds that do not fail took from the mailbox, read off the inputs and the first tick. */
  function Kept(b: Bridge, nextTick: nat, inputs: seq<RoundInput>): seq<TransportObservation>
    decreases |inputs|
  {
    if |inputs| == 0 then []
    else (if RoundFails(b, inputs[0]) then [] else ObserveAll(Taken(b, inputs[0]), nextTick))
         + Kept(b, SaturatingAdd(nextTick, 1), inputs[1..])
  }

  lemma {:induction false} KeptDependsOnCapacity(b: Bridge, c: Bridge, nextTick: nat, inputs: seq<RoundInput>)
    requires b.capacity == c.capacity
    ensures Kept(b, nextTick, inputs) == Kept(c, nextTick, inputs)
    decreases |inputs|
  {
    if |inputs| > 0 { KeptDependsOnCapacity(b, c, SaturatingAdd(nextTick, 1), inputs[1..]); }
  }

  /** Over any run exactly the rounds that fail lose what they took; all other events taken are reported, in order. */
  lemma {:induction false} FailedRoundsLoseTheirEvents(b: Bridge, inputs: seq<RoundInput>)
    requires Idle(b)
    ensures Ingested(Run(b, inputs)) == Kept(b, b.clock.nextTick, inputs)
    decreases |inputs|
  {
    if |inputs| > 0 {
      var r := Round(b, inputs[0]);
      RoundExact(b, inputs[0]);
      KeptDependsOnCapacity(b, r.bridge, SaturatingAdd(b.clock.nextTick, 1), inputs[1..]);
      FailedRoundsLoseTheirEvents(r.bridge, inputs[1..]);
      assert Run(b, inputs)[1..] == Run(r.bridge, inputs[1..]);
    }
  }

  function AllStamps(rounds: seq<RoundResult>): seq<nat> {
    if |rounds| == 0 then [] else rounds[0].stamps + AllStamps(rounds[1..])
  }

  /** Ticks never fall, and rise each round short of the ceiling; every round of a run is one Round. */
  lemma {:induction false} TicksNeverDecrease(b: Bridge, inputs: seq<RoundInput>, i: nat, j: nat)
    requires Idle(b) && i < j < |inputs|
    ensures |Run(b, inputs)| == |inputs|
    ensures b.clock.nextTick <= Run(b, inputs)[i].tick <= Run(b, inputs)[j].tick
    ensures Run(b, inputs)[i].tick < U64_MAX ==> Run(b, inputs)[i].tick < Run(b, inputs)[j].tick
    decreases |inputs|
  {
    var r := Round(b, inputs[0]);
    RoundExact(b, inputs[0]);
    RunLength(r.bridge, inputs[1..]);
    if i > 0 {
      TicksNeverDecrease(r.bridge, inputs[1..], i - 1, j - 1);
    } else {
      FirstTick(r.bridge, inputs[1..], j - 1);
    }
  }

  lemma {:induction false} RunLength(b: Bridge, inputs: seq<RoundInput>)
    ensures |Run(b, inputs)| == |inputs|
    decreases |inputs|
  {
    if |inputs| > 0 { RunLength(Round(b, inputs[0]).bridge, inputs[1..]); }
  }

  lemma {:induction false} FirstTick(b: Bridge, inputs: seq<RoundInput>, j: nat)
    requires Idle(b) && j < |inputs|
    ensures |Run(b, inputs)| == |inputs| && b.clock.nextTick <= Run(b, inputs)[j].tick
    decreases |inputs|
  {
    var r := Round(b, inputs[0]);
    RoundExact(b, inputs[0]);
    RunLength(r.bridge, inputs[1..]);
    if j > 0 { FirstTick(r.bridge, inputs[1..], j - 1); }
  }

  /** Above the floor and strictly rising, up to the ceiling. */
  ghost predicate Rising(floor: nat, stamps: seq<nat>) {
    && (forall i :: 0 <= i < |stamps| ==> floor < stamps[i] || stamps[i] == U64_MAX)
    && (forall i, j :: 0 <= i < j < |stamps| ==> stamps[i] < stamps[j] || stamps[j] == U64_MAX)
  }

  lemma RisingConcat(floor: nat, count: nat, middle: nat, rest: seq<nat>)
    requires floor <= U64_MAX && middle >= SaturatingAdd(floor, count) && Rising(middle, rest)
    ensures Rising(floor, Drawn(floor, count) + rest)
  {
    var drawn := Drawn(floor, count);
    var all := drawn + rest;
    forall i | 0 <= i < |drawn| ensures drawn[i] == SaturatingAdd(floor, i + 1) && drawn[i] <= middle {}
    forall i, j | 0 <= i < j < |all| ensures all[i] < all[j] || all[j] == U64_MAX {
      if j >= |drawn| { assert all[j] == rest[j - |drawn|]; }
    }
  }

  /** The stamps drawn for link events over a whole run strictly increase until the counter saturates. */
  lemma {:induction false} StampsIncrease(b: Bridge, inputs: seq<RoundInput>)
    requires Idle(b)
    ensures Rising(b.clock.nextOrder, AllStamps(Run(b, inputs)))
    decreases |inputs|
  {
    if |inputs| > 0 {
      var r := Round(b, inputs[0]);
      RoundExact(b, inputs[0]);
      StampsIncrease(r.bridge, inputs[1..]);
      assert Run(b, inputs)[1..] == Run(r.bridge, inputs[1..]);
      RisingConcat(b.clock.nextOrder, LinkCount(Taken(b, inputs[0])), r.bridge.clock.nextOrder,
                   AllStamps(Run(r.bridge, inputs[1..])));
    }
  }

  /** The bridge parks on the notifier only after a round that drained nothing, with that round's own snapshot. */
  lemma ParkingMeansIdleRound(b: Bridge, input: RoundInput)
    requires Idle(b) && Round(b, input).progress.Waiting?
    ensures Decide(Round(b, input).progress.state).BlockOnNotifier? ==>
              input.drained == Some([]) && input.pendingOutbound == 0
              && Decide(Round(b, input).progress.state).snapshot == input.notifierSnapshot
              && input.outcome == Some(RouterOutcome(false, HostDefault)) && input.flushed == Some(0)
  {
    RoundExact(b, input);
  }

  // ----- The bridge as an object -----

  class BleHostBridge {
    const inboundCapacity: nat
    var pendingTransportObservations: seq<TransportObservation>
    var droppedTransportObservations: nat
    var nowTick: nat
    var nextTick: nat
    var nextOrder: nat

    ghost function State(): Bridge
      reads this
    {
      Bridge(inboundCapacity, pendingTransportObservations, droppedTransportObservations,
             Clock(nowTick, nextTick, nextOrder))
    }

    constructor (initialTick: nat, inboundCapacity: nat)
      ensures State() == Bridge(inboundCapacity, [], 0, Clock(initialTick, initialTick, 0))
    {
      this.inboundCapacity := inboundCapacity;
      pendingTransportObservations, droppedTransportObservations := [], 0;
      nowTick, nextTick, nextOrder := initialTick, initialTick, 0;
    }

    method AdvanceClock() returns (tick: nat)
      modifies this`nowTick, this`nextTick
      ensures State() == old(State()).(clock := AdvanceTick(old(State()).clock)) && tick == nowTick
    {
      nowTick := nextTick;
      nextTick := SaturatingAdd(nextTick, 1);
      tick := nowTick;
    }

    method StageTransportIngress(rawEvents: seq<IngressEvent>, observedAtTick: nat) returns (ghost stamps: seq<nat>)
      modifies this`pendingTransportObservations, this`droppedTransportObservations, this`nextOrder
      ensures Staging(State(), stamps) == Stage(Staging(old(State()), []), rawEvents, observedAtTick)
    {
      stamps := [];
      for i := 0 to |rawEvents|
        invariant Stage(Staging(old(State()), []), rawEvents, observedAtTick)
               == Stage(Staging(State(), stamps), rawEvents[i..], observedAtTick)
      {
        assert rawEvents[i..][1..] == rawEvents[i + 1..];
        if |pendingTransportObservations| >= inboundCapacity {
          droppedTransportObservations := SaturatingAdd(droppedTransportObservations, 1);
          continue;
        }
        match rawEvents[i] {
          case PayloadReceived(fromNodeId, endpoint, payload) =>
            pendingTransportObservations := pendingTransportObservations
              + [PayloadObserved(fromNodeId, endpoint, payload, observedAtTick)];
          case LinkReported(remoteNodeId, endpoint, state) =>
            nextOrder := SaturatingAdd(nextOrder, 1);
            stamps := stamps + [nextOrder];
            pendingTransportObservations := pendingTransportObservations
              + [LinkObservation(remoteNodeId, endpoint, state, observedAtTick)];
        }
      }
    }

    method AdvanceRound(input: RoundInput) returns (progress: Progress, ghost stamps: seq<nat>)
      modifies this
      ensures RoundResult(State(), nowTick, stamps, progress) == Round(old(State()), input)
    {
      stamps := [];
      var observedAtTick := AdvanceClock();
      match input.drained {
        case None =>
          return Failed(TransportError), [];
        case Some(rawEvents) =>
          stamps := StageTransportIngress(rawEvents, observedAtTick);
      }
      var ingested := pendingTransportObservations;
      pendingTransportObservations := [];
      nextOrder := SaturatingAdd(nextOrder, input.routerStamps);
      if input.routerAccepts < |ingested| {
        return Failed(RouteError), stamps;
      }
      if input.outcome == None {
        return Failed(RouteError), stamps;
      }
      if input.flushed == None {
        return Failed(TransportError), stamps;
      }
      var dropped := droppedTransportObservations;
      droppedTransportObservations := 0;
      var outcome := input.outcome.value;
      if ingested == [] && input.flushed.value == 0 && dropped == 0 && !outcome.changed {
        return Waiting(WaitState(outcome.nextRoundHint, NarrowCount(|pendingTransportObservations|),
          NarrowCount(input.pendingOutbound), NarrowCount(dropped), input.notifierSnapshot)), stamps;
      }
      return Advanced(RoundReport(outcome, ingested, NarrowCount(input.flushed.value), NarrowCount(dropped))), stamps;
    }
  }
}

/**
 * The relay network with a pump at every node: each transit frame of the network is one relay of one pump. A send
 * queues its packet before the bridge round it runs, so one that fails in the round leaves the packet queued, and a
 * later flush still puts it on the wire.
 */
module RelaySystem {
  import opened Identity
  import opened Framing
  import N = RelayNetwork
  import P = RelayPump

  /** A packet a relay queued: on the wire already, or still in its client's queue. */
  datatype Forward = Forward(node: NodeId, relay: nat, nextHop: NodeId)

  datatype Attempt = Attempt(node: NodeId, relay: nat, result: P.SendResult)

  /**
   * `trail` is what has happened in the network so far, `forwards` the packets relays put on the wire, `outbox`
   * those queued and not yet flushed, `tries` every try of every relay; a node without an entry has not pumped yet.
   */
  datatype System = System(
    maxAttempts: nat, trail: seq<N.Step>, pumps: map<NodeId, P.Pump>,
    forwards: seq<Forward>, outbox: seq<Forward>, tries: seq<Attempt>)

  /** `FlushOut` puts one queued packet on the wire, whenever some round flushes it, if any does. */
  datatype Step =
    | Traffic(step: N.Step)
    | Take(packet: N.Packet)
    | AcquirePermit(node: NodeId)
    | TrySend(node: NodeId, relay: nat, result: P.SendResult, nextHop: NodeId)
    | GiveUpUntried(node: NodeId, relay: nat)
    | FlushOut(i: nat)

  /** The send failed in its bridge round: the packet was queued before that. */
  predicate FailedInRound(result: P.SendResult) { result.SendErr? && result.error.ClientBridge? }

  function PumpOf(s: System, node: NodeId): P.Pump {
    if node in s.pumps then s.pumps[node] else P.Fresh(s.maxAttempts)
  }

  /** The frame a packet brings in transit: an application frame for another node. */
  function TransitFrame(packet: N.Packet): Option<seq<Byte>> {
    match DecodeClientPayload(packet.bytes)
    case None => None
    case Some(payload) =>
      match DecodeApplicationFrame(payload)
      case None => None
      case Some(frame) => if frame.destinationNodeId == packet.toHop then None else Some(payload)
  }

  /** The frames a node took in transit, in order; relay r of its pump carries the r-th. */
  function TakenFrames(trail: seq<N.Step>, node: NodeId): seq<seq<Byte>>
    decreases |trail|
  {
    if |trail| == 0 then []
    else
      var earlier, last := TakenFrames(trail[..|trail| - 1], node), trail[|trail| - 1];
      if last.Arrive? && last.packet.toHop == node && TransitFrame(last.packet).Some?
      then earlier + [TransitFrame(last.packet).value] else earlier
  }

  /** A running relay always has its frame: see EveryTransitFrameEndsOnce. A pump that waits takes nothing. */
  predicate Enabled(s: System, step: Step) {
    match step
    case Traffic(step) => (step.Send? || step.ForeignTraffic?) && N.Enabled(N.Run(s.trail), step)
    case Take(packet) => N.Enabled(N.Run(s.trail), N.Arrive(packet)) && !PumpOf(s, packet.toHop).waiting
    case AcquirePermit(node) => P.Enabled(PumpOf(s, node), P.AcquirePermit)
    case TrySend(node, relay, result, _) =>
      P.Enabled(PumpOf(s, node), P.TrySend(relay, result)) && relay < |TakenFrames(s.trail, node)|
    case GiveUpUntried(node, relay) => P.Enabled(PumpOf(s, node), P.GiveUpUntried(relay))
    case FlushOut(i) => i < |s.outbox| && s.outbox[i].relay < |TakenFrames(s.trail, s.outbox[i].node)|
  }

  /** The packet goes on the wire. */
  function OnWire(s: System, f: Forward): System
    requires f.relay < |TakenFrames(s.trail, f.node)|
  {
    s.(trail := s.trail + [N.Relay(f.node, TakenFrames(s.trail, f.node)[f.relay], f.nextHop)],
       forwards := s.forwards + [f])
  }

  /** A try: queued and flushed by its own rounds, queued and left there, or not even queued. */
  function Tried(s: System, f: Forward, result: P.SendResult): System
    requires f.relay < |TakenFrames(s.trail, f.node)|
  {
    var s1 := s.(tries := s.tries + [Attempt(f.node, f.relay, result)]);
    if result == P.SendOk then OnWire(s1, f)
    else if FailedInRound(result) then s1.(outbox := s.outbox + [f])
    else s1
  }

  function WithPump(s: System, node: NodeId, step: P.Step): System {
    s.(pumps := s.pumps[node := P.Next(PumpOf(s, node), step)])
  }

  /** A step that is not enabled does not happen. */
  function Next(s: System, step: Step): System {
    if !Enabled(s, step) then s
    else
      match step
      case Traffic(step) => s.(trail := s.trail + [step])
      case Take(packet) =>
        var s1 := s.(trail := s.trail + [N.Arrive(packet)]);
        if TransitFrame(packet).Some? then WithPump(s1, packet.toHop, P.TakeTransitFrame) else s1
      case AcquirePermit(node) => WithPump(s, node, P.AcquirePermit)
      case TrySend(node, relay, result, nextHop) =>
        Tried(WithPump(s, node, P.TrySend(relay, result)), Forward(node, relay, nextHop), result)
      case GiveUpUntried(node, relay) => WithPump(s, node, P.GiveUpUntried(relay))
      case FlushOut(i) => OnWire(s.(outbox := s.outbox[..i] + s.outbox[i + 1..]), s.outbox[i])
  }

  function Start(maxAttempts: nat): System { System(maxAttempts, [], map[], [], [], []) }

  function Run(maxAttempts: nat, steps: seq<Step>): System
    decreases |steps|
  {
    if |steps| == 0 then Start(maxAttempts) else Next(Run(maxAttempts, steps[..|steps| - 1]), steps[|steps| - 1])
  }

  // ----- Counting -----

  function ForwardsOf(forwards: seq<Forward>, node: NodeId, relay: nat): nat
    decreases |forwards|
  {
    if |forwards| == 0 then 0
    else
      var last := forwards[|forwards| - 1];
      ForwardsOf(forwards[..|forwards| - 1], node, relay) + if last.node == node && last.relay == relay then 1 else 0
  }

  /** The relayed packets of the network, in order. */
  function RelaysIn(trail: seq<N.Step>): seq<N.Step>
    decreases |trail|
  {
    if |trail| == 0 then []
    else
      var earlier, last := RelaysIn(trail[..|trail| - 1]), trail[|trail| - 1];
      if last.Relay? then earlier + [last] else earlier
  }

  datatype Kind = AnyTry | OkTry | RoundTry

  predicate IsOf(attempt: Attempt, node: NodeId, relay: nat, kind: Kind) {
    && attempt.node == node && attempt.relay == relay
    && (kind == OkTry ==> attempt.result == P.SendOk) && (kind == RoundTry ==> FailedInRound(attempt.result))
  }

  /** Tries of a relay: all, those that succeeded, those that failed in their round. */
  function TriesOf(tries: seq<Attempt>, node: NodeId, relay: nat, kind: Kind): nat
    decreases |tries|
  {
    if |tries| == 0 then 0
    else TriesOf(tries[..|tries| - 1], node, relay, kind) + if IsOf(tries[|tries| - 1], node, relay, kind) then 1 else 0
  }

  function Successes(log: seq<P.Entry>): nat
    decreases |log|
  {
    if |log| == 0 then 0
    else Successes(log[..|log| - 1]) + if log[|log| - 1].Tried? && log[|log| - 1].ok then 1 else 0
  }

  function Drops(log: seq<P.Entry>): nat
    decreases |log|
  {
    if |log| == 0 then 0 else Drops(log[..|log| - 1]) + if log[|log| - 1].ReportedDrop? then 1 else 0
  }

  // ----- The network underneath -----

  lemma TrailSnoc(trail: seq<N.Step>, step: N.Step, node: NodeId)
    ensures TakenFrames(trail + [step], node)
         == TakenFrames(trail, node)
            + if step.Arrive? && step.packet.toHop == node && TransitFrame(step.packet).Some?
              then [TransitFrame(step.packet).value] else []
  {
    assert (trail + [step])[..|trail|] == trail;
  }

  lemma RelaysSnoc(trail: seq<N.Step>, step: N.Step)
    ensures RelaysIn(trail + [step]) == RelaysIn(trail) + if step.Relay? then [step] else []
  {
    assert (trail + [step])[..|trail|] == trail;
  }

  /** What a node took in transit is in the network's transit set. */
  lemma {:induction false} TakenAreInTransit(trail: seq<N.Step>, node: NodeId, r: nat)
    requires r < |TakenFrames(trail, node)|
    ensures (node, TakenFrames(trail, node)[r]) in N.Run(trail).transit
    decreases |trail|
  {
    var k := |trail| - 1;
    if r < |TakenFrames(trail[..k], node)| { TakenAreInTransit(trail[..k], node, r); }
  }

  predicate HasFrame(trail: seq<N.Step>, f: Forward) { f.relay < |TakenFrames(trail, f.node)| }

  /** The relayed packets of the network are the forwards, each carrying its own frame; so will the queued ones. */
  ghost predicate ForwardsAreRelays(s: System) {
    && |RelaysIn(s.trail)| == |s.forwards|
    && (forall i :: 0 <= i < |s.forwards| ==> CarriesOwnFrame(s.trail, s.forwards[i], RelaysIn(s.trail)[i]))
    && (forall i :: 0 <= i < |s.outbox| ==> HasFrame(s.trail, s.outbox[i]))
  }

  ghost predicate CarriesOwnFrame(trail: seq<N.Step>, f: Forward, step: N.Step) {
    && HasFrame(trail, f)
    && step == N.Relay(f.node, TakenFrames(trail, f.node)[f.relay], f.nextHop)
  }

  // ----- The pumps on top -----

  /** One relay's books: its log counts its tries, and what it queued is on the wire or still queued. */
  ghost predicate RelayBooked(s: System, n: NodeId, r: nat) {
    var log := PumpOf(s, n).log;
    var ok := TriesOf(s.tries, n, r, OkTry);
    var wire := ForwardsOf(s.forwards, n, r);
    && P.Count(log, P.Tried(r, true)) == ok && P.Tries(log, r) == TriesOf(s.tries, n, r, AnyTry)
    && ok <= wire && wire + ForwardsOf(s.outbox, n, r) == ok + TriesOf(s.tries, n, r, RoundTry)
  }

  /** One node's books: its pump is sound and counts what the node took and what became of it. */
  ghost predicate NodeBooked(s: System, n: NodeId) {
    var p := PumpOf(s, n);
    && P.Bounded(p) && p.maxAttempts == s.maxAttempts
    && |TakenFrames(s.trail, n)| == p.started + (if p.waiting then 1 else 0)
    && p.started == Successes(p.log) + Drops(p.log) + |p.running|
    && forall r: nat :: RelayBooked(s, n, r)
  }

  ghost predicate Booked(s: System) {
    && N.AllEnabled(s.trail) && ForwardsAreRelays(s)
    && forall n :: NodeBooked(s, n)
  }

  lemma FreshIsBooked(maxAttempts: nat)
    ensures Booked(Start(maxAttempts))
  {
    forall n ensures NodeBooked(Start(maxAttempts), n) {
      P.RelaysAreAccounted(maxAttempts, []);
    }
  }

  lemma {:induction false} LogConcat(log: seq<P.Entry>, more: seq<P.Entry>)
    ensures Drops(log + more) == Drops(log) + Drops(more)
    ensures Successes(log + more) == Successes(log) + Successes(more)
    decreases |more|
  {
    if |more| == 0 {
      assert log + more == log;
    } else {
      var k := |more| - 1;
      assert (log + more)[..|log + more| - 1] == log + more[..k];
      LogConcat(log, more[..k]);
    }
  }

  /** What a pump step logs. */
  function Logs(p: P.Pump, step: P.Step): seq<P.Entry>
    requires P.Enabled(p, step)
  {
    match step
    case TakeTransitFrame => []
    case AcquirePermit => []
    case TrySend(relay, result) =>
      var tried := [P.Tried(relay, result == P.SendOk)];
      if result == P.SendOk || P.TriesAgain(result, p.running[relay], p.maxAttempts) then tried
      else tried + [P.ReportedDrop(relay)]
    case GiveUpUntried(relay) => [P.ReportedDrop(relay)]
  }

  predicate Ends(p: P.Pump, step: P.Step)
    requires P.Enabled(p, step)
  {
    || step.GiveUpUntried?
    || (step.TrySend? && !P.TriesAgain(step.result, p.running[step.relay], p.maxAttempts))
  }

  /** What a pump step does to the counts: relays start with a permit and leave by a send or a report. */
  lemma PumpMoves(p: P.Pump, step: P.Step)
    requires P.Bounded(p) && P.Enabled(p, step)
    ensures var p' := P.Next(p, step);
      && P.Bounded(p') && p'.maxAttempts == p.maxAttempts
      && p'.waiting == (step.TakeTransitFrame? || (p.waiting && !step.AcquirePermit?))
      && p'.started == p.started + (if step.AcquirePermit? then 1 else 0)
      && Successes(p'.log) + Drops(p'.log) + |p'.running|
         == Successes(p.log) + Drops(p.log) + |p.running| + (if step.AcquirePermit? then 1 else 0)
  {
    P.StepKeepsAccount(p, step);
    PumpLogs(p, step);
    LogConcat(p.log, Logs(p, step));
    LogsCount(p, step);
    RunningMoves(p, step);
  }

  lemma PumpLogs(p: P.Pump, step: P.Step)
    requires P.Enabled(p, step)
    ensures P.Next(p, step).log == p.log + Logs(p, step)
  {
  }

  lemma LogsCount(p: P.Pump, step: P.Step)
    requires P.Enabled(p, step)
    ensures Successes(Logs(p, step)) + Drops(Logs(p, step)) == (if Ends(p, step) then 1 else 0)
  {
    if step.TrySend? {
      var tried := [P.Tried(step.relay, step.result == P.SendOk)];
      LogConcat(tried, [P.ReportedDrop(step.relay)]);
      assert tried[..0] == [] && [P.ReportedDrop(step.relay)][..0] == [];
    }
  }

  lemma RunningMoves(p: P.Pump, step: P.Step)
    requires P.Bounded(p) && P.Enabled(p, step)
    ensures |P.Next(p, step).running|
         == |p.running| + (if step.AcquirePermit? then 1 else 0) - (if Ends(p, step) then 1 else 0)
  {
    match step
    case TakeTransitFrame =>
    case AcquirePermit =>
      assert P.Accounted(p, p.started);
      assert |P.Next(p, step).running| == |p.running| + 1;
    case TrySend(relay, result) =>
      P.Removed(p.running, relay);
      var again := p.running[relay := p.running[relay] + 1];
      assert again.Keys == p.running.Keys && |again| == |again.Keys| && |p.running| == |p.running.Keys|;
    case GiveUpUntried(relay) => P.Removed(p.running, relay);
  }

  /** What it does to one relay's tries. */
  lemma PumpTries(p: P.Pump, step: P.Step, r: nat)
    requires P.Enabled(p, step)
    ensures var log, log' := p.log, P.Next(p, step).log;
      var mine := step.TrySend? && step.relay == r;
      && P.Count(log', P.Tried(r, true))
         == P.Count(log, P.Tried(r, true)) + (if mine && step.result == P.SendOk then 1 else 0)
      && P.Tries(log', r) == P.Tries(log, r) + (if mine then 1 else 0)
  {
    PumpLogs(p, step);
    P.Logged(p.log, Logs(p, step), P.Tried(r, true));
    P.Logged(p.log, Logs(p, step), P.Tried(r, false));
  }

  // ----- Every step keeps the books -----

  lemma {:induction false} ForwardsConcat(first: seq<Forward>, second: seq<Forward>, node: NodeId, relay: nat)
    ensures ForwardsOf(first + second, node, relay) == ForwardsOf(first, node, relay) + ForwardsOf(second, node, relay)
    decreases |second|
  {
    if |second| == 0 {
      assert first + second == first;
    } else {
      var k := |second| - 1;
      assert (first + second)[..|first + second| - 1] == first + second[..k];
      ForwardsConcat(first, second[..k], node, relay);
    }
  }

  function Own(f: Forward, node: NodeId, relay: nat): nat { if f.node == node && f.relay == relay then 1 else 0 }

  lemma ForwardSnoc(forwards: seq<Forward>, f: Forward, node: NodeId, relay: nat)
    ensures ForwardsOf(forwards + [f], node, relay) == ForwardsOf(forwards, node, relay) + Own(f, node, relay)
  {
    assert (forwards + [f])[..|forwards|] == forwards;
  }

  lemma ForwardRemoved(forwards: seq<Forward>, i: nat, node: NodeId, relay: nat)
    requires i < |forwards|
    ensures ForwardsOf(forwards[..i] + forwards[i + 1..], node, relay) + Own(forwards[i], node, relay)
         == ForwardsOf(forwards, node, relay)
  {
    var front, f, back := forwards[..i], forwards[i], forwards[i + 1..];
    assert forwards == (front + [f]) + back;
    ForwardsConcat(front + [f], back, node, relay);
    ForwardSnoc(front, f, node, relay);
    ForwardsConcat(front, back, node, relay);
  }

  lemma TrySnoc(tries: seq<Attempt>, attempt: Attempt, node: NodeId, relay: nat, kind: Kind)
    ensures TriesOf(tries + [attempt], node, relay, kind)
         == TriesOf(tries, node, relay, kind) + (if IsOf(attempt, node, relay, kind) then 1 else 0)
  {
    assert (tries + [attempt])[..|tries|] == tries;
  }

  lemma TrailGrows(trail: seq<N.Step>, step: N.Step)
    requires N.AllEnabled(trail) && N.Enabled(N.Run(trail), step)
    ensures N.AllEnabled(trail + [step])
    ensures forall n :: TakenFrames(trail, n) <= TakenFrames(trail + [step], n)
    ensures RelaysIn(trail + [step]) == RelaysIn(trail) + if step.Relay? then [step] else []
  {
    N.Snoc(trail, step);
    RelaysSnoc(trail, step);
    forall n ensures TakenFrames(trail, n) <= TakenFrames(trail + [step], n) { TrailSnoc(trail, step, n); }
  }

  /** A network step that relays nothing keeps every forward paired with its relayed packet. */
  lemma QuietTrailKeepsForwards(s: System, step: N.Step)
    requires N.AllEnabled(s.trail) && ForwardsAreRelays(s) && N.Enabled(N.Run(s.trail), step) && !step.Relay?
    ensures ForwardsAreRelays(s.(trail := s.trail + [step])) && N.AllEnabled(s.trail + [step])
  {
    TrailGrows(s.trail, step);
    assert RelaysIn(s.trail + [step]) == RelaysIn(s.trail);
    forall i | 0 <= i < |s.forwards| ensures CarriesOwnFrame(s.trail + [step], s.forwards[i], RelaysIn(s.trail)[i]) {
      assert CarriesOwnFrame(s.trail, s.forwards[i], RelaysIn(s.trail)[i]);
    }
  }

  /** Putting a packet on the wire pairs one more. */
  lemma WireKeepsForwards(s: System, f: Forward)
    requires N.AllEnabled(s.trail) && ForwardsAreRelays(s) && HasFrame(s.trail, f)
    ensures N.AllEnabled(OnWire(s, f).trail) && ForwardsAreRelays(OnWire(s, f))
  {
    var s' := OnWire(s, f);
    TakenAreInTransit(s.trail, f.node, f.relay);
    TrailGrows(s.trail, N.Relay(f.node, TakenFrames(s.trail, f.node)[f.relay], f.nextHop));
    forall i | 0 <= i < |s'.forwards| ensures CarriesOwnFrame(s'.trail, s'.forwards[i], RelaysIn(s'.trail)[i]) {
      if i < |s.forwards| {
        assert CarriesOwnFrame(s.trail, s.forwards[i], RelaysIn(s.trail)[i]);
      }
    }
  }

  /** Steps that leave pumps, tries, packets and queue alone keep the books of a node if it took nothing new. */
  lemma SameBooks(s: System, s': System, n: NodeId)
    requires NodeBooked(s, n) && s'.maxAttempts == s.maxAttempts && PumpOf(s', n) == PumpOf(s, n)
    requires s'.forwards == s.forwards && s'.outbox == s.outbox && s'.tries == s.tries
    requires TakenFrames(s'.trail, n) == TakenFrames(s.trail, n)
    ensures NodeBooked(s', n)
  {
    forall r: nat ensures RelayBooked(s', n, r) { assert RelayBooked(s, n, r); }
  }

  lemma TrafficKeepsBooked(s: System, step: N.Step)
    requires Booked(s) && Enabled(s, Traffic(step))
    ensures Booked(Next(s, Traffic(step)))
  {
    QuietTrailKeepsForwards(s, step);
    forall n ensures NodeBooked(Next(s, Traffic(step)), n) {
      assert NodeBooked(s, n);
      TrailSnoc(s.trail, step, n);
      SameBooks(s, Next(s, Traffic(step)), n);
    }
  }

  lemma TakeKeepsBooked(s: System, packet: N.Packet)
    requires Booked(s) && Enabled(s, Take(packet))
    ensures Booked(Next(s, Take(packet)))
  {
    QuietTrailKeepsForwards(s, N.Arrive(packet));
    forall n ensures NodeBooked(Next(s, Take(packet)), n) {
      assert NodeBooked(s, n);
      TrailSnoc(s.trail, N.Arrive(packet), n);
      if n == packet.toHop && TransitFrame(packet).Some? {
        TakerStaysBooked(s, packet);
      } else {
        SameBooks(s, Next(s, Take(packet)), n);
      }
    }
  }

  lemma TakerStaysBooked(s: System, packet: N.Packet)
    requires NodeBooked(s, packet.toHop) && Enabled(s, Take(packet)) && TransitFrame(packet).Some?
    ensures NodeBooked(Next(s, Take(packet)), packet.toHop)
  {
    var n, s' := packet.toHop, Next(s, Take(packet));
    TrailSnoc(s.trail, N.Arrive(packet), n);
    PumpMoves(PumpOf(s, n), P.TakeTransitFrame);
    forall r: nat ensures RelayBooked(s', n, r) {
      assert RelayBooked(s, n, r);
      PumpTries(PumpOf(s, n), P.TakeTransitFrame, r);
    }
  }

  /** A pump step that tries nothing. */
  lemma PumpKeepsBooked(s: System, node: NodeId, step: P.Step)
    requires Booked(s) && P.Enabled(PumpOf(s, node), step) && !step.TrySend? && !step.TakeTransitFrame?
    ensures Booked(WithPump(s, node, step))
  {
    var s' := WithPump(s, node, step);
    assert ForwardsAreRelays(s');
    forall n ensures NodeBooked(s', n) {
      assert NodeBooked(s, n);
      if n == node { PumperStaysBooked(s, node, step); } else { SameBooks(s, s', n); }
    }
  }

  lemma PumperStaysBooked(s: System, n: NodeId, step: P.Step)
    requires NodeBooked(s, n) && P.Enabled(PumpOf(s, n), step) && !step.TrySend? && !step.TakeTransitFrame?
    ensures NodeBooked(WithPump(s, n, step), n)
  {
    PumpMoves(PumpOf(s, n), step);
    forall r: nat ensures RelayBooked(WithPump(s, n, step), n, r) {
      assert RelayBooked(s, n, r);
      PumpTries(PumpOf(s, n), step, r);
    }
  }

  lemma TryKeepsBooked(s: System, node: NodeId, relay: nat, result: P.SendResult, nextHop: NodeId)
    requires Booked(s) && Enabled(s, TrySend(node, relay, result, nextHop))
    ensures Booked(Next(s, TrySend(node, relay, result, nextHop)))
  {
    var f := Forward(node, relay, nextHop);
    var s1 := WithPump(s, node, P.TrySend(relay, result)).(tries := s.tries + [Attempt(node, relay, result)]);
    assert ForwardsAreRelays(s1);
    if result == P.SendOk { WireKeepsForwards(s1, f); }
    forall n ensures NodeBooked(Next(s, TrySend(node, relay, result, nextHop)), n) {
      assert NodeBooked(s, n);
      TryKeepsNode(s, node, relay, result, nextHop, n);
    }
  }

  lemma TryKeepsNode(s: System, node: NodeId, relay: nat, result: P.SendResult, nextHop: NodeId, n: NodeId)
    requires NodeBooked(s, n) && Enabled(s, TrySend(node, relay, result, nextHop))
    ensures NodeBooked(Next(s, TrySend(node, relay, result, nextHop)), n)
  {
    TryChanges(s, Forward(node, relay, nextHop), result);
    TryTakesNothing(s, Forward(node, relay, nextHop), result, n);
    if n == node { PumpMoves(PumpOf(s, n), P.TrySend(relay, result)); }
    forall r: nat ensures RelayBooked(Next(s, TrySend(node, relay, result, nextHop)), n, r) {
      assert RelayBooked(s, n, r);
      TryKeepsRelay(s, node, relay, result, nextHop, n, r);
    }
  }

  lemma TryTakesNothing(s: System, f: Forward, result: P.SendResult, n: NodeId)
    requires Enabled(s, TrySend(f.node, f.relay, result, f.nextHop))
    ensures var s' := Next(s, TrySend(f.node, f.relay, result, f.nextHop));
      TakenFrames(s'.trail, n) == TakenFrames(s.trail, n) && s'.maxAttempts == s.maxAttempts
  {
    TrailSnoc(s.trail, N.Relay(f.node, TakenFrames(s.trail, f.node)[f.relay], f.nextHop), n);
  }

  lemma TryChanges(s: System, f: Forward, result: P.SendResult)
    requires Enabled(s, TrySend(f.node, f.relay, result, f.nextHop))
    ensures var s' := Next(s, TrySend(f.node, f.relay, result, f.nextHop));
      && s'.tries == s.tries + [Attempt(f.node, f.relay, result)]
      && s'.forwards == s.forwards + (if result == P.SendOk then [f] else [])
      && s'.outbox == s.outbox + (if FailedInRound(result) then [f] else [])
      && PumpOf(s', f.node) == P.Next(PumpOf(s, f.node), P.TrySend(f.relay, result))
      && forall n :: n != f.node ==> PumpOf(s', n) == PumpOf(s, n)
  {
  }

  lemma TryKeepsRelay(
    s: System, node: NodeId, relay: nat, result: P.SendResult, nextHop: NodeId, n: NodeId, r: nat)
    requires RelayBooked(s, n, r) && Enabled(s, TrySend(node, relay, result, nextHop))
    ensures RelayBooked(Next(s, TrySend(node, relay, result, nextHop)), n, r)
  {
    var f := Forward(node, relay, nextHop);
    TryChanges(s, f, result);
    if n == node { PumpTries(PumpOf(s, n), P.TrySend(relay, result), r); }
    CountsAfterTry(s, f, result, n, r);
  }

  lemma CountsAfterTry(s: System, f: Forward, result: P.SendResult, n: NodeId, r: nat)
    ensures var tries := s.tries + [Attempt(f.node, f.relay, result)];
      var one := Own(f, n, r);
      && TriesOf(tries, n, r, AnyTry) == TriesOf(s.tries, n, r, AnyTry) + one
      && TriesOf(tries, n, r, OkTry) == TriesOf(s.tries, n, r, OkTry) + (if result == P.SendOk then one else 0)
      && TriesOf(tries, n, r, RoundTry) == TriesOf(s.tries, n, r, RoundTry) + (if FailedInRound(result) then one else 0)
      && ForwardsOf(s.forwards + (if result == P.SendOk then [f] else []), n, r)
         == ForwardsOf(s.forwards, n, r) + (if result == P.SendOk then one else 0)
      && ForwardsOf(s.outbox + (if FailedInRound(result) then [f] else []), n, r)
         == ForwardsOf(s.outbox, n, r) + (if FailedInRound(result) then one else 0)
  {
    var attempt := Attempt(f.node, f.relay, result);
    TrySnoc(s.tries, attempt, n, r, AnyTry);
    TrySnoc(s.tries, attempt, n, r, OkTry);
    TrySnoc(s.tries, attempt, n, r, RoundTry);
    ForwardSnoc(s.forwards, f, n, r);
    ForwardSnoc(s.outbox, f, n, r);
    assert s.forwards + [] == s.forwards && s.outbox + [] == s.outbox;
  }

  lemma FlushKeepsBooked(s: System, i: nat)
    requires Booked(s) && Enabled(s, FlushOut(i))
    ensures Booked(Next(s, FlushOut(i)))
  {
    var s1 := s.(outbox := s.outbox[..i] + s.outbox[i + 1..]);
    assert ForwardsAreRelays(s1);
    WireKeepsForwards(s1, s.outbox[i]);
    forall n ensures NodeBooked(Next(s, FlushOut(i)), n) {
      assert NodeBooked(s, n);
      FlushKeepsNode(s, i, n);
    }
  }

  lemma FlushKeepsNode(s: System, i: nat, n: NodeId)
    requires NodeBooked(s, n) && Enabled(s, FlushOut(i))
    ensures NodeBooked(Next(s, FlushOut(i)), n)
  {
    var f, s' := s.outbox[i], Next(s, FlushOut(i));
    TrailSnoc(s.trail, N.Relay(f.node, TakenFrames(s.trail, f.node)[f.relay], f.nextHop), n);
    assert s'.pumps == s.pumps && s'.tries == s.tries;
    forall r: nat ensures RelayBooked(s', n, r) {
      assert RelayBooked(s, n, r);
      ForwardRemoved(s.outbox, i, n, r);
      ForwardSnoc(s.forwards, f, n, r);
    }
  }

  lemma StepKeepsBooked(s: System, step: Step)
    requires Booked(s)
    ensures Booked(Next(s, step)) && Next(s, step).maxAttempts == s.maxAttempts
  {
    if Enabled(s, step) {
      match step
      case Traffic(step) => TrafficKeepsBooked(s, step);
      case Take(packet) => TakeKeepsBooked(s, packet);
      case AcquirePermit(node) => PumpKeepsBooked(s, node, P.AcquirePermit);
      case TrySend(node, relay, result, nextHop) => TryKeepsBooked(s, node, relay, result, nextHop);
      case GiveUpUntried(node, relay) => PumpKeepsBooked(s, node, P.GiveUpUntried(relay));
      case FlushOut(i) => FlushKeepsBooked(s, i);
    }
  }

  lemma {:induction false} EveryRunIsBooked(maxAttempts: nat, steps: seq<Step>)
    ensures Booked(Run(maxAttempts, steps)) && Run(maxAttempts, steps).maxAttempts == maxAttempts
    decreases |steps|
  {
    if |steps| == 0 {
      FreshIsBooked(maxAttempts);
    } else {
      EveryRunIsBooked(maxAttempts, steps[..|steps| - 1]);
      StepKeepsBooked(Run(maxAttempts, steps[..|steps| - 1]), steps[|steps| - 1]);
    }
  }

  // ----- What the pumps give the network -----

  /** The pumps only do what the network allows, so whatever surfaces was sent. */
  lemma {:induction false} PumpedMessagesWereSent(maxAttempts: nat, steps: seq<Step>, i: nat)
    requires var h := N.Run(Run(maxAttempts, steps).trail).history; i < |h| && h[i].Surfaced?
    ensures var h := N.Run(Run(maxAttempts, steps).trail).history;
      exists j :: 0 <= j < i && h[j] == N.Sent(h[i].claimedSource, h[i].at, h[i].payload)
  {
    EveryRunIsBooked(maxAttempts, steps);
    N.SurfacedMessagesWereSent(Run(maxAttempts, steps).trail, i);
  }

  lemma {:induction false} KindsOfTries(tries: seq<Attempt>, node: NodeId, relay: nat)
    ensures TriesOf(tries, node, relay, OkTry) + TriesOf(tries, node, relay, RoundTry)
         <= TriesOf(tries, node, relay, AnyTry)
    ensures TriesOf(tries, node, relay, RoundTry) > 0 <==>
              exists i :: 0 <= i < |tries| && IsOf(tries[i], node, relay, RoundTry)
    decreases |tries|
  {
    if |tries| > 0 {
      var k := |tries| - 1;
      KindsOfTries(tries[..k], node, relay);
      assert forall i :: 0 <= i < k ==> tries[..k][i] == tries[i];
      if i :| 0 <= i < k && IsOf(tries[i], node, relay, RoundTry) { assert IsOf(tries[..k][i], node, relay, RoundTry); }
    }
  }

  /**
   * Each frame a node takes in transit is one relay of its pump, and once that relay has ended exactly one of a
   * successful send and a drop report is its end. Packets: each success put one on the wire, each try that failed
   * in its round put one there or left it queued, no other try did; so successes <= packets <= tries <= the limit.
   * The network's relayed packets are exactly these, each carrying its own frame.
   */
  lemma {:induction false} EveryTransitFrameEndsOnce(maxAttempts: nat, steps: seq<Step>, node: NodeId, relay: nat)
    ensures var s := Run(maxAttempts, steps);
      var p := PumpOf(s, node);
      var sends, packets := P.Count(p.log, P.Tried(relay, true)), ForwardsOf(s.forwards, node, relay);
      var queued := ForwardsOf(s.outbox, node, relay);
      && (relay < |TakenFrames(s.trail, node)| <==>
            relay in p.running || relay in p.ended || (p.waiting && relay == p.started))
      && sends + P.Count(p.log, P.ReportedDrop(relay)) == (if relay in p.ended then 1 else 0)
      && sends <= packets && packets + queued == sends + TriesOf(s.tries, node, relay, RoundTry)
      && packets + queued <= P.Tries(p.log, relay) <= maxAttempts
      && |p.running| <= P.RELAY_INFLIGHT_MAX && ForwardsAreRelays(s)
  {
    var s := Run(maxAttempts, steps);
    var p := PumpOf(s, node);
    EveryRunIsBooked(maxAttempts, steps);
    assert NodeBooked(s, node) && RelayBooked(s, node, relay);
    assert P.Accounted(p, relay) && P.Accounted(p, p.started);
    KindsOfTries(s.tries, node, relay);
  }

  /**
   * A relay reported dropped has put its frame on the wire if and only if more of its tries failed in their round
   * than are still queued; with nothing of it queued, if and only if some try failed in its round.
   */
  lemma {:induction false} DroppedReachedWireExactly(maxAttempts: nat, steps: seq<Step>, node: NodeId, relay: nat)
    requires var p := PumpOf(Run(maxAttempts, steps), node); relay in p.ended && p.ended[relay] == P.Dropped
    ensures var s := Run(maxAttempts, steps);
      var reached, queued := ForwardsOf(s.forwards, node, relay) > 0, ForwardsOf(s.outbox, node, relay);
      && (reached <==> queued < TriesOf(s.tries, node, relay, RoundTry))
      && (queued == 0 ==>
            (reached <==> exists i :: 0 <= i < |s.tries| && IsOf(s.tries[i], node, relay, RoundTry)))
  {
    var s := Run(maxAttempts, steps);
    EveryTransitFrameEndsOnce(maxAttempts, steps, node, relay);
    assert P.Accounted(PumpOf(s, node), relay) by { EveryRunIsBooked(maxAttempts, steps); assert NodeBooked(s, node); }
    KindsOfTries(s.tries, node, relay);
  }

  /** Conservation at every node: frames taken in transit were sent on, reported dropped, are in flight or held. */
  lemma {:induction false} TransitIsConserved(maxAttempts: nat, steps: seq<Step>, node: NodeId)
    ensures var s := Run(maxAttempts, steps);
      var p := PumpOf(s, node);
      |TakenFrames(s.trail, node)|
      == Successes(p.log) + Drops(p.log) + |p.running| + (if p.waiting then 1 else 0)
  {
    EveryRunIsBooked(maxAttempts, steps);
    assert NodeBooked(Run(maxAttempts, steps), node);
  }

  // ----- A relay reported dropped whose frame arrives -----

  lemma RunSnoc(maxAttempts: nat, steps: seq<Step>, step: Step)
    ensures Run(maxAttempts, steps + [step]) == Next(Run(maxAttempts, steps), step)
  {
    assert (steps + [step])[..|steps|] == steps;
  }

  const RoundError: P.SendResult := P.SendErr(P.ClientBridge(P.BridgeTransport(P.Unavailable)))

  /** From a relay about to make its only try: the try fails in its round, is reported, and its packet goes out. */
  lemma DropAndFlush(maxAttempts: nat, steps: seq<Step>, node: NodeId, relay: nat, nextHop: NodeId)
    requires var s := Run(maxAttempts, steps);
      && Enabled(s, TrySend(node, relay, RoundError, nextHop)) && s.outbox == []
      && PumpOf(s, node).running[relay] + 1 == PumpOf(s, node).maxAttempts
    ensures var longer := steps + [TrySend(node, relay, RoundError, nextHop)] + [FlushOut(0)];
      var s, s' := Run(maxAttempts, steps), Run(maxAttempts, longer);
      && relay in PumpOf(s', node).ended && PumpOf(s', node).ended[relay] == P.Dropped
      && s'.forwards == s.forwards + [Forward(node, relay, nextHop)]
      && N.Packet(node, nextHop, EncodeClientPayload(TakenFrames(s.trail, node)[relay])) in N.Run(s'.trail).packets
  {
    var s := Run(maxAttempts, steps);
    var tried := TrySend(node, relay, RoundError, nextHop);
    RunSnoc(maxAttempts, steps, tried);
    RunSnoc(maxAttempts, steps + [tried], FlushOut(0));
    var s1 := Next(s, tried);
    TryChanges(s, Forward(node, relay, nextHop), RoundError);
    assert s1.outbox == [Forward(node, relay, nextHop)] && s1.trail == s.trail;
    var step := N.Relay(node, TakenFrames(s.trail, node)[relay], nextHop);
    assert (s.trail + [step])[..|s.trail|] == s.trail;
  }

  lemma SentInTransit(a: NodeId, b: NodeId, c: NodeId, payload: seq<Byte>, frame: seq<Byte>)
    requires b != c && frame == EncodeApplicationFrame(ApplicationFrame(a, c, payload))
    ensures TransitFrame(N.Packet(a, b, EncodeClientPayload(frame))) == Some(frame)
  {
    ApplicationFramingExact(frame, ApplicationFrame(a, c, payload));
    ClientFramingExact(EncodeClientPayload(frame), frame);
  }

  /** Taking a transit frame at a node that has pumped nothing, and a permit for it. */
  lemma FirstFrameInHand(s: System, packet: N.Packet, frame: seq<Byte>)
    requires s == System(1, s.trail, map[], [], [], []) && TakenFrames(s.trail, packet.toHop) == []
    requires packet in N.Run(s.trail).packets && TransitFrame(packet) == Some(frame)
    ensures var s' := Next(Next(s, Take(packet)), AcquirePermit(packet.toHop));
      && TakenFrames(s'.trail, packet.toHop) == [frame] && s'.outbox == [] && s'.forwards == []
      && PumpOf(s', packet.toHop) == P.Pump(1, 63, false, 1, map[0 := 0], map[], [])
      && forall n :: n != packet.toHop ==> PumpOf(s', n) == P.Fresh(1)
  {
    var s1 := Next(s, Take(packet));
    TrailSnoc(s.trail, N.Arrive(packet), packet.toHop);
    assert PumpOf(s1, packet.toHop) == P.Pump(1, 64, true, 0, map[], map[], []);
    assert P.Enabled(PumpOf(s1, packet.toHop), P.AcquirePermit);
  }

  lemma RunOfThree(maxAttempts: nat, first: Step, second: Step, third: Step)
    ensures Run(maxAttempts, [first, second, third]) == Next(Next(Next(Start(maxAttempts), first), second), third)
  {
    var steps := [first, second, third];
    assert steps[..2] == [first, second] && [first, second][..1] == [first] && [first][..0] == [];
    assert Run(maxAttempts, [first]) == Next(Start(maxAttempts), first);
    assert Run(maxAttempts, [first, second]) == Next(Run(maxAttempts, [first]), second);
  }

  lemma FirstTraffic(step: N.Step, hop: NodeId)
    requires step.Send?
    ensures Next(Start(1), Traffic(step)) == System(1, [step], map[], [], [], [])
    ensures TakenFrames([step], hop) == [] && N.Run([step]) == N.Next(N.Quiet, step)
  {
    assert [step][..0] == [];
    var trail: seq<N.Step> := [];
    assert trail + [step] == [step];
  }

  /** One frame, sent at a through b, taken at b and given a permit. */
  lemma FrameInHand(a: NodeId, b: NodeId, c: NodeId, payload: seq<Byte>) returns (steps: seq<Step>)
    requires b != c
    ensures var s := Run(1, steps);
      && TakenFrames(s.trail, b) == [EncodeApplicationFrame(ApplicationFrame(a, c, payload))]
      && s.outbox == [] && s.forwards == []
      && PumpOf(s, b) == P.Pump(1, 63, false, 1, map[0 := 0], map[], []) && PumpOf(s, c) == P.Fresh(1)
  {
    var frame := EncodeApplicationFrame(ApplicationFrame(a, c, payload));
    var packet := N.Packet(a, b, EncodeClientPayload(frame));
    var send := N.Send(a, c, payload, b);
    SentInTransit(a, b, c, payload, frame);
    FirstTraffic(send, b);
    assert packet in N.Next(N.Quiet, send).packets;
    FirstFrameInHand(System(1, [send], map[], [], [], []), packet, frame);
    RunOfThree(1, Traffic(send), Take(packet), AcquirePermit(b));
    steps := [Traffic(send), Take(packet), AcquirePermit(b)];
  }

  /** It happens: the only try of a frame fails in its round, the drop is reported, and the frame is on its way. */
  lemma DroppedFrameIsOnItsWay(a: NodeId, b: NodeId, c: NodeId, payload: seq<Byte>) returns (steps: seq<Step>)
    requires b != c
    ensures var s := Run(1, steps);
      && 0 in PumpOf(s, b).ended && PumpOf(s, b).ended[0] == P.Dropped
      && N.Packet(b, c, EncodeClientPayload(EncodeApplicationFrame(ApplicationFrame(a, c, payload))))
         in N.Run(s.trail).packets
  {
    var prefix := FrameInHand(a, b, c, payload);
    DropAndFlush(1, prefix, b, 0, c);
    steps := prefix + [TrySend(b, 0, RoundError, c)] + [FlushOut(0)];
  }

  // ----- A frame that arrives -----

  /** From a relay with its frame in hand: a successful try ends it, and the frame surfaces at its destination. */
  lemma SendAndSurface(maxAttempts: nat, steps: seq<Step>, node: NodeId, relay: nat, message: ApplicationFrame)
    requires var s := Run(maxAttempts, steps);
      && Enabled(s, TrySend(node, relay, P.SendOk, message.destinationNodeId))
      && TakenFrames(s.trail, node)[relay] == EncodeApplicationFrame(message)
      && !PumpOf(s, message.destinationNodeId).waiting && node != message.destinationNodeId
    ensures var end := message.destinationNodeId;
      var packet := N.Packet(node, end, EncodeClientPayload(EncodeApplicationFrame(message)));
      var longer := steps + [TrySend(node, relay, P.SendOk, end)] + [Take(packet)];
      var s, s' := Run(maxAttempts, steps), Run(maxAttempts, longer);
      && relay in PumpOf(s', node).ended && PumpOf(s', node).ended[relay] == P.Delivered
      && N.Run(s'.trail).history
         == N.Run(s.trail).history + [N.Surfaced(end, message.fromNodeId, node, message.payload)]
  {
    var s, end := Run(maxAttempts, steps), message.destinationNodeId;
    var frame := EncodeApplicationFrame(message);
    var packet := N.Packet(node, end, EncodeClientPayload(frame));
    var tried := TrySend(node, relay, P.SendOk, end);
    RunSnoc(maxAttempts, steps, tried);
    RunSnoc(maxAttempts, steps + [tried], Take(packet));
    TryChanges(s, Forward(node, relay, end), P.SendOk);
    var s1, step := Next(s, tried), N.Relay(node, frame, end);
    assert s1.trail == s.trail + [step] && (s.trail + [step])[..|s.trail|] == s.trail;
    assert packet in N.Run(s1.trail).packets;
    ApplicationFramingExact(frame, message);
    ClientFramingExact(packet.bytes, frame);
    assert Next(s1, Take(packet)) == s1.(trail := s1.trail + [N.Arrive(packet)]);
    assert (s1.trail + [N.Arrive(packet)])[..|s1.trail|] == s1.trail;
    N.SurfacesAtDestination(N.Run(s1.trail), packet, message, frame);
  }

  /** What a sends to c through b surfaces at c, under a's name, and b's relay has ended in that one success. */
  lemma RelayedFrameArrives(a: NodeId, b: NodeId, c: NodeId, payload: seq<Byte>) returns (steps: seq<Step>)
    requires b != c
    ensures var s := Run(1, steps);
      && 0 in PumpOf(s, b).ended && PumpOf(s, b).ended[0] == P.Delivered
      && var h := N.Run(s.trail).history;
         |h| > 0 && h[|h| - 1] == N.Surfaced(c, a, b, payload)
  {
    var message := ApplicationFrame(a, c, payload);
    var prefix := FrameInHand(a, b, c, payload);
    var packet := N.Packet(b, c, EncodeClientPayload(EncodeApplicationFrame(message)));
    SendAndSurface(1, prefix, b, 0, message);
    steps := prefix + [TrySend(b, 0, P.SendOk, c)] + [Take(packet)];
  }
}

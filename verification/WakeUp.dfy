/**
 * The client loop against its producers, step by step: snapshot the notifier, drain, run the round,
 * decide, check, park. Producers push and then notify; any interleaving is allowed.
 */
module WakeUp {
  import opened Identity
  import opened Observations
  import B = Bridge

  /** An event in the mailbox, with the push that put it there. */
  datatype Item = Item(push: nat, event: IngressEvent)

  /** `inCommand` marks rounds run while serving a command, whose outcome the loop discards. */
  datatype Client =
    | LoopTop
    | RoundStart(followUp: bool, inCommand: bool)
    | Snapshotted(snapshot: nat, followUp: bool, inCommand: bool)
    | Draining(snapshot: nat, items: seq<Item>, followUp: bool, inCommand: bool)
    | Deciding(snapshot: nat, timed: bool)
    | Parked(snapshot: nat, timed: bool)
    | RoundFailed
    | ErrorParked(snapshot: nat)
    | Stopped

  datatype System = System(
    generation: nat, mailbox: seq<Item>, unnotified: set<nat>, pushes: nat, capacity: nat,
    bridge: B.Bridge, client: Client)

  function Start(capacity: nat, bridge: B.Bridge): System {
    System(0, [], {}, 0, capacity, bridge, LoopTop)
  }

  /** Answers of the router and the transport in one round. */
  datatype Answers = Answers(
    routerAccepts: nat, outcome: Option<B.RouterOutcome>, flushed: Option<nat>, pendingOutbound: nat, routerStamps: nat)

  /** `ServeCommand` runs a round; `ReturnToTop` is a command that ends before any, or a shutdown flag still down. */
  datatype Step =
    | Push(event: IngressEvent)
    | Notify(push: nat)
    | BeginRound
    | TakeSnapshot
    | DrainMailbox
    | DrainFails(answers: Answers)
    | FinishRound(answers: Answers)
    | CheckAndPark
    | Wake
    | TimeOut
    | ServeCommand
    | ReturnToTop
    | Shutdown

  function Events(items: seq<Item>): seq<IngressEvent> {
    seq(|items|, i requires 0 <= i < |items| => items[i].event)
  }

  function InputFor(snapshot: nat, drained: Option<seq<IngressEvent>>, a: Answers): B.RoundInput {
    B.RoundInput(drained, a.routerAccepts, a.outcome, a.flushed, a.pendingOutbound, snapshot, a.routerStamps)
  }

  /** Where the loop goes after a round: a follow-up round, the top, a wait, or the error wait. */
  function AfterRound(progress: B.Progress, followUp: bool, inCommand: bool): Client {
    match progress
    case Failed(_) => if inCommand then LoopTop else RoundFailed
    case Advanced(report) =>
      if !followUp && report.outcome.nextRoundHint == B.Immediate then RoundStart(true, inCommand) else LoopTop
    case Waiting(state) =>
      if inCommand then LoopTop
      else match B.Decide(state)
           case AdvanceImmediately => LoopTop
           case WaitUntilTick(_) => Deciding(state.notifierSnapshot, true)
           case BlockOnNotifier(snapshot) => Deciding(snapshot, false)
  }

  predicate Asleep(s: System) {
    (s.client.Parked? || s.client.ErrorParked?) && s.client.snapshot == s.generation
  }

  predicate Enabled(s: System, step: Step) {
    match step
    case Push(_) => |s.mailbox| < s.capacity
    case Notify(push) => push in s.unnotified
    case BeginRound => s.client.LoopTop?
    case TakeSnapshot => s.client.RoundStart?
    case DrainMailbox => s.client.Snapshotted?
    case DrainFails(_) => s.client.Snapshotted?
    case FinishRound(_) => s.client.Draining?
    case CheckAndPark => s.client.Deciding? || s.client.RoundFailed?
    case Wake => (s.client.Parked? || s.client.ErrorParked?) && !Asleep(s)
    case TimeOut => (s.client.Parked? && s.client.timed) || s.client.ErrorParked?
    case ServeCommand => s.client.LoopTop? || s.client.Parked? || s.client.ErrorParked?
    case ReturnToTop => s.client.LoopTop? || s.client.Parked? || s.client.ErrorParked?
    case Shutdown => s.client.LoopTop? || s.client.Parked? || s.client.ErrorParked?
  }

  function Next(s: System, step: Step): System
    requires Enabled(s, step)
  {
    match step
    case Push(event) =>
      s.(mailbox := s.mailbox + [Item(s.pushes, event)], unnotified := s.unnotified + {s.pushes},
         pushes := s.pushes + 1)
    case Notify(push) => s.(generation := s.generation + 1, unnotified := s.unnotified - {push})
    case BeginRound => s.(client := RoundStart(false, false))
    case TakeSnapshot => s.(client := Snapshotted(s.generation, s.client.followUp, s.client.inCommand))
    case DrainMailbox =>
      s.(mailbox := [], client := Draining(s.client.snapshot, s.mailbox, s.client.followUp, s.client.inCommand))
    case DrainFails(answers) =>
      var r := B.Round(s.bridge, InputFor(s.client.snapshot, None, answers));
      s.(bridge := r.bridge, client := AfterRound(r.progress, s.client.followUp, s.client.inCommand))
    case FinishRound(answers) =>
      var r := B.Round(s.bridge, InputFor(s.client.snapshot, Some(Events(s.client.items)), answers));
      s.(bridge := r.bridge, client := AfterRound(r.progress, s.client.followUp, s.client.inCommand))
    case CheckAndPark =>
      if s.client.RoundFailed? then s.(client := ErrorParked(s.generation))
      else if s.generation != s.client.snapshot then s.(client := LoopTop)
      else s.(client := Parked(s.client.snapshot, s.client.timed))
    case Wake => s.(client := LoopTop)
    case TimeOut => s.(client := LoopTop)
    case ServeCommand => s.(client := RoundStart(false, true))
    case ReturnToTop => s.(client := LoopTop)
    case Shutdown => s.(client := Stopped)
  }

  ghost predicate IsRun(s: System, steps: seq<Step>, t: System)
    decreases |steps|
  {
    if |steps| == 0 then s == t
    else
      var k := |steps| - 1;
      exists m :: IsRun(s, steps[..k], m) && Enabled(m, steps[k]) && Next(m, steps[k]) == t
  }

  /** The snapshot a later park would use, once the mailbox has been drained under it. */
  function GuardingSnapshot(c: Client): Option<nat> {
    match c
    case Draining(snapshot, _, _, _) => Some(snapshot)
    case Deciding(snapshot, _) => Some(snapshot)
    case Parked(snapshot, _) => Some(snapshot)
    case _ => None
  }

  /** While the generation stands at the snapshot, whatever is in the mailbox has yet to be announced. */
  ghost predicate Guarded(s: System) {
    && B.Idle(s.bridge)
    && (s.client.Snapshotted? || s.client.ErrorParked? ==> s.client.snapshot <= s.generation)
    && match GuardingSnapshot(s.client)
       case None => true
       case Some(snapshot) =>
         snapshot <= s.generation
         && (snapshot == s.generation ==> forall i :: 0 <= i < |s.mailbox| ==> s.mailbox[i].push in s.unnotified)
  }

  lemma StepKeepsGuard(s: System, step: Step)
    requires Guarded(s) && Enabled(s, step)
    ensures Guarded(Next(s, step))
  {
    match step
    case DrainFails(answers) => B.RoundExact(s.bridge, InputFor(s.client.snapshot, None, answers));
    case FinishRound(answers) =>
      B.RoundExact(s.bridge, InputFor(s.client.snapshot, Some(Events(s.client.items)), answers));
    case _ =>
  }

  lemma {:induction false} EveryRunIsGuarded(s: System, steps: seq<Step>, t: System)
    requires Guarded(s) && IsRun(s, steps, t)
    ensures Guarded(t)
    decreases |steps|
  {
    if |steps| > 0 {
      var k := |steps| - 1;
      var m :| IsRun(s, steps[..k], m) && Enabled(m, steps[k]) && Next(m, steps[k]) == t;
      EveryRunIsGuarded(s, steps[..k], m);
      StepKeepsGuard(m, steps[k]);
    }
  }

  /**
   * No lost wake-up. A client asleep after a completed round faces an empty mailbox unless a producer has
   * pushed and not yet notified; that producer's notify is enabled, and any notify wakes the client.
   */
  lemma NoLostWakeUp(capacity: nat, bridge: B.Bridge, steps: seq<Step>, s: System)
    requires B.Idle(bridge) && IsRun(Start(capacity, bridge), steps, s)
    requires s.client.Parked? && Asleep(s)
    ensures s.unnotified == {} ==> s.mailbox == []
    ensures forall i :: 0 <= i < |s.mailbox| ==> Enabled(s, Notify(s.mailbox[i].push))
    ensures forall push :: Enabled(s, Notify(push)) ==> Enabled(Next(s, Notify(push)), Wake)
  {
    EveryRunIsGuarded(Start(capacity, bridge), steps, s);
    if s.mailbox != [] { assert s.mailbox[0].push in s.unnotified; }
  }

  /**
   * A wake, or a timer, leads to a round: from any state in which it is taken the loop begins a round of its own,
   * takes a fresh snapshot and drains the whole mailbox, with nothing in the way.
   */
  lemma WakingDrainsTheMailbox(s: System, step: Step)
    requires Enabled(s, step) && (step.Wake? || step.TimeOut?)
    ensures Enabled(Next(s, step), BeginRound)
    ensures var s2 := Next(Next(s, step), BeginRound);
      Enabled(s2, TakeSnapshot) && Enabled(Next(s2, TakeSnapshot), DrainMailbox)
    ensures var t := Next(Next(Next(Next(s, step), BeginRound), TakeSnapshot), DrainMailbox);
      && t.client == Draining(s.generation, s.mailbox, false, false) && t.mailbox == []
      && t.bridge == s.bridge && t.generation == s.generation && t.unnotified == s.unnotified && t.pushes == s.pushes
  {
  }

  /** So an event pushed and announced while the client sleeps is in the round that follows. */
  lemma SleptOnEventIsDrained(s: System, event: IngressEvent)
    requires Asleep(s) && Enabled(s, Push(event)) && s.pushes !in s.unnotified
    ensures var s1 := Next(s, Push(event));
      && s1.mailbox == s.mailbox + [Item(s.pushes, event)] && Asleep(s1) && Enabled(s1, Notify(s.pushes))
      && var s2 := Next(s1, Notify(s.pushes));
         && s2.unnotified == s.unnotified && Enabled(s2, Wake)
         && var t := Next(Next(Next(Next(s2, Wake), BeginRound), TakeSnapshot), DrainMailbox);
            t.client == Draining(s.generation + 1, s.mailbox + [Item(s.pushes, event)], false, false)
  {
    var s2 := Next(Next(s, Push(event)), Notify(s.pushes));
    assert s.unnotified + {s.pushes} - {s.pushes} == s.unnotified;
    WakingDrainsTheMailbox(s2, Wake);
  }

  /** A command served from the top or from a wait has its round too, and drains the same way. */
  lemma CommandsDrainTheMailbox(s: System)
    requires Enabled(s, ServeCommand)
    ensures var s1 := Next(s, ServeCommand);
      && Enabled(s1, TakeSnapshot) && Enabled(Next(s1, TakeSnapshot), DrainMailbox)
      && Next(Next(s1, TakeSnapshot), DrainMailbox)
         == s.(mailbox := [], client := Draining(s.generation, s.mailbox, false, true))
  {
  }

  /** A drain that fails leaves the mailbox as it is and ends in the error wait, or at the top in a command. */
  lemma FailedDrainKeepsTheMailbox(s: System, answers: Answers)
    requires Enabled(s, DrainFails(answers))
    ensures var t := Next(s, DrainFails(answers));
      && t == s.(bridge := t.bridge, client := if s.client.inCommand then LoopTop else RoundFailed)
      && t.bridge.pending == s.bridge.pending && t.bridge.dropped == s.bridge.dropped
  {
  }

  /** A decided wait parks iff nothing was announced since its snapshot; the error wait parks under a fresh one. */
  lemma ParksExactly(s: System)
    requires Enabled(s, CheckAndPark)
    ensures var t := Next(s, CheckAndPark);
      && t == s.(client := t.client)
      && (s.client.RoundFailed? ==> t.client == ErrorParked(s.generation))
      && (s.client.Deciding? ==>
            t.client == (if s.client.snapshot == s.generation then Parked(s.client.snapshot, s.client.timed)
                         else LoopTop))
  {
  }

  /** A client that stopped does nothing more; producers may still push and notify. */
  lemma StoppedIsStopped(s: System, step: Step)
    requires Enabled(s, Shutdown) && Enabled(Next(s, Shutdown), step)
    ensures step.Push? || step.Notify?
  {
  }

  /** A round in which nothing came, nothing went and nothing changed. */
  predicate Quiet(s: System, answers: Answers) {
    && s.client.Draining? && s.client.items == [] && s.bridge.dropped == 0 && answers.flushed == Some(0)
    && answers.outcome.Some? && !answers.outcome.value.changed
  }

  predicate Fails(s: System, answers: Answers)
    requires s.client.Draining?
  {
    B.RoundFails(s.bridge, InputFor(s.client.snapshot, Some(Events(s.client.items)), answers))
  }

  /**
   * Where the loop goes after a round, told by what the round drained and was answered: into the error wait, into
   * a wait under the snapshot of this round, with a timer for a tick hint, into one follow-up round, or to the top.
   */
  lemma AfterRoundExactly(s: System, answers: Answers)
    requires Guarded(s) && s.client.Draining?
    ensures var t := Next(s, FinishRound(answers));
      var c, r := s.client, B.Round(s.bridge, InputFor(s.client.snapshot, Some(Events(s.client.items)), answers));
      && t == s.(bridge := r.bridge, client := t.client)
      && t.client ==
        if Fails(s, answers) then (if c.inCommand then LoopTop else RoundFailed)
        else if Quiet(s, answers) then
          (match answers.outcome.value.nextRoundHint
           case Immediate => LoopTop
           case WithinTicks(_) =>
             if c.inCommand || answers.pendingOutbound > 0 then LoopTop else Deciding(c.snapshot, true)
           case HostDefault =>
             if c.inCommand || answers.pendingOutbound > 0 then LoopTop else Deciding(c.snapshot, false))
        else if answers.outcome.value.nextRoundHint == B.Immediate && !c.followUp then RoundStart(true, c.inCommand)
        else LoopTop
  {
    var input := InputFor(s.client.snapshot, Some(Events(s.client.items)), answers);
    B.RoundExact(s.bridge, input);
    assert |Events(s.client.items)| == |s.client.items|;
    assert input.drained == Some([]) <==> s.client.items == [];
  }

  /** A client parks without a timer only after a main-loop round, first or follow-up, that drained nothing. */
  lemma ParkFollowsAnEmptyDrain(s: System, answers: Answers)
    requires Guarded(s) && s.client.Draining?
    ensures var t := Next(s, FinishRound(answers));
      t.client.Deciding? ==>
        !s.client.inCommand && s.client.items == [] && t.client.snapshot == s.client.snapshot
        && s.bridge.dropped == 0 && t.bridge.dropped == 0
  {
    var input := InputFor(s.client.snapshot, Some(Events(s.client.items)), answers);
    B.RoundExact(s.bridge, input);
    if Next(s, FinishRound(answers)).client.Deciding? {
      assert input.drained == Some([]);
      assert |Events(s.client.items)| == |s.client.items|;
    }
  }

  // ----- The wait after a failed round -----

  /** The mailbox holds an event that its producer has already announced. */
  ghost predicate HoldsAnnounced(s: System) {
    exists i :: 0 <= i < |s.mailbox| && s.mailbox[i].push !in s.unnotified
  }

  /** Pushes are numbered below the counter. */
  ghost predicate Numbered(s: System) {
    && (forall i :: 0 <= i < |s.mailbox| ==> s.mailbox[i].push < s.pushes)
    && (forall push :: push in s.unnotified ==> push < s.pushes)
  }

  lemma {:induction false} EveryRunIsNumbered(s: System, steps: seq<Step>, t: System)
    requires Numbered(s) && IsRun(s, steps, t)
    ensures Numbered(t)
    decreases |steps|
  {
    if |steps| > 0 {
      var k := |steps| - 1;
      var m :| IsRun(s, steps[..k], m) && Enabled(m, steps[k]) && Next(m, steps[k]) == t;
      EveryRunIsNumbered(s, steps[..k], m);
    }
  }

  ghost predicate ProducersOnly(steps: seq<Step>) {
    forall i :: 0 <= i < |steps| ==> steps[i].Push? || steps[i].Notify?
  }

  /** While only producers move, the client stays where it is, and a standing generation means no announcement. */
  lemma {:induction false} ProducersLeaveTheClient(s: System, steps: seq<Step>, t: System)
    requires Numbered(s) && ProducersOnly(steps) && IsRun(s, steps, t)
    ensures Numbered(t) && t.client == s.client && t.generation >= s.generation
    ensures t.generation == s.generation ==> (HoldsAnnounced(t) <==> HoldsAnnounced(s))
    decreases |steps|
  {
    if |steps| > 0 {
      var k := |steps| - 1;
      var m :| IsRun(s, steps[..k], m) && Enabled(m, steps[k]) && Next(m, steps[k]) == t;
      ProducersLeaveTheClient(s, steps[..k], m);
      if steps[k].Push? { PushAnnouncesNothing(m, steps[k].event); }
    }
  }

  lemma PushAnnouncesNothing(s: System, event: IngressEvent)
    requires Numbered(s) && Enabled(s, Push(event))
    ensures HoldsAnnounced(Next(s, Push(event))) <==> HoldsAnnounced(s)
  {
    var t := Next(s, Push(event));
    if i :| 0 <= i < |s.mailbox| && s.mailbox[i].push !in s.unnotified {
      assert t.mailbox[i] == s.mailbox[i] && t.mailbox[i].push !in t.unnotified;
    }
    if i :| 0 <= i < |t.mailbox| && t.mailbox[i].push !in t.unnotified {
      assert i < |s.mailbox| && t.mailbox[i] == s.mailbox[i];
    }
  }

  /**
   * After a failed round the snapshot is taken late. In every reachable state, a client that goes into the
   * error wait and is still asleep in it after any pushes and notifies sleeps on an announced event if and
   * only if one was in the mailbox when the snapshot was taken; and its timer is armed.
   */
  lemma ErrorWaitSleepsExactly(
    capacity: nat, bridge: B.Bridge, before: seq<Step>, s: System, steps: seq<Step>, t: System)
    requires IsRun(Start(capacity, bridge), before, s) && s.client.RoundFailed?
    requires ProducersOnly(steps) && IsRun(Next(s, CheckAndPark), steps, t)
    requires Asleep(t)
    ensures HoldsAnnounced(t) <==> HoldsAnnounced(s)
    ensures t.client.ErrorParked? && Enabled(t, TimeOut)
  {
    EveryRunIsNumbered(Start(capacity, bridge), before, s);
    ProducersLeaveTheClient(Next(s, CheckAndPark), steps, t);
  }

  /**
   * Of every client asleep in any reachable state: it sleeps on an announced event only in the error wait, never
   * after a completed round.
   */
  lemma OnlyTheErrorWaitOversleeps(capacity: nat, bridge: B.Bridge, steps: seq<Step>, s: System)
    requires B.Idle(bridge) && IsRun(Start(capacity, bridge), steps, s) && Asleep(s)
    ensures HoldsAnnounced(s) ==> s.client.ErrorParked?
  {
    if s.client.Parked? { NoLostWakeUp(capacity, bridge, steps, s); }
  }

  /**
   * Such a sleep happens: an event is announced between the drain and the end of a failing round.
   */
  lemma ErrorWaitReliesOnItsTimer(capacity: nat, bridge: B.Bridge, event: IngressEvent, answers: Answers)
    requires capacity > 0 && answers.outcome == None
    ensures exists steps, s ::
      && IsRun(Start(capacity, bridge), steps, s)
      && s.client.ErrorParked? && Asleep(s) && s.mailbox != [] && s.unnotified == {}
      && Enabled(s, TimeOut)
  {
    var s0 := Start(capacity, bridge);
    var r5, s5 := AnnouncedWhileDraining(capacity, bridge, event);
    var s6 := Next(s5, FinishRound(answers));
    NoOutcomeFails(bridge, InputFor(0, Some(Events([])), answers));
    assert s6.client == RoundFailed;
    Extend(s0, r5, s5, FinishRound(answers));
    var r6 := r5 + [FinishRound(answers)];
    Extend(s0, r6, s6, CheckAndPark);
    var s7 := Next(s6, CheckAndPark);
    assert IsRun(s0, r6 + [CheckAndPark], s7) && s7.client == ErrorParked(1);
  }

  lemma NoOutcomeFails(b: B.Bridge, input: B.RoundInput)
    requires input.drained.Some? && input.outcome == None
    ensures B.Round(b, input).progress.Failed?
  {
  }

  /** A producer pushes and notifies after the drain, before the round ends. */
  lemma AnnouncedWhileDraining(
    capacity: nat, bridge: B.Bridge, event: IngressEvent) returns (steps: seq<Step>, s: System)
    requires capacity > 0
    ensures IsRun(Start(capacity, bridge), steps, s)
    ensures s == System(1, [Item(0, event)], {}, 1, capacity, bridge, Draining(0, [], false, false))
  {
    var s0 := Start(capacity, bridge);
    steps, s := [], s0;
    Extend(s0, steps, s, BeginRound);
    steps, s := steps + [BeginRound], s0.(client := RoundStart(false, false));
    Extend(s0, steps, s, TakeSnapshot);
    steps, s := steps + [TakeSnapshot], s0.(client := Snapshotted(0, false, false));
    Extend(s0, steps, s, DrainMailbox);
    steps, s := steps + [DrainMailbox], s0.(client := Draining(0, [], false, false));
    Extend(s0, steps, s, Push(event));
    steps, s := steps + [Push(event)], s.(mailbox := [Item(0, event)], unnotified := {0}, pushes := 1);
    assert IsRun(s0, steps, s) by { assert [] + [Item(0, event)] == [Item(0, event)]; assert {} + {0} == {0}; }
    Extend(s0, steps, s, Notify(0));
    assert {0} - {0} == {};
    steps, s := steps + [Notify(0)], s.(generation := 1, unnotified := {});
  }

  lemma Extend(s: System, steps: seq<Step>, m: System, step: Step)
    requires IsRun(s, steps, m) && Enabled(m, step)
    ensures IsRun(s, steps + [step], Next(m, step))
  {
    assert (steps + [step])[..|steps|] == steps;
  }
}

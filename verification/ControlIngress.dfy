/** Back-pressure on the ingress mailbox: payloads may be dropped, control events are deferred instead. */
module ControlIngress {
  import opened Observations

  /** The bounded mailbox, the deferred control events, and the histories they are accounted against. */
  datatype Queue = Queue(
    capacity: nat,
    mailbox: seq<IngressEvent>,
    deferred: seq<IngressEvent>,
    emitted: seq<IngressEvent>,
    accepted: seq<IngressEvent>,
    payloads: seq<IngressEvent>,
    drained: seq<IngressEvent>)
  {
    function Free(): int { capacity - |mailbox| }
  }

  function New(capacity: nat): Queue { Queue(capacity, [], [], [], [], [], []) }

  function Min(a: int, b: int): int { if a < b then a else b }

  function EmitControl(q: Queue, event: IngressEvent): Queue {
    if |q.mailbox| < q.capacity
    then q.(mailbox := q.mailbox + [event], accepted := q.accepted + [event], emitted := q.emitted + [event])
    else q.(deferred := q.deferred + [event], emitted := q.emitted + [event])
  }

  function EmitPayload(q: Queue, event: IngressEvent): Queue {
    if |q.mailbox| < q.capacity
    then q.(mailbox := q.mailbox + [event], payloads := q.payloads + [event])
    else q
  }

  function Flush(q: Queue): Queue
    requires |q.mailbox| <= q.capacity
  {
    var k := Min(q.Free(), |q.deferred|);
    q.(mailbox := q.mailbox + q.deferred[..k], accepted := q.accepted + q.deferred[..k], deferred := q.deferred[k..])
  }

  function Drain(q: Queue): Queue {
    q.(mailbox := [], drained := q.drained + q.mailbox)
  }

  datatype Action = Control(event: IngressEvent) | Payload(event: IngressEvent) | FlushDeferred | DrainMailbox

  function Step(q: Queue, action: Action): Queue
    requires |q.mailbox| <= q.capacity
  {
    match action
    case Control(event) => EmitControl(q, event)
    case Payload(event) => EmitPayload(q, event)
    case FlushDeferred => Flush(q)
    case DrainMailbox => Drain(q)
  }

  ghost predicate Conserved(q: Queue) {
    && |q.mailbox| <= q.capacity
    && multiset(q.emitted) == multiset(q.accepted) + multiset(q.deferred)
    && multiset(q.accepted) + multiset(q.payloads) == multiset(q.drained) + multiset(q.mailbox)
  }

  function Run(q: Queue, actions: seq<Action>): (r: Queue)
    requires |q.mailbox| <= q.capacity
    ensures |r.mailbox| <= r.capacity
    decreases |actions|
  {
    if |actions| == 0 then q
    else Step(Run(q, actions[..|actions| - 1]), actions[|actions| - 1])
  }

  lemma RunSnoc(q: Queue, actions: seq<Action>, action: Action)
    requires |q.mailbox| <= q.capacity
    ensures Run(q, actions + [action]) == Step(Run(q, actions), action)
  {
    assert (actions + [action])[..|actions|] == actions;
  }

  lemma {:induction false} RunConserves(q: Queue, actions: seq<Action>)
    requires Conserved(q)
    ensures Conserved(Run(q, actions))
    decreases |actions|
  {
    if |actions| > 0 {
      RunConserves(q, actions[..|actions| - 1]);
      StepConserves(Run(q, actions[..|actions| - 1]), actions[|actions| - 1]);
    }
  }

  /** The emissions of a history, in order. */
  function Emissions(actions: seq<Action>): seq<Action>
    decreases |actions|
  {
    if |actions| == 0 then []
    else
      var earlier, last := Emissions(actions[..|actions| - 1]), actions[|actions| - 1];
      if last.Control? || last.Payload? then earlier + [last] else earlier
  }

  /** A flush or a drain, and how many emissions came before it. */
  datatype Move = Move(action: Action, emissionsBefore: nat)

  function Moves(actions: seq<Action>): seq<Move>
    decreases |actions|
  {
    if |actions| == 0 then []
    else
      var earlier, last := actions[..|actions| - 1], actions[|actions| - 1];
      if last.Control? || last.Payload? then Moves(earlier) else Moves(earlier) + [Move(last, |Emissions(earlier)|)]
  }

  lemma HistorySnoc(actions: seq<Action>, action: Action)
    ensures Emissions(actions + [action])
         == Emissions(actions) + (if action.Control? || action.Payload? then [action] else [])
    ensures Moves(actions + [action]) == Moves(actions)
              + (if action.Control? || action.Payload? then [] else [Move(action, |Emissions(actions)|)])
  {
    assert (actions + [action])[..|actions|] == actions;
  }

  /** What the task emits as a payload is a payload. */
  ghost predicate WellTyped(actions: seq<Action>) {
    forall i :: 0 <= i < |actions| ==> (actions[i].Payload? ==> actions[i].event.PayloadReceived?)
  }

  /** A history is well typed, and emits what it emits, by its emissions alone. */
  lemma {:induction false} EmissionsDecide(actions: seq<Action>)
    ensures ControlsOf(actions) == ControlsOf(Emissions(actions))
    ensures WellTyped(Emissions(actions)) ==> WellTyped(actions)
    decreases |actions|
  {
    if |actions| > 0 {
      var earlier, last := actions[..|actions| - 1], actions[|actions| - 1];
      assert actions == earlier + [last];
      EmissionsDecide(earlier);
      HistorySnoc(earlier, last);
      if last.Control? || last.Payload? {
        var all := Emissions(earlier) + [last];
        assert all[..|all| - 1] == Emissions(earlier);
        if WellTyped(all) {
          forall i | 0 <= i < |Emissions(earlier)|
            ensures Emissions(earlier)[i].Payload? ==> Emissions(earlier)[i].event.PayloadReceived?
          {
            assert all[i] == Emissions(earlier)[i];
          }
          assert all[|all| - 1] == last;
        }
      }
    }
  }

  lemma StepConserves(q: Queue, action: Action)
    requires Conserved(q)
    ensures Conserved(Step(q, action))
  {
    match action
    case Control(event) => ControlConserves(q, event);
    case Payload(event) => PayloadConserves(q, event);
    case FlushDeferred => FlushConserves(q);
    case DrainMailbox => assert multiset(q.drained + q.mailbox) == multiset(q.drained) + multiset(q.mailbox);
  }

  lemma ControlConserves(q: Queue, event: IngressEvent)
    requires Conserved(q)
    ensures Conserved(EmitControl(q, event))
  {
    assert multiset(q.mailbox + [event]) == multiset(q.mailbox) + multiset([event]);
    assert multiset(q.accepted + [event]) == multiset(q.accepted) + multiset([event]);
    assert (multiset(q.accepted) + multiset([event])) + multiset(q.payloads)
        == (multiset(q.drained) + multiset(q.mailbox)) + multiset([event]);
  }

  lemma PayloadConserves(q: Queue, event: IngressEvent)
    requires Conserved(q)
    ensures Conserved(EmitPayload(q, event))
  {
    assert multiset(q.mailbox + [event]) == multiset(q.mailbox) + multiset([event]);
    assert multiset(q.payloads + [event]) == multiset(q.payloads) + multiset([event]);
    assert multiset(q.accepted) + (multiset(q.payloads) + multiset([event]))
        == (multiset(q.drained) + multiset(q.mailbox)) + multiset([event]);
  }

  lemma FlushConserves(q: Queue)
    requires Conserved(q)
    ensures Conserved(Flush(q))
  {
    var moved := q.deferred[..Min(q.Free(), |q.deferred|)];
    var rest := q.deferred[|moved|..];
    assert q.deferred == moved + rest;
    assert multiset(q.deferred) == multiset(moved) + multiset(rest);
    assert multiset(q.mailbox + moved) == multiset(q.mailbox) + multiset(moved);
    assert multiset(q.accepted + moved) == multiset(q.accepted) + multiset(moved);
    assert (multiset(q.accepted) + multiset(moved)) + multiset(q.payloads)
        == (multiset(q.drained) + multiset(q.mailbox)) + multiset(moved);
  }

  /** Control events put in by a history of actions, in order. */
  function ControlsOf(actions: seq<Action>): seq<IngressEvent>
    decreases |actions|
  {
    if |actions| == 0 then []
    else
      var earlier := ControlsOf(actions[..|actions| - 1]);
      if actions[|actions| - 1].Control? then earlier + [actions[|actions| - 1].event] else earlier
  }

  lemma {:induction false} EmittedIsHistory(capacity: nat, actions: seq<Action>)
    ensures Run(New(capacity), actions).emitted == ControlsOf(actions)
    ensures Run(New(capacity), actions).capacity == capacity
    decreases |actions|
  {
    if |actions| > 0 { EmittedIsHistory(capacity, actions[..|actions| - 1]); }
  }

  /**
   * Over any interleaving of emissions, flushes and drains every control event is, exactly once, in the
   * hands of the bridge, in the mailbox or still deferred; payloads only ever take mailbox places.
   */
  lemma ControlEventsAreConserved(capacity: nat, actions: seq<Action>)
    ensures var q := Run(New(capacity), actions);
      && multiset(ControlsOf(actions)) + multiset(q.payloads)
           == multiset(q.drained) + multiset(q.mailbox) + multiset(q.deferred)
      && |q.mailbox| <= capacity
  {
    EmittedIsHistory(capacity, actions);
    var q := Run(New(capacity), actions);
    RunConserves(New(capacity), actions);
    assert multiset(q.emitted) + multiset(q.payloads)
        == (multiset(q.accepted) + multiset(q.payloads)) + multiset(q.deferred);
  }

  /** The bridge drains, then the task flushes. */
  function Round(q: Queue): Queue { Flush(Drain(q)) }

  /** A later queue has accepted more of what was due, from the front, and `left` events are still deferred. */
  predicate Moved(q: Queue, r: Queue, left: nat) {
    && r.capacity == q.capacity && r.emitted == q.emitted
    && r.accepted + r.deferred == q.accepted + q.deferred
    && |r.deferred| == left
  }

  function Less(deferred: nat, moved: nat): nat { if deferred < moved then 0 else deferred - moved }

  lemma RoundMovesDeferred(q: Queue)
    ensures Moved(q, Round(q), Less(|q.deferred|, q.capacity))
  {
    var k := Min(q.capacity, |q.deferred|);
    assert q.deferred == q.deferred[..k] + q.deferred[k..];
    assert (q.accepted + q.deferred[..k]) + q.deferred[k..] == q.accepted + q.deferred;
  }

  function Rounds(q: Queue, rounds: nat): Queue
    decreases rounds
  {
    if rounds == 0 then q else Rounds(Round(q), rounds - 1)
  }

  lemma MovedTwice(q: Queue, m: Queue, r: Queue, left: nat)
    requires Moved(q, m, |m.deferred|) && Moved(m, r, left)
    ensures Moved(q, r, left)
  {
  }

  /** Each drain-and-flush round moves a mailbox-full of deferred events, in deferral order, until none is left. */
  lemma {:induction false} DeferredEventsGetThrough(q: Queue, rounds: nat)
    ensures Moved(q, Rounds(q, rounds), Less(|q.deferred|, rounds * q.capacity))
    decreases rounds
  {
    if rounds > 0 {
      var m := Round(q);
      RoundMovesDeferred(q);
      DeferredEventsGetThrough(m, rounds - 1);
      assert rounds * q.capacity == q.capacity + (rounds - 1) * q.capacity;
      MovedTwice(q, m, Rounds(q, rounds), Less(|q.deferred|, rounds * q.capacity));
    }
  }

  /** A payload takes the last place of the mailbox if there is room, and leaves no trace otherwise; never deferred. */
  lemma PayloadTakesAPlaceExactly(q: Queue, event: IngressEvent)
    ensures var r := EmitPayload(q, event);
      && (|q.mailbox| < q.capacity ==> r.mailbox == q.mailbox + [event] && r.payloads == q.payloads + [event])
      && (|q.mailbox| >= q.capacity ==> r == q)
      && r.deferred == q.deferred && r.emitted == q.emitted && r.accepted == q.accepted && r.drained == q.drained
  {
  }

  /** Acceptance in emission order. */
  ghost predicate InOrder(q: Queue) { q.emitted == q.accepted + q.deferred }

  /** An emission keeps the order exactly when it cannot overtake a different deferred event. */
  lemma OrderKeptExactly(q: Queue, event: IngressEvent)
    requires InOrder(q)
    ensures InOrder(EmitControl(q, event)) <==>
              |q.mailbox| >= q.capacity || forall i :: 0 <= i < |q.deferred| ==> q.deferred[i] == event
  {
    if |q.mailbox| < q.capacity {
      var overtaking := q.accepted + [event] + q.deferred;
      var inOrder := q.accepted + q.deferred + [event];
      if overtaking == inOrder {
        forall i: nat | i < |q.deferred| ensures q.deferred[i] == event {
          ShiftedRun(q.accepted, q.deferred, event, i);
        }
      }
    } else {
      assert q.accepted + (q.deferred + [event]) == q.accepted + q.deferred + [event];
    }
  }

  /** Order is lost: with one place, a second event is deferred and a third, after a drain, overtakes it. */
  lemma EmissionOvertakes(a: IngressEvent, b: IngressEvent, c: IngressEvent)
    requires b != c
    ensures var q := Run(New(1), [Control(a), Control(b), DrainMailbox, Control(c)]);
      q.emitted == [a, b, c] && q.accepted + q.deferred == [a, c, b] && !InOrder(q)
  {
    var start := New(1);
    RunSnoc(start, [], Control(a));
    RunSnoc(start, [Control(a)], Control(b));
    RunSnoc(start, [Control(a), Control(b)], DrainMailbox);
    RunSnoc(start, [Control(a), Control(b), DrainMailbox], Control(c));
    assert [] + [Control(a)] == [Control(a)];
    assert [Control(a)] + [Control(b)] == [Control(a), Control(b)];
    assert [Control(a), Control(b)] + [DrainMailbox] == [Control(a), Control(b), DrainMailbox];
    assert [Control(a), Control(b), DrainMailbox] + [Control(c)] == [Control(a), Control(b), DrainMailbox, Control(c)];
    ThirdOvertakes(a, b, c);
  }

  lemma ThirdOvertakes(a: IngressEvent, b: IngressEvent, c: IngressEvent)
    requires b != c
    ensures var q := EmitControl(Drain(EmitControl(EmitControl(New(1), a), b)), c);
      && q.emitted == [a, b, c] && q.accepted == [a, c] && q.deferred == [b]
      && q.accepted + q.deferred == [a, c, b] && !InOrder(q)
  {
    var q := EmitControl(Drain(EmitControl(EmitControl(New(1), a), b)), c);
    assert q.emitted == [a, b, c] && q.accepted == [a, c] && q.deferred == [b];
    assert q.accepted + q.deferred == [a, c, b];
    assert [a, b, c][1] != [a, c, b][1];
  }

  lemma {:induction false} ShiftedRun(before: seq<IngressEvent>, run: seq<IngressEvent>, event: IngressEvent, i: nat)
    requires before + [event] + run == before + run + [event] && i < |run|
    ensures run[i] == event
  {
    var a, b := before + [event] + run, before + run + [event];
    if i > 0 {
      ShiftedRun(before, run, event, i - 1);
      assert a[|before| + i] == run[i - 1] && b[|before| + i] == run[i];
    } else {
      assert a[|before|] == event && b[|before|] == run[0];
    }
  }

  /** Flushes, drains and payloads never disturb the order. */
  lemma OnlyEmissionsOvertake(q: Queue, action: Action)
    requires InOrder(q) && |q.mailbox| <= q.capacity && !action.Control?
    ensures InOrder(Step(q, action))
  {
    var k := Min(q.Free(), |q.deferred|);
    assert q.deferred == q.deferred[..k] + q.deferred[k..];
  }

  /** The queue as the task holds it. */
  class IngressQueue {
    const capacity: nat
    var mailbox: seq<IngressEvent>
    var deferred: seq<IngressEvent>
    ghost var emitted: seq<IngressEvent>
    ghost var accepted: seq<IngressEvent>
    ghost var payloads: seq<IngressEvent>
    ghost var drained: seq<IngressEvent>
    ghost var actions: seq<Action>

    ghost function State(): Queue
      reads this
    {
      Queue(capacity, mailbox, deferred, emitted, accepted, payloads, drained)
    }

    /** The queue is where the machine above is after what was done to it so far. */
    ghost predicate Valid()
      reads this
    {
      State() == Run(New(capacity), actions)
    }

    constructor (capacity: nat)
      ensures State() == New(capacity) && actions == [] && Valid()
    {
      this.capacity := capacity;
      mailbox, deferred := [], [];
      emitted, accepted, payloads, drained, actions := [], [], [], [], [];
    }

    method EmitControlEvent(event: IngressEvent)
      requires Valid()
      modifies this
      ensures Valid() && State() == EmitControl(old(State()), event)
      ensures Emissions(actions) == old(Emissions(actions)) + [Control(event)]
      ensures Moves(actions) == old(Moves(actions))
    {
      HistorySnoc(actions, Control(event));
      RunSnoc(New(capacity), actions, Control(event));
      actions := actions + [Control(event)];
      emitted := emitted + [event];
      var ok := TryPush(event);
      if ok {
        accepted := accepted + [event];
      } else {
        deferred := deferred + [event];
      }
    }

    method EmitPayloadEvent(event: IngressEvent)
      requires Valid()
      modifies this
      ensures Valid() && State() == EmitPayload(old(State()), event)
      ensures Emissions(actions) == old(Emissions(actions)) + [Payload(event)]
      ensures Moves(actions) == old(Moves(actions))
    {
      HistorySnoc(actions, Payload(event));
      RunSnoc(New(capacity), actions, Payload(event));
      actions := actions + [Payload(event)];
      var ok := TryPush(event);
      if ok {
        payloads := payloads + [event];
      }
    }

    /** A full mailbox refuses the event and enqueues nothing. */
    method TryPush(event: IngressEvent) returns (ok: bool)
      modifies this`mailbox
      ensures ok == (|old(mailbox)| < capacity)
      ensures mailbox == if ok then old(mailbox) + [event] else old(mailbox)
    {
      ok := |mailbox| < capacity;
      if ok { mailbox := mailbox + [event]; }
    }

    method FlushDeferredControlIngress()
      requires Valid()
      modifies this
      ensures Valid() && State() == Flush(old(State()))
      ensures Emissions(actions) == old(Emissions(actions))
      ensures Moves(actions) == old(Moves(actions)) + [Move(FlushDeferred, |old(Emissions(actions))|)]
    {
      MoveDeferred();
      HistorySnoc(actions, FlushDeferred);
      RunSnoc(New(capacity), actions, FlushDeferred);
      actions := actions + [FlushDeferred];
    }

    /** Pops the oldest deferred event and puts it back at the front when the mailbox refuses it. */
    method MoveDeferred()
      requires |mailbox| <= capacity
      modifies this`mailbox, this`deferred, this`accepted
      ensures State() == Flush(old(State()))
    {
      ghost var due, boxed, taken := deferred, mailbox, accepted;
      ghost var k := 0;
      while deferred != []
        invariant 0 <= k <= |due| && deferred == due[k..]
        invariant mailbox == boxed + due[..k] && |mailbox| <= capacity
        invariant accepted == taken + due[..k]
        decreases |deferred|
      {
        var event := deferred[0];
        assert due[k..] == [event] + due[k + 1..] && due[..k + 1] == due[..k] + [event];
        deferred := deferred[1..];
        var ok := TryPush(event);
        if !ok {
          deferred := [event] + deferred;
          break;
        }
        accepted := accepted + [event];
        k := k + 1;
      }
      assert k == Min(capacity - |boxed|, |due|);
    }

    method DrainTransportIngress() returns (events: seq<IngressEvent>)
      requires Valid()
      modifies this
      ensures Valid() && events == old(mailbox) && State() == Drain(old(State()))
      ensures Emissions(actions) == old(Emissions(actions))
      ensures Moves(actions) == old(Moves(actions)) + [Move(DrainMailbox, |old(Emissions(actions))|)]
    {
      HistorySnoc(actions, DrainMailbox);
      RunSnoc(New(capacity), actions, DrainMailbox);
      actions := actions + [DrainMailbox];
      events := mailbox;
      drained := drained + mailbox;
      mailbox := [];
    }
  }
}

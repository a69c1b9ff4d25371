/** One node's relay work: bounded concurrency, bounded retries, and exactly one ending for every frame. */
module RelayPump {

  const RELAY_INFLIGHT_MAX: nat := 64

  datatype TransportError = Unavailable | TimedOut | OtherTransport

  datatype RouteError = NoCandidate | OtherSelection | RouteTransport(error: TransportError) | OtherRoute

  datatype BridgeError = BridgeRoute(route: RouteError) | BridgeTransport(transport: TransportError)

  datatype ClientError =
    | ClientRoute(route: RouteError)
    | ClientTransport(transport: TransportError)
    | ClientBridge(bridge: BridgeError)
    | OtherClientError

  datatype SendResult = SendOk | SendErr(error: ClientError)

  predicate Passing(error: TransportError) { error == Unavailable || error == TimedOut }

  predicate RelayRetryable(error: ClientError) {
    match error
    case ClientRoute(NoCandidate) => true
    case ClientRoute(RouteTransport(transport)) => Passing(transport)
    case ClientTransport(transport) => Passing(transport)
    case ClientBridge(BridgeRoute(RouteTransport(transport))) => Passing(transport)
    case ClientBridge(BridgeTransport(transport)) => Passing(transport)
    case _ => false
  }

  /** Exactly nine errors are worth another try. */
  lemma RetryableErrors(error: ClientError)
    ensures RelayRetryable(error) <==> error in {
      ClientRoute(NoCandidate),
      ClientRoute(RouteTransport(Unavailable)), ClientRoute(RouteTransport(TimedOut)),
      ClientTransport(Unavailable), ClientTransport(TimedOut),
      ClientBridge(BridgeRoute(RouteTransport(Unavailable))), ClientBridge(BridgeRoute(RouteTransport(TimedOut))),
      ClientBridge(BridgeTransport(Unavailable)), ClientBridge(BridgeTransport(TimedOut)) }
  {
  }

  /** Whether the result of try `attempt` (counted from 0) lets the relay try again. */
  predicate TriesAgain(result: SendResult, attempt: nat, maxAttempts: nat) {
    result.SendErr? && RelayRetryable(result.error) && attempt + 1 < maxAttempts
  }

  /** Sends until success, a final error or the last attempt; `answers` is what the client replies to each try. */
  method RelayFramedPayload(answers: nat -> SendResult, maxAttempts: nat) returns (delivered: bool, tries: nat)
    ensures tries <= maxAttempts
    ensures tries == 0 <==> maxAttempts == 0
    ensures forall a :: 0 <= a < tries - 1 ==> TriesAgain(answers(a), a, maxAttempts)
    ensures tries > 0 ==> !TriesAgain(answers(tries - 1), tries - 1, maxAttempts)
    ensures delivered <==> tries > 0 && answers(tries - 1) == SendOk
  {
    for attempt := 0 to maxAttempts
      invariant attempt > 0 ==> attempt < maxAttempts
      invariant forall a :: 0 <= a < attempt ==> TriesAgain(answers(a), a, maxAttempts)
    {
      var result := answers(attempt);
      if result == SendOk {
        return true, attempt + 1;
      }
      if !(RelayRetryable(result.error) && attempt + 1 < maxAttempts) {
        return false, attempt + 1;
      }
    }
    return false, 0;
  }

  datatype Ending = Delivered | Dropped

  /** What the relays of a node did, in order. */
  datatype Entry = Tried(relay: nat, ok: bool) | ReportedDrop(relay: nat)

  /** `waiting`: the pump holds a transit frame and waits for a permit; `running` counts tries so far. */
  datatype Pump = Pump(
    maxAttempts: nat, permits: nat, waiting: bool, started: nat, running: map<nat, nat>, ended: map<nat, Ending>,
    log: seq<Entry>)

  function Fresh(maxAttempts: nat): Pump { Pump(maxAttempts, RELAY_INFLIGHT_MAX, false, 0, map[], map[], []) }

  datatype Step =
    | TakeTransitFrame
    | AcquirePermit
    | TrySend(relay: nat, result: SendResult)
    | GiveUpUntried(relay: nat)

  predicate Enabled(p: Pump, step: Step) {
    match step
    case TakeTransitFrame => !p.waiting
    case AcquirePermit => p.waiting && p.permits > 0
    case TrySend(relay, _) => relay in p.running && p.maxAttempts > 0
    case GiveUpUntried(relay) => relay in p.running && p.maxAttempts == 0
  }

  /** What a relay's last step logs. */
  function LastEntries(relay: nat, ending: Ending, entries: seq<Entry>): seq<Entry> {
    entries + if ending == Dropped then [ReportedDrop(relay)] else []
  }

  function End(p: Pump, relay: nat, ending: Ending, entries: seq<Entry>): Pump {
    p.(running := p.running - {relay}, ended := p.ended[relay := ending], permits := p.permits + 1,
       log := p.log + LastEntries(relay, ending, entries))
  }

  /** A step that is not enabled does not happen. */
  function Next(p: Pump, step: Step): Pump {
    if Enabled(p, step) then Taken(p, step) else p
  }

  function Taken(p: Pump, step: Step): Pump
    requires Enabled(p, step)
  {
    match step
    case TakeTransitFrame => p.(waiting := true)
    case AcquirePermit =>
      p.(waiting := false, permits := p.permits - 1, running := p.running[p.started := 0], started := p.started + 1)
    case TrySend(relay, result) =>
      var tried := Tried(relay, result == SendOk);
      if result == SendOk then End(p, relay, Delivered, [tried])
      else if TriesAgain(result, p.running[relay], p.maxAttempts)
      then p.(running := p.running[relay := p.running[relay] + 1], log := p.log + [tried])
      else End(p, relay, Dropped, [tried])
    case GiveUpUntried(relay) => End(p, relay, Dropped, [])
  }

  function Run(maxAttempts: nat, steps: seq<Step>): Pump
    decreases |steps|
  {
    if |steps| == 0 then Fresh(maxAttempts) else Next(Run(maxAttempts, steps[..|steps| - 1]), steps[|steps| - 1])
  }

  function Count(log: seq<Entry>, entry: Entry): nat { multiset(log)[entry] }

  function Tries(log: seq<Entry>, relay: nat): nat { Count(log, Tried(relay, true)) + Count(log, Tried(relay, false)) }

  /** Counts of successful sends, failed sends and drop reports that fit the status of a relay. */
  predicate StatusFits(p: Pump, relay: nat, sent: nat, failed: nat, reports: nat) {
    if relay in p.running then
      relay < p.started && relay !in p.ended && sent == 0 && reports == 0 && failed == p.running[relay]
      && (p.maxAttempts > 0 ==> failed < p.maxAttempts) && (p.maxAttempts == 0 ==> failed == 0)
    else if relay in p.ended then
      relay < p.started && sent + failed <= p.maxAttempts
      && sent == (if p.ended[relay] == Delivered then 1 else 0)
      && reports == (if p.ended[relay] == Dropped then 1 else 0)
    else relay >= p.started && sent == 0 && failed == 0 && reports == 0
  }

  /** The log says of a relay what its status says. */
  ghost predicate Accounted(p: Pump, relay: nat) {
    StatusFits(p, relay, Count(p.log, Tried(relay, true)), Count(p.log, Tried(relay, false)),
               Count(p.log, ReportedDrop(relay)))
  }

  ghost predicate Bounded(p: Pump) {
    p.permits + |p.running| == RELAY_INFLIGHT_MAX && forall relay: nat :: Accounted(p, relay)
  }

  lemma Logged(log: seq<Entry>, more: seq<Entry>, entry: Entry)
    ensures Count(log + more, entry) == Count(log, entry) + Count(more, entry)
  {
  }

  lemma Removed(m: map<nat, nat>, relay: nat)
    requires relay in m
    ensures |m - {relay}| == |m| - 1
  {
    var rest := m - {relay};
    assert rest.Keys == m.Keys - {relay};
    assert |rest| == |rest.Keys| && |m| == |m.Keys|;
  }

  lemma EndKeepsAccount(p: Pump, relay: nat, ending: Ending, entries: seq<Entry>)
    requires Bounded(p) && relay in p.running
    requires p.maxAttempts == 0 ==> entries == [] && ending == Dropped
    requires p.maxAttempts > 0 ==> entries == [Tried(relay, ending == Delivered)]
    ensures Bounded(End(p, relay, ending, entries))
  {
    Removed(p.running, relay);
    forall r: nat ensures Accounted(End(p, relay, ending, entries), r) {
      assert Accounted(p, r) && Accounted(p, relay);
      EndAccounts(p, relay, ending, entries, r);
    }
  }

  lemma EndAccounts(p: Pump, relay: nat, ending: Ending, entries: seq<Entry>, r: nat)
    requires relay in p.running && Accounted(p, relay) && Accounted(p, r)
    requires p.maxAttempts == 0 ==> entries == [] && ending == Dropped
    requires p.maxAttempts > 0 ==> entries == [Tried(relay, ending == Delivered)]
    ensures Accounted(End(p, relay, ending, entries), r)
  {
    var more := LastEntries(relay, ending, entries);
    LoggedOf(p.log, more, r);
    EndingLogged(relay, ending, entries, r);
  }

  lemma LoggedOf(log: seq<Entry>, more: seq<Entry>, r: nat)
    ensures Count(log + more, Tried(r, true)) == Count(log, Tried(r, true)) + Count(more, Tried(r, true))
    ensures Count(log + more, Tried(r, false)) == Count(log, Tried(r, false)) + Count(more, Tried(r, false))
    ensures Count(log + more, ReportedDrop(r)) == Count(log, ReportedDrop(r)) + Count(more, ReportedDrop(r))
  {
    Logged(log, more, Tried(r, true));
    Logged(log, more, Tried(r, false));
    Logged(log, more, ReportedDrop(r));
  }

  lemma EndingLogged(relay: nat, ending: Ending, entries: seq<Entry>, r: nat)
    requires (entries == [] && ending == Dropped) || entries == [Tried(relay, ending == Delivered)]
    ensures var more := LastEntries(relay, ending, entries);
      && (r != relay ==> Tries(more, r) == 0 && Count(more, ReportedDrop(r)) == 0)
      && Count(more, Tried(relay, true)) == (if ending == Delivered then 1 else 0)
      && Count(more, Tried(relay, false)) == (if ending == Dropped && entries != [] then 1 else 0)
      && Count(more, ReportedDrop(relay)) == (if ending == Dropped then 1 else 0)
  {
  }

  lemma AcquireKeepsAccount(p: Pump)
    requires Bounded(p) && Enabled(p, AcquirePermit)
    ensures Bounded(Taken(p, AcquirePermit))
  {
    var p' := Taken(p, AcquirePermit);
    assert Accounted(p, p.started);
    assert |p'.running| == |p.running| + 1;
    forall r: nat ensures Accounted(p', r) { assert Accounted(p, r); }
  }

  lemma RetryKeepsAccount(p: Pump, relay: nat)
    requires Bounded(p) && relay in p.running && p.running[relay] + 1 < p.maxAttempts
    ensures Bounded(p.(running := p.running[relay := p.running[relay] + 1], log := p.log + [Tried(relay, false)]))
  {
    var p' := p.(running := p.running[relay := p.running[relay] + 1], log := p.log + [Tried(relay, false)]);
    assert p'.running.Keys == p.running.Keys;
    assert |p'.running| == |p'.running.Keys| && |p.running| == |p.running.Keys|;
    forall r: nat ensures Accounted(p', r) {
      assert Accounted(p, r);
      Logged(p.log, [Tried(relay, false)], Tried(r, true));
      Logged(p.log, [Tried(relay, false)], Tried(r, false));
      Logged(p.log, [Tried(relay, false)], ReportedDrop(r));
    }
  }

  lemma StepKeepsAccount(p: Pump, step: Step)
    requires Bounded(p)
    ensures Bounded(Next(p, step))
  {
    if Enabled(p, step) {
      match step
      case TakeTransitFrame =>
        forall r: nat ensures Accounted(Next(p, step), r) { assert Accounted(p, r); }
      case AcquirePermit => AcquireKeepsAccount(p);
      case TrySend(relay, result) =>
        if result != SendOk && TriesAgain(result, p.running[relay], p.maxAttempts) {
          RetryKeepsAccount(p, relay);
        } else {
          EndKeepsAccount(p, relay, if result == SendOk then Delivered else Dropped, [Tried(relay, result == SendOk)]);
        }
      case GiveUpUntried(relay) => EndKeepsAccount(p, relay, Dropped, []);
    }
  }

  /**
   * Over any run: at most 64 relays at once, at most maxAttempts tries each, and a finished relay has
   * exactly one successful send and no report, or no successful send and exactly one report.
   */
  lemma {:induction false} RelaysAreAccounted(maxAttempts: nat, steps: seq<Step>)
    ensures var p := Run(maxAttempts, steps);
      && Bounded(p) && p.maxAttempts == maxAttempts && |p.running| <= RELAY_INFLIGHT_MAX
    decreases |steps|
  {
    if |steps| == 0 {
      forall r: nat ensures Accounted(Fresh(maxAttempts), r) {}
    } else {
      RelaysAreAccounted(maxAttempts, steps[..|steps| - 1]);
      StepKeepsAccount(Run(maxAttempts, steps[..|steps| - 1]), steps[|steps| - 1]);
    }
  }

  lemma {:induction false} EveryTakenFrameEndsOnce(maxAttempts: nat, steps: seq<Step>, relay: nat)
    ensures var p := Run(maxAttempts, steps);
      && Tries(p.log, relay) <= maxAttempts
      && Count(p.log, Tried(relay, true)) + Count(p.log, ReportedDrop(relay)) == (if relay in p.ended then 1 else 0)
      && (relay < p.started <==> relay in p.running || relay in p.ended)
  {
    RelaysAreAccounted(maxAttempts, steps);
    assert Accounted(Run(maxAttempts, steps), relay);
  }

  /** The pump is held up only while all permits are out, and any relay that ends gives one back. */
  lemma BlockedOnlyByRunningRelays(maxAttempts: nat, steps: seq<Step>)
    requires Run(maxAttempts, steps).waiting
    ensures !Enabled(Run(maxAttempts, steps), AcquirePermit) <==>
            |Run(maxAttempts, steps).running| == RELAY_INFLIGHT_MAX
  {
    RelaysAreAccounted(maxAttempts, steps);
  }

  /**
   * What one try does: a success ends the relay as delivered; a retryable failure with tries left keeps it running,
   * permit and all; any other failure ends it as dropped, with a report. An ending gives the permit back.
   */
  lemma TryOutcome(p: Pump, relay: nat, result: SendResult)
    requires Enabled(p, TrySend(relay, result))
    ensures var p' := Next(p, TrySend(relay, result));
      var again := result.SendErr? && RelayRetryable(result.error) && p.running[relay] + 1 < p.maxAttempts;
      && (result == SendOk ==> p'.ended == p.ended[relay := Delivered] && p'.log == p.log + [Tried(relay, true)])
      && (again ==> p'.ended == p.ended && p'.log == p.log + [Tried(relay, false)]
                    && p'.running == p.running[relay := p.running[relay] + 1] && p'.permits == p.permits)
      && (result != SendOk && !again ==>
            p'.ended == p.ended[relay := Dropped] && p'.log == p.log + [Tried(relay, false), ReportedDrop(relay)])
      && (!again ==> p'.running == p.running - {relay} && p'.permits == p.permits + 1)
      && p'.started == p.started && p'.waiting == p.waiting
  {
  }

  /** A frame taken waits for a permit, and with one becomes the next relay, no try made yet. */
  lemma TakenFrameStarts(p: Pump)
    requires Enabled(p, TakeTransitFrame) && p.permits > 0
    ensures var held := Next(p, TakeTransitFrame);
      && held == p.(waiting := true) && Enabled(held, AcquirePermit)
      && Next(held, AcquirePermit)
         == p.(permits := p.permits - 1, started := p.started + 1, running := p.running[p.started := 0])
  {
  }

  /** With no tries allowed a relay is reported dropped untried. */
  lemma UntriedIsReported(p: Pump, relay: nat)
    requires relay in p.running && p.maxAttempts == 0
    ensures Enabled(p, GiveUpUntried(relay))
    ensures Next(p, GiveUpUntried(relay)) ==
              p.(running := p.running - {relay}, ended := p.ended[relay := Dropped], permits := p.permits + 1,
                 log := p.log + [ReportedDrop(relay)])
  {
  }
}

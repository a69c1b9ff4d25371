/** The startup ladder: L2CAP listener, then GATT service, then advertising; scanning stands apart. */
module Startup {
  import opened Identity

  datatype StartupStep = Pending | WaitingForPower | Retry | Started | Unsupported

  datatype StartResult = StartOk | AlreadyAdvertising | StartFailed

  datatype ListenerResult = Listening(psm: nat) | NotSupported | ListenFailed

  function FromStartResult(result: StartResult): StartupStep {
    match result
    case StartOk => Started
    case AlreadyAdvertising => Started
    case StartFailed => Retry
  }

  /** How the service in place came to be: restored by the platform, or added with the PSM it carries. */
  datatype Registration = NotRegistered | Restored | Added(psm: Option<nat>)

  datatype Ladder = Ladder(
    l2capListener: StartupStep,
    gattService: StartupStep,
    advertising: StartupStep,
    scan: StartupStep,
    localPsm: Option<nat>,
    service: Registration)

  const Cold := Ladder(Pending, Pending, Pending, Pending, None, NotRegistered)

  /** Everything the platform answers during one startup attempt. */
  datatype Attempt = Attempt(
    peripheralPowered: bool, listener: ListenerResult, addService: StartResult, advertise: StartResult,
    centralPowered: bool, startScan: StartResult)

  datatype Event =
    | CentralPower(powered: bool, attempt: Attempt)
    | PeripheralPower(powered: bool, attempt: Attempt)
    | RetryTimer(attempt: Attempt)

  function CentralPowerChanged(l: Ladder, powered: bool): Ladder {
    l.(scan := if powered then Pending else WaitingForPower)
  }

  function PeripheralPowerChanged(l: Ladder, powered: bool): Ladder {
    var next := if powered then Pending else WaitingForPower;
    l.(l2capListener := if l.l2capListener == Unsupported then Unsupported else next,
       gattService := next, advertising := next)
  }

  predicate RetryDue(l: Ladder) {
    Retry in [l.l2capListener, l.gattService, l.advertising, l.scan]
  }

  function TryListener(l: Ladder, result: ListenerResult): Ladder {
    if l.l2capListener == Started || l.l2capListener == Unsupported || l.l2capListener == WaitingForPower then l
    else match result
         case Listening(psm) => l.(localPsm := Some(psm), l2capListener := Started)
         case NotSupported => l.(l2capListener := Unsupported)
         case ListenFailed => l.(l2capListener := Retry)
  }

  /** `restored` says the platform already holds the Jacquard service. */
  function TryService(l: Ladder, restored: bool, result: StartResult): Ladder {
    if || l.gattService == Started || l.gattService == WaitingForPower
       || l.l2capListener == Pending || l.l2capListener == Retry
    then l
    else if restored then l.(gattService := Started, service := Restored)
    else
      var step := FromStartResult(result);
      l.(gattService := step, service := if step == Started then Added(l.localPsm) else l.service)
  }

  function TryAdvertising(l: Ladder, result: StartResult): Ladder {
    if l.advertising == Started || l.advertising == WaitingForPower || l.gattService != Started then l
    else l.(advertising := FromStartResult(result))
  }

  function TryScan(l: Ladder, result: StartResult): Ladder {
    if l.scan == Started || l.scan == WaitingForPower then l else l.(scan := FromStartResult(result))
  }

  function TryStartup(l: Ladder, restored: bool, a: Attempt): Ladder {
    var l1 := if a.peripheralPowered
              then TryAdvertising(TryService(TryListener(l, a.listener), restored, a.addService), a.advertise)
              else PeripheralPowerChanged(l, false);
    if a.centralPowered then TryScan(l1, a.startScan) else CentralPowerChanged(l1, false)
  }

  function OnEvent(l: Ladder, restored: bool, event: Event): Ladder {
    match event
    case CentralPower(powered, attempt) =>
      var l1 := CentralPowerChanged(l, powered);
      if powered then TryStartup(l1, restored, attempt) else l1
    case PeripheralPower(powered, attempt) =>
      var l1 := PeripheralPowerChanged(l, powered);
      if powered then TryStartup(l1, restored, attempt) else l1
    case RetryTimer(attempt) =>
      if RetryDue(l) then TryStartup(l, restored, attempt) else l
  }

  /** A run: the first attempt, then events; the retry timer is armed only while a retry is due. */
  function Run(restored: bool, first: Attempt, events: seq<Event>): Ladder
    decreases |events|
  {
    if |events| == 0 then TryStartup(Cold, restored, first)
    else OnEvent(Run(restored, first, events[..|events| - 1]), restored, events[|events| - 1])
  }

  // ----- What holds between handlers -----

  /** Each rung stands on the one below it. */
  predicate Ordered(l: Ladder) {
    && (l.advertising == Started ==> l.gattService == Started)
    && (l.gattService == Started ==> l.l2capListener == Started || l.l2capListener == Unsupported)
    && (l.l2capListener == Pending || l.l2capListener == Retry ==> l.gattService == Pending)
    && (l.gattService == Pending || l.gattService == Retry ==> l.advertising == Pending)
    && (l.l2capListener == WaitingForPower ==> l.gattService == WaitingForPower)
    && (l.gattService == WaitingForPower <==> l.advertising == WaitingForPower)
    && (l.gattService == WaitingForPower ==> l.l2capListener == WaitingForPower || l.l2capListener == Unsupported)
    && l.gattService != Unsupported && l.advertising != Unsupported && l.scan != Unsupported
  }

  /** The service in place carries the PSM on record, and there is one while the listener is up. */
  predicate ServiceCurrent(l: Ladder, restored: bool) {
    && (l.gattService == Started ==> l.service == if restored then Restored else Added(l.localPsm))
    && (l.l2capListener == Started ==> l.localPsm.Some?)
  }

  /** No step is left Pending unless a step below it is up for retry. */
  predicate Settled(l: Ladder) {
    && l.l2capListener != Pending && l.scan != Pending
    && (l.gattService == Pending ==> l.l2capListener == Retry)
    && (l.advertising == Pending ==> l.l2capListener == Retry || l.gattService == Retry)
  }

  lemma AttemptSettles(l: Ladder, restored: bool, a: Attempt)
    requires Ordered(l) && ServiceCurrent(l, restored)
    ensures var l' := TryStartup(l, restored, a); Ordered(l') && ServiceCurrent(l', restored) && Settled(l')
  {
    var l1 := TryListener(l, a.listener);
    assert Ordered(l1) && ServiceCurrent(l1, restored);
    var l2 := TryService(l1, restored, a.addService);
    assert Ordered(l2) && ServiceCurrent(l2, restored);
  }

  /** Through any power events, outcomes and retries the ladder is in order, current and never stalled on Pending. */
  lemma {:induction false} EveryRunIsInOrder(restored: bool, first: Attempt, events: seq<Event>)
    ensures var l := Run(restored, first, events);
      && Ordered(l) && ServiceCurrent(l, restored) && Settled(l)
      && (l.l2capListener == Pending || l.gattService == Pending || l.advertising == Pending || l.scan == Pending
          ==> RetryDue(l))
    decreases |events|
  {
    if |events| == 0 {
      AttemptSettles(Cold, restored, first);
    } else {
      var l := Run(restored, first, events[..|events| - 1]);
      var event := events[|events| - 1];
      EveryRunIsInOrder(restored, first, events[..|events| - 1]);
      match event
      case CentralPower(powered, attempt) =>
        if powered { AttemptSettles(CentralPowerChanged(l, true), restored, attempt); }
      case PeripheralPower(powered, attempt) =>
        if powered { AttemptSettles(PeripheralPowerChanged(l, true), restored, attempt); }
      case RetryTimer(attempt) =>
        AttemptSettles(l, restored, attempt);
    }
    RetryListed(Run(restored, first, events));
  }

  lemma RetryListed(l: Ladder)
    ensures RetryDue(l) <==>
              l.l2capListener == Retry || l.gattService == Retry || l.advertising == Retry || l.scan == Retry
  {
    var steps := [l.l2capListener, l.gattService, l.advertising, l.scan];
    assert steps[0] == l.l2capListener && steps[1] == l.gattService && steps[2] == l.advertising && steps[3] == l.scan;
  }

  /** A retry in which the platform answers well completes the ladder, unless a step waits for power. */
  lemma {:induction false} GoodRetryCompletes(restored: bool, first: Attempt, events: seq<Event>, a: Attempt)
    requires a.peripheralPowered && a.centralPowered && a.listener != ListenFailed
    requires a.addService != StartFailed && a.advertise != StartFailed && a.startScan != StartFailed
    ensures var l := Run(restored, first, events);
      var l' := TryStartup(l, restored, a);
      && (l'.scan == if l.scan == WaitingForPower then WaitingForPower else Started)
      && (l.gattService != WaitingForPower ==>
            (l'.l2capListener == Started || l'.l2capListener == Unsupported)
            && l'.gattService == Started && l'.advertising == Started)
  {
    EveryRunIsInOrder(restored, first, events);
    var l2 := TryService(TryListener(Run(restored, first, events), a.listener), restored, a.addService);
    assert l2.gattService == Started || l2.gattService == WaitingForPower;
  }

  lemma AttemptWaiting(l: Ladder, restored: bool, a: Attempt)
    requires Ordered(l)
    ensures var l' := TryStartup(l, restored, a);
      && (l'.gattService == WaitingForPower <==> !a.peripheralPowered || l.gattService == WaitingForPower)
      && (l'.scan == WaitingForPower <==> !a.centralPowered || l.scan == WaitingForPower)
  {
    var l1 := TryService(TryListener(l, a.listener), restored, a.addService);
    assert l1.gattService == WaitingForPower <==> l.gattService == WaitingForPower;
  }

  /**
   * An attempt leaves a side waiting for power if and only if it reads that adapter as off or the side waited
   * before.
   */
  lemma {:induction false} AttemptParksExactly(restored: bool, first: Attempt, events: seq<Event>, a: Attempt)
    ensures var l := Run(restored, first, events);
      var l' := TryStartup(l, restored, a);
      && (l'.gattService == WaitingForPower <==> !a.peripheralPowered || l.gattService == WaitingForPower)
      && (l'.scan == WaitingForPower <==> !a.centralPowered || l.scan == WaitingForPower)
      && (l'.gattService == WaitingForPower ==>
            l'.advertising == WaitingForPower
            && (l'.l2capListener == WaitingForPower || l'.l2capListener == Unsupported))
  {
    EveryRunIsInOrder(restored, first, events);
    AttemptWaiting(Run(restored, first, events), restored, a);
    AttemptSettles(Run(restored, first, events), restored, a);
  }

  predicate Asked(step: StartupStep) { step == Pending || step == Retry }

  /** What the answer to a start makes of the step: it runs on success, also if it ran already, and is retried else. */
  predicate Answered(step: StartupStep, result: StartResult) {
    (step == Started <==> result != StartFailed) && (step == Retry <==> result == StartFailed)
  }

  /** What the answer to the listener makes of it; a listener that is up has its PSM on record. */
  predicate ListenerAnswered(before: Ladder, after: Ladder, result: ListenerResult) {
    && (after.l2capListener == Started <==> result.Listening?)
    && (after.l2capListener == Unsupported <==> result.NotSupported?)
    && (after.l2capListener == Retry <==> result.ListenFailed?)
    && after.localPsm == (if result.Listening? then Some(result.psm) else before.localPsm)
  }

  /** What a powered attempt makes of each peripheral step: asked for and answered, or left alone. */
  ghost predicate PeripheralOutcomes(l: Ladder, l': Ladder, restored: bool, a: Attempt) {
    var below := l'.l2capListener == Started || l'.l2capListener == Unsupported;
    && (if Asked(l.l2capListener) then ListenerAnswered(l, l', a.listener)
        else l'.l2capListener == l.l2capListener && l'.localPsm == l.localPsm)
    && (if !Asked(l.gattService) || !below then l'.gattService == l.gattService && l'.service == l.service
        else if restored then l'.gattService == Started && l'.service == Restored
        else Answered(l'.gattService, a.addService)
             && l'.service == (if l'.gattService == Started then Added(l'.localPsm) else l.service))
    && (if Asked(l.advertising) && l'.gattService == Started then Answered(l'.advertising, a.advertise)
        else l'.advertising == l.advertising)
  }

  lemma AttemptOutcomes(l: Ladder, restored: bool, a: Attempt)
    requires Ordered(l)
    ensures var l' := TryStartup(l, restored, a);
      && (a.peripheralPowered ==> PeripheralOutcomes(l, l', restored, a))
      && (!a.peripheralPowered ==> l'.service == l.service && l'.localPsm == l.localPsm)
      && (a.centralPowered ==> if Asked(l.scan) then Answered(l'.scan, a.startScan) else l'.scan == l.scan)
  {
  }

  /** An adapter that comes back asks for everything on its side again, an unsupported listener excepted. */
  ghost predicate AskedAgain(l: Ladder, l1: Ladder, event: Event) {
    match event
    case PeripheralPower(_, _) =>
      && l1.gattService == l1.advertising == Pending
      && l1.l2capListener == (if l.l2capListener == Unsupported then Unsupported else Pending)
      && l1.scan == l.scan && l1.localPsm == l.localPsm && l1.service == l.service
    case CentralPower(_, _) =>
      && l1.scan == Pending && l1.gattService == l.gattService && l1.advertising == l.advertising
      && l1.l2capListener == l.l2capListener && l1.localPsm == l.localPsm && l1.service == l.service
    case RetryTimer(_) => l1 == l
  }

  /**
   * What every event of every run makes of every step: an event that attempts nothing leaves the steps of the other
   * side alone; one that attempts has each step it asks for, again if the adapter came back, decided by its answer.
   */
  lemma {:induction false} EventOutcomes(restored: bool, first: Attempt, events: seq<Event>, event: Event)
    returns (l1: Ladder)
    ensures var l, l', a := Run(restored, first, events), Run(restored, first, events + [event]), event.attempt;
      && (Attempts(l, event) ==>
            && AskedAgain(l, l1, event)
            && (a.peripheralPowered ==> PeripheralOutcomes(l1, l', restored, a))
            && (a.centralPowered ==> if Asked(l1.scan) then Answered(l'.scan, a.startScan) else l'.scan == l1.scan))
      && (!Attempts(l, event) ==>
            && l'.service == l.service && l'.localPsm == l.localPsm
            && (!event.CentralPower? ==> l'.scan == l.scan)
            && (!event.PeripheralPower? ==> l'.l2capListener == l.l2capListener
                                            && l'.gattService == l.gattService && l'.advertising == l.advertising))
  {
    var l := Run(restored, first, events);
    assert (events + [event])[..|events|] == events;
    EveryRunIsInOrder(restored, first, events);
    l1 := match event
          case CentralPower(_, _) => CentralPowerChanged(l, true)
          case PeripheralPower(_, _) => PeripheralPowerChanged(l, true)
          case RetryTimer(_) => l;
    AttemptOutcomes(l1, restored, event.attempt);
  }

  /**
   * A start that is answered with a failure is not counted as running: in every run, the step is not Started after
   * the attempt unless it was before, and a retry is due unless the side waits for power.
   */
  lemma {:induction false} FailedStartsAreRetried(restored: bool, first: Attempt, events: seq<Event>, a: Attempt)
    ensures var l := Run(restored, first, events);
      var l' := TryStartup(l, restored, a);
      && (l.gattService != Started && !restored && a.addService == StartFailed ==>
            l'.gattService != Started && (l'.gattService == WaitingForPower || RetryDue(l')))
      && (l.advertising != Started && a.advertise == StartFailed ==>
            l'.advertising != Started && (l'.advertising == WaitingForPower || RetryDue(l')))
      && (l.scan != Started && a.startScan == StartFailed ==>
            l'.scan != Started && (l'.scan == WaitingForPower || RetryDue(l')))
      && (l.l2capListener != Started && a.listener.ListenFailed? ==>
            l'.l2capListener != Started
            && (l'.l2capListener == WaitingForPower || l'.l2capListener == Unsupported || RetryDue(l')))
  {
    EveryRunIsInOrder(restored, first, events);
    var l := Run(restored, first, events);
    var l' := TryStartup(l, restored, a);
    AttemptOutcomes(l, restored, a);
    AttemptSettles(l, restored, a);
    AttemptWaiting(l, restored, a);
    RetryListed(l');
  }

  /** A step turns Started only on a good answer to its own start, or for a service the platform had restored. */
  lemma {:induction false} StartedOnlyOnAGoodAnswer(restored: bool, first: Attempt, events: seq<Event>, a: Attempt)
    ensures var l := Run(restored, first, events);
      var l' := TryStartup(l, restored, a);
      && (l.gattService != Started && l'.gattService == Started ==>
            restored || a.addService == StartOk || a.addService == AlreadyAdvertising)
      && (l.advertising != Started && l'.advertising == Started ==>
            a.advertise == StartOk || a.advertise == AlreadyAdvertising)
      && (l.scan != Started && l'.scan == Started ==> a.startScan == StartOk || a.startScan == AlreadyAdvertising)
      && (l.l2capListener != Started && l'.l2capListener == Started ==>
            a.listener.Listening? && l'.localPsm == Some(a.listener.psm))
  {
    FailedStartsAreRetried(restored, first, events, a);
    EveryRunIsInOrder(restored, first, events);
    AttemptOutcomes(Run(restored, first, events), restored, a);
    AttemptWaiting(Run(restored, first, events), restored, a);
  }

  predicate Outstanding(step: StartupStep) { step == Pending || step == WaitingForPower || step == Retry }

  /** Some step is still to come and nothing is armed to bring it. */
  predicate Parked(l: Ladder) {
    && !RetryDue(l)
    && (Outstanding(l.l2capListener) || Outstanding(l.gattService) || Outstanding(l.advertising) || Outstanding(l.scan))
  }

  /** In every reachable ladder with no retry due, a step is outstanding if and only if a side waits for power. */
  lemma {:induction false} ParkedExactly(restored: bool, first: Attempt, events: seq<Event>)
    ensures var l := Run(restored, first, events);
      Parked(l) <==> !RetryDue(l) && (l.gattService == WaitingForPower || l.scan == WaitingForPower)
  {
    var l := Run(restored, first, events);
    EveryRunIsInOrder(restored, first, events);
    RetryListed(l);
  }

  /** Whether the event leads to a startup attempt. */
  predicate Attempts(l: Ladder, event: Event) {
    if event.RetryTimer? then RetryDue(l) else event.powered
  }

  /**
   * Which side waits after an event, in every run: its own adapter event decides alone, any other event only
   * by an attempt that reads the adapter as off.
   */
  lemma {:induction false} WaitingExactly(restored: bool, first: Attempt, events: seq<Event>, event: Event)
    ensures var l := Run(restored, first, events);
      var l' := Run(restored, first, events + [event]);
      && (l'.gattService == WaitingForPower <==>
            || (!event.PeripheralPower? && l.gattService == WaitingForPower)
            || (event.PeripheralPower? && !event.powered)
            || (Attempts(l, event) && !event.attempt.peripheralPowered))
      && (l'.scan == WaitingForPower <==>
            || (!event.CentralPower? && l.scan == WaitingForPower)
            || (event.CentralPower? && !event.powered)
            || (Attempts(l, event) && !event.attempt.centralPowered))
  {
    var l := Run(restored, first, events);
    assert (events + [event])[..|events|] == events;
    EveryRunIsInOrder(restored, first, events);
    match event
    case CentralPower(powered, a) => if powered { AttemptWaiting(CentralPowerChanged(l, true), restored, a); }
    case PeripheralPower(powered, a) => if powered { AttemptWaiting(PeripheralPowerChanged(l, true), restored, a); }
    case RetryTimer(a) => AttemptWaiting(l, restored, a);
  }

  /** So waiting ends only when the side's own adapter reports power and the attempt that follows reads it as on. */
  lemma {:induction false} WaitingEndsOnlyWithAPowerEvent(
    restored: bool, first: Attempt, events: seq<Event>, event: Event)
    ensures var l := Run(restored, first, events);
      var l' := Run(restored, first, events + [event]);
      && (l.gattService == WaitingForPower ==>
            (l'.gattService != WaitingForPower <==>
               event.PeripheralPower? && event.powered && event.attempt.peripheralPowered))
      && (l.scan == WaitingForPower ==>
            (l'.scan != WaitingForPower <==> event.CentralPower? && event.powered && event.attempt.centralPowered))
  {
    WaitingExactly(restored, first, events, event);
  }

  /** An attempt that reads both adapters as off, even wrongly, leaves everything waiting and arms no retry. */
  lemma UnpoweredReadParksTheLadder(restored: bool, first: Attempt, events: seq<Event>, a: Attempt)
    requires !a.peripheralPowered && !a.centralPowered
    ensures var l := TryStartup(Run(restored, first, events), restored, a);
      && l.gattService == l.advertising == l.scan == WaitingForPower
      && (l.l2capListener == WaitingForPower || l.l2capListener == Unsupported)
      && Parked(l) && (forall b :: OnEvent(l, restored, RetryTimer(b)) == l)
  {
    RetryListed(TryStartup(Run(restored, first, events), restored, a));
  }

  /** The running service names a PSM nobody listens on. */
  predicate Stale(l: Ladder) {
    l.gattService == Started && l.service.Added? && l.service.psm.Some? && l.l2capListener != Started
  }

  /** Whether the event makes the task ask for a listener. */
  predicate AsksForListener(l: Ladder, event: Event) {
    && Attempts(l, event) && event.attempt.peripheralPowered
    && l.l2capListener != Unsupported && (event.PeripheralPower? || l.l2capListener == Retry)
  }

  /**
   * A service running after an event is stale if and only if, before it, a PSM was on record and L2CAP was
   * already unsupported or is now refused as unsupported. The first attempt never makes it stale.
   */
  lemma {:induction false} StalePsmExactly(first: Attempt, events: seq<Event>, event: Event)
    ensures !Stale(Run(false, first, []))
    ensures var l := Run(false, first, events);
      var l' := Run(false, first, events + [event]);
      l'.gattService == Started ==>
        (Stale(l') <==>
           && l.localPsm.Some?
           && (l.l2capListener == Unsupported || (AsksForListener(l, event) && event.attempt.listener == NotSupported)))
  {
    var l := Run(false, first, events);
    assert (events + [event])[..|events|] == events;
    EveryRunIsInOrder(false, first, events);
    RetryListed(l);
    AttemptStale(Cold, first);
    match event
    case CentralPower(powered, a) => if powered { AttemptStale(CentralPowerChanged(l, true), a); }
    case PeripheralPower(powered, a) => if powered { AttemptStale(PeripheralPowerChanged(l, true), a); }
    case RetryTimer(a) => AttemptStale(l, a);
  }

  lemma AttemptStale(l: Ladder, a: Attempt)
    requires Ordered(l) && ServiceCurrent(l, false)
    ensures var l' := TryStartup(l, false, a);
      l'.gattService == Started ==>
        && a.peripheralPowered
        && (Stale(l') <==>
              && l.localPsm.Some?
              && (l.l2capListener == Unsupported
                  || ((l.l2capListener == Pending || l.l2capListener == Retry) && a.listener == NotSupported)))
  {
    AttemptSettles(l, false, a);
    var l1 := TryListener(l, a.listener);
    var l2 := TryService(l1, false, a.addService);
    assert l2.l2capListener == l1.l2capListener && l2.localPsm == l1.localPsm;
  }

  /** Such a run: a listener comes up, the adapter cycles, and the second listen is refused. */
  lemma StalePsmHappens(psm: nat)
    ensures var good := Attempt(true, Listening(psm), StartOk, StartOk, true, StartOk);
      var l := Run(false, good, [PeripheralPower(true, good.(listener := NotSupported))]);
      l.l2capListener == Unsupported && l.service == Added(Some(psm)) && Stale(l)
  {
    var good := Attempt(true, Listening(psm), StartOk, StartOk, true, StartOk);
    var up := Run(false, good, []);
    assert up.l2capListener == Started && up.localPsm == Some(psm);
    var events := [PeripheralPower(true, good.(listener := NotSupported))];
    assert events[..0] == [];
    assert Run(false, good, events) == OnEvent(up, false, events[0]);
  }

  /** The ladder as the task holds it. */
  class BleStartup {
    var l2capListener: StartupStep
    var gattService: StartupStep
    var advertising: StartupStep
    var scan: StartupStep
    var localPsm: Option<nat>
    const restored: bool
    ghost var service: Registration

    ghost function State(): Ladder
      reads this
    {
      Ladder(l2capListener, gattService, advertising, scan, localPsm, service)
    }

    constructor (restored: bool)
      ensures State() == Cold && this.restored == restored
    {
      l2capListener, gattService, advertising, scan := Pending, Pending, Pending, Pending;
      localPsm := None;
      service := NotRegistered;
      this.restored := restored;
    }

    method CentralAdapterChanged(powered: bool)
      modifies this`scan
      ensures State() == CentralPowerChanged(old(State()), powered)
    {
      scan := if powered then Pending else WaitingForPower;
    }

    method PeripheralAdapterChanged(powered: bool)
      modifies this
      ensures State() == PeripheralPowerChanged(old(State()), powered)
    {
      var next := if powered then Pending else WaitingForPower;
      if l2capListener != Unsupported { l2capListener := next; }
      gattService := next;
      advertising := next;
    }

    method TryStartL2capListener(result: ListenerResult)
      modifies this
      ensures State() == TryListener(old(State()), result)
    {
      if l2capListener == Started || l2capListener == Unsupported || l2capListener == WaitingForPower {
        return;
      }
      match result {
        case Listening(psm) =>
          localPsm := Some(psm);
          l2capListener := Started;
        case NotSupported =>
          l2capListener := Unsupported;
        case ListenFailed =>
          l2capListener := Retry;
      }
    }

    method TryStartGattService(result: StartResult)
      modifies this
      ensures State() == TryService(old(State()), restored, result)
    {
      if gattService == Started || gattService == WaitingForPower {
        return;
      }
      if l2capListener == Pending || l2capListener == Retry {
        return;
      }
      if restored {
        gattService, service := Started, Restored;
        return;
      }
      gattService := FromStartResult(result);
      if gattService == Started { service := Added(localPsm); }
    }

    method TryStartAdvertising(result: StartResult)
      modifies this
      ensures State() == TryAdvertising(old(State()), result)
    {
      if advertising == Started || advertising == WaitingForPower {
        return;
      }
      if gattService != Started {
        return;
      }
      advertising := FromStartResult(result);
    }

    method TryStartScan(result: StartResult)
      modifies this
      ensures State() == TryScan(old(State()), result)
    {
      if scan == Started || scan == WaitingForPower {
        return;
      }
      scan := FromStartResult(result);
    }

    method AttemptStartup(a: Attempt)
      modifies this
      ensures State() == TryStartup(old(State()), restored, a)
    {
      if a.peripheralPowered {
        TryStartL2capListener(a.listener);
        TryStartGattService(a.addService);
        TryStartAdvertising(a.advertise);
      } else {
        PeripheralAdapterChanged(false);
      }
      if a.centralPowered {
        TryStartScan(a.startScan);
      } else {
        CentralAdapterChanged(false);
      }
    }

    method Handle(event: Event)
      modifies this
      ensures State() == OnEvent(old(State()), restored, event)
    {
      match event {
        case CentralPower(powered, attempt) =>
          CentralAdapterChanged(powered);
          if powered { AttemptStartup(attempt); }
        case PeripheralPower(powered, attempt) =>
          PeripheralAdapterChanged(powered);
          if powered { AttemptStartup(attempt); }
        case RetryTimer(attempt) =>
          if Retry in [l2capListener, gattService, advertising, scan] { AttemptStartup(attempt); }
      }
    }
  }
}

/**
 `_controlled_evidence_fragment`: the search that decides whether a signed
 journal proves a controlled scenario.
 */
module ScenarioFragment {
  import opened Wrappers
  import opened EvidenceModel
  import opened EventSemantics

  datatype ControlReceipt = ControlReceipt(sequenceNo: int, eventHash: Digest)

  /** `ControlledScenarioRun` as far as the search reads it. */
  datatype ScenarioRun = ScenarioRun(
    campaign: Guid, scenario: Scenario, request: Guid, scope: Scope, action: Action, receipt: ControlReceipt)

  /** Inclusive bounds of the events that prove the scenario. */
  datatype Span = Span(first: nat, last: nat)

  predicate LinkedTo(run: ScenarioRun, b: EventBody) {
    b.campaign == Some(run.campaign) && b.scenario == Some(run.scenario) &&
    b.request == Some(run.request) && b.scope == Some(run.scope)
  }

  predicate HasStep(b: EventBody, t: EventType, a: Action, step: ControlStep) {
    b.eventType == t && b.payload.action == Some(a) && b.payload.step == Some(step)
  }

  /** What one of the searches looks for. */
  datatype Test =
    | IsRequest(run: ScenarioRun)
    | IsReceipt(run: ScenarioRun)
    | IsConsumption(run: ScenarioRun, eventType: EventType, action: Action)
    | StartsOtherBoot(oldBoot: Guid)
    | ReadyIn(newBoot: Guid)

  predicate Holds(t: Test, e: SignedEvent) {
    var b := e.claims.body;
    match t
    case IsRequest(run) => LinkedTo(run, b) && HasStep(b, ControlRequested, run.action, Requested)
    case IsReceipt(run) =>
      LinkedTo(run, b) && HasStep(b, ControlApplied, run.action, Applied) &&
      e.eventHash == run.receipt.eventHash && e.claims.sequenceNo == run.receipt.sequenceNo
    case IsConsumption(run, eventType, action) => LinkedTo(run, b) && HasStep(b, eventType, action, Consumed)
    case StartsOtherBoot(oldBoot) => b.eventType == BridgeStarted && b.boot != oldBoot
    case ReadyIn(newBoot) => b.eventType == SessionReady && b.boot == newBoot
  }

  /** `next((index for index in range(from, len(events)) if ...), None)`. */
  function First(events: seq<SignedEvent>, from: nat, t: Test): (r: Option<nat>)
    ensures r.Some? ==> from <= r.value < |events|
    decreases |events| - from
  {
    if from >= |events| then None
    else if Holds(t, events[from]) then Some(from)
    else First(events, from + 1, t)
  }

  lemma {:induction false} FirstMeans(events: seq<SignedEvent>, from: nat, t: Test)
    ensures var r := First(events, from, t);
      var end := if r.Some? then r.value else |events|;
      && (r.Some? ==> Holds(t, events[r.value]))
      && forall i | from <= i < end :: !Holds(t, events[i])
    decreases |events| - from
  {
    if from < |events| && !Holds(t, events[from]) { FirstMeans(events, from + 1, t); }
  }

  predicate HasType(events: seq<SignedEvent>, lo: nat, hi: nat, t: EventType)
    requires lo <= hi <= |events|
  {
    exists i | lo <= i < hi :: events[i].claims.body.eventType == t
  }

  predicate HasTypeInBoot(events: seq<SignedEvent>, lo: nat, hi: nat, t: EventType, boot: Guid)
    requires lo <= hi <= |events|
  {
    exists i | lo <= i < hi :: events[i].claims.body.eventType == t && events[i].claims.body.boot == boot
  }

  predicate LinkedClear(run: ScenarioRun, events: seq<SignedEvent>, lo: nat, hi: nat)
    requires lo <= hi <= |events|
  {
    exists i | lo <= i < hi :: LinkedTo(run, events[i].claims.body) && events[i].claims.body.eventType == CacheCleared
  }

  /** The session came down and back up between the two positions. */
  predicate ReconnectTypes(events: seq<SignedEvent>, lo: nat, hi: nat)
    requires lo <= hi <= |events|
  {
    && HasType(events, lo, hi, SessionDisconnected)
    && HasType(events, lo, hi, CacheCleared)
    && HasType(events, lo, hi, SessionConnecting)
    && HasType(events, lo, hi, SessionAuthenticated)
    && HasType(events, lo, hi, SessionReady)
  }

  predicate RestartTypes(events: seq<SignedEvent>, lo: nat, hi: nat, boot: Guid)
    requires lo <= hi <= |events|
  {
    && HasTypeInBoot(events, lo, hi, BridgeStarted, boot)
    && HasTypeInBoot(events, lo, hi, SessionConnecting, boot)
    && HasTypeInBoot(events, lo, hi, SessionAuthenticated, boot)
    && HasTypeInBoot(events, lo, hi, SessionReady, boot)
  }

  function ReadyAfterReconnect(run: ScenarioRun, events: seq<SignedEvent>, applied: nat): (r: Option<nat>)
    requires applied < |events|
    ensures r.Some? ==> applied < r.value < |events|
  {
    match First(events, applied + 1, IsConsumption(run, SessionReady, Reconnect))
    case None => None
    case Some(terminal) => if ReconnectTypes(events, applied + 1, terminal + 1) then Some(terminal) else None
  }

  /** The reconnect branch, from the applied event on. */
  function ReconnectEnd(run: ScenarioRun, events: seq<SignedEvent>, requested: nat, applied: nat): (r: Option<nat>)
    requires requested < applied < |events|
    ensures r.Some? ==> applied < r.value < |events|
  {
    if LinkedClear(run, events, requested + 1, applied) then ReadyAfterReconnect(run, events, applied) else None
  }

  /** The first readiness of the boot that starts at `started`. */
  function ReadyAfterStart(events: seq<SignedEvent>, started: nat): (r: Option<nat>)
    requires started < |events|
    ensures r.Some? ==> started < r.value < |events|
  {
    var newBoot := events[started].claims.body.boot;
    match First(events, started + 1, ReadyIn(newBoot))
    case None => None
    case Some(ready) => if RestartTypes(events, started, ready + 1, newBoot) then Some(ready) else None
  }

  /** The first boot under another id after the stop. */
  function ReadyAfterStop(events: seq<SignedEvent>, stopping: nat): (r: Option<nat>)
    requires stopping < |events|
    ensures r.Some? ==> stopping < r.value < |events|
  {
    match First(events, stopping + 1, StartsOtherBoot(events[stopping].claims.body.boot))
    case None => None
    case Some(started) => ReadyAfterStart(events, started)
  }

  /** The restart branch: stopped, started under another boot id, ready there. */
  function RestartEnd(run: ScenarioRun, events: seq<SignedEvent>, applied: nat): (r: Option<nat>)
    requires applied < |events|
    ensures r.Some? ==> applied < r.value < |events|
  {
    match First(events, applied + 1, IsConsumption(run, BridgeStopping, Restart))
    case None => None
    case Some(stopping) => ReadyAfterStop(events, stopping)
  }

  function FaultEvidence(scenario: Scenario): Option<EventType> {
    match scenario
    case MissingDataScenario => Some(MissingDataDetected)
    case StaleDataScenario => Some(StaleDataDetected)
    case RateLimitScenario => Some(RateLimited)
    case _ => None
  }

  function ScenarioEnd(run: ScenarioRun, events: seq<SignedEvent>, requested: nat, applied: nat): (r: Option<nat>)
    requires requested < applied < |events|
    ensures r.Some? ==> applied < r.value < |events|
  {
    if run.scenario == ReconnectScenario then ReconnectEnd(run, events, requested, applied)
    else if run.scenario == BridgeRestartScenario then RestartEnd(run, events, applied)
    else match FaultEvidence(run.scenario)
      case None => None
      case Some(eventType) => First(events, applied + 1, IsConsumption(run, eventType, run.action))
  }

  /** The search behind the request at `requested`. */
  function EndAfterRequest(run: ScenarioRun, events: seq<SignedEvent>, requested: nat): (r: Option<nat>)
    requires requested < |events|
    ensures r.Some? ==> requested < r.value < |events|
  {
    match First(events, requested + 1, IsReceipt(run))
    case None => None
    case Some(applied) => ScenarioEnd(run, events, requested, applied)
  }

  /** `_controlled_evidence_fragment`. */
  function Fragment(run: ScenarioRun, events: seq<SignedEvent>): (r: Option<Span>)
    ensures r.Some? ==> r.value.first < r.value.last < |events|
  {
    match First(events, 0, IsRequest(run))
    case None => None
    case Some(requested) =>
      match EndAfterRequest(run, events, requested)
      case None => None
      case Some(last) => Some(Span(requested, last))
  }

  /** What a reconnect ending at `last` shows behind the receipt at `applied`. */
  predicate ShowsReconnect(run: ScenarioRun, events: seq<SignedEvent>, first: nat, applied: nat, last: nat)
    requires first < applied < last < |events|
  {
    && LinkedClear(run, events, first + 1, applied)
    && Holds(IsConsumption(run, SessionReady, Reconnect), events[last])
    && ReconnectTypes(events, applied + 1, last + 1)
  }

  /** What a restart ending at `last` shows: stop, start of another boot, ready there. */
  predicate ShowsRestart(
    run: ScenarioRun, events: seq<SignedEvent>, applied: nat, stopped: nat, started: nat, last: nat)
    requires applied < last < |events|
  {
    && applied < stopped < started < last
    && Holds(IsConsumption(run, BridgeStopping, Restart), events[stopped])
    && Holds(StartsOtherBoot(events[stopped].claims.body.boot), events[started])
    && Holds(ReadyIn(events[started].claims.body.boot), events[last])
    && RestartTypes(events, started, last + 1, events[started].claims.body.boot)
  }

  predicate ShowsFault(run: ScenarioRun, events: seq<SignedEvent>, last: nat)
    requires last < |events|
  {
    && FaultEvidence(run.scenario).Some?
    && Holds(IsConsumption(run, FaultEvidence(run.scenario).value, run.action), events[last])
  }

  lemma {:induction false} ReconnectSound(run: ScenarioRun, events: seq<SignedEvent>, first: nat, applied: nat)
    requires first < applied < |events| && ReconnectEnd(run, events, first, applied).Some?
    ensures ShowsReconnect(run, events, first, applied, ReconnectEnd(run, events, first, applied).value)
  {
    FirstMeans(events, applied + 1, IsConsumption(run, SessionReady, Reconnect));
  }

  lemma {:induction false} RestartSound(run: ScenarioRun, events: seq<SignedEvent>, applied: nat)
    returns (stopped: nat, started: nat)
    requires applied < |events| && RestartEnd(run, events, applied).Some?
    ensures ShowsRestart(run, events, applied, stopped, started, RestartEnd(run, events, applied).value)
  {
    stopped := First(events, applied + 1, IsConsumption(run, BridgeStopping, Restart)).value;
    FirstMeans(events, applied + 1, IsConsumption(run, BridgeStopping, Restart));
    started := StartSound(events, stopped);
  }

  lemma {:induction false} ReadySound(events: seq<SignedEvent>, started: nat)
    requires started < |events| && ReadyAfterStart(events, started).Some?
    ensures var last := ReadyAfterStart(events, started).value;
      && Holds(ReadyIn(events[started].claims.body.boot), events[last])
      && RestartTypes(events, started, last + 1, events[started].claims.body.boot)
  {
    FirstMeans(events, started + 1, ReadyIn(events[started].claims.body.boot));
  }

  lemma {:induction false} StartSound(events: seq<SignedEvent>, stopped: nat) returns (started: nat)
    requires stopped < |events| && ReadyAfterStop(events, stopped).Some?
    ensures var last := ReadyAfterStop(events, stopped).value;
      && stopped < started < last < |events|
      && Holds(StartsOtherBoot(events[stopped].claims.body.boot), events[started])
      && Holds(ReadyIn(events[started].claims.body.boot), events[last])
      && RestartTypes(events, started, last + 1, events[started].claims.body.boot)
  {
    var elsewhere := StartsOtherBoot(events[stopped].claims.body.boot);
    started := First(events, stopped + 1, elsewhere).value;
    FirstMeans(events, stopped + 1, elsewhere);
    ReadySound(events, started);
  }

  /** An event of this very run: campaign, scenario, request, scope and action
      are all its own. */
  predicate OwnEvent(run: ScenarioRun, e: SignedEvent, t: EventType, step: ControlStep) {
    && e.claims.body.eventType == t
    && e.claims.body.payload.action == Some(run.action) && e.claims.body.payload.step == Some(step)
    && e.claims.body.campaign == Some(run.campaign) && e.claims.body.scenario == Some(run.scenario)
    && e.claims.body.request == Some(run.request) && e.claims.body.scope == Some(run.scope)
  }

  /** The event type that proves each scenario. */
  predicate ProvingType(scenario: Scenario, t: EventType) {
    || (scenario == ReconnectScenario && t == SessionReady)
    || (scenario == BridgeRestartScenario && t == SessionReady)
    || (scenario == MissingDataScenario && t == MissingDataDetected)
    || (scenario == StaleDataScenario && t == StaleDataDetected)
    || (scenario == RateLimitScenario && t == RateLimited)
  }

  /** A fragment is evidence: it runs from this run's request over its own
      receipt to the event that proves the scenario, with everything the
      scenario demands in between. */
  lemma {:induction false} FragmentIsEvidence(run: ScenarioRun, events: seq<SignedEvent>)
    returns (applied: nat, stopped: nat, started: nat)
    requires Fragment(run, events).Some?
    ensures var span := Fragment(run, events).value;
      && span.first < applied < span.last < |events|
      && Holds(IsRequest(run), events[span.first]) && Holds(IsReceipt(run), events[applied])
      && (if run.scenario == ReconnectScenario then ShowsReconnect(run, events, span.first, applied, span.last)
          else if run.scenario == BridgeRestartScenario then
            ShowsRestart(run, events, applied, stopped, started, span.last)
          else ShowsFault(run, events, span.last))
  {
    var first := First(events, 0, IsRequest(run)).value;
    FirstMeans(events, 0, IsRequest(run));
    applied := First(events, first + 1, IsReceipt(run)).value;
    FirstMeans(events, first + 1, IsReceipt(run));
    stopped, started := 0, 0;
    if run.scenario == ReconnectScenario {
      ReconnectSound(run, events, first, applied);
    } else if run.scenario == BridgeRestartScenario {
      stopped, started := RestartSound(run, events, applied);
    } else {
      FirstMeans(events, applied + 1, IsConsumption(run, FaultEvidence(run.scenario).value, run.action));
    }
  }

  lemma {:induction false} HoldsOwn(run: ScenarioRun, e: SignedEvent, t: EventType)
    ensures Holds(IsRequest(run), e) ==> OwnEvent(run, e, ControlRequested, Requested)
    ensures Holds(IsReceipt(run), e) ==>
      OwnEvent(run, e, ControlApplied, Applied) && e.eventHash == run.receipt.eventHash &&
      e.claims.sequenceNo == run.receipt.sequenceNo
    ensures Holds(IsConsumption(run, t, run.action), e) ==> OwnEvent(run, e, t, Consumed)
  {
  }

  lemma {:induction false} FaultEvidenceProves(scenario: Scenario)
    requires FaultEvidence(scenario).Some?
    ensures ProvingType(scenario, FaultEvidence(scenario).value)
  {
  }

  /** Whose events a fragment shows: the run's own request, the receipt that it
      was given, and a last event that proves its scenario, its own except after
      a restart, where it is the next boot's. */
  lemma {:induction false} FragmentIsOwn(run: ScenarioRun, events: seq<SignedEvent>)
    returns (applied: nat, stopped: nat)
    requires Fragment(run, events).Some? && ScenarioOf(run.action) == Some(run.scenario)
    ensures var span := Fragment(run, events).value;
      && span.first < applied < span.last < |events|
      && OwnEvent(run, events[span.first], ControlRequested, Requested)
      && OwnEvent(run, events[applied], ControlApplied, Applied)
      && events[applied].eventHash == run.receipt.eventHash
      && events[applied].claims.sequenceNo == run.receipt.sequenceNo
      && ProvingType(run.scenario, events[span.last].claims.body.eventType)
      && (run.scenario != BridgeRestartScenario ==>
            OwnEvent(run, events[span.last], events[span.last].claims.body.eventType, Consumed))
      && (run.scenario == BridgeRestartScenario ==>
            applied < stopped < span.last && OwnEvent(run, events[stopped], BridgeStopping, Consumed) &&
            events[stopped].claims.body.boot != events[span.last].claims.body.boot)
  {
    var started;
    applied, stopped, started := FragmentIsEvidence(run, events);
    var span := Fragment(run, events).value;
    HoldsOwn(run, events[span.first], ControlRequested);
    HoldsOwn(run, events[applied], ControlApplied);
    LastIsOwn(run, events, span.first, applied, stopped, started, span.last);
  }

  /** An event of this type stands behind `after`, up to `upTo`. */
  predicate SeenBetween(events: seq<SignedEvent>, after: nat, upTo: nat, t: EventType)
    requires upTo < |events|
  {
    exists i | after < i <= upTo :: events[i].claims.body.eventType == t
  }

  /** The same, from one boot. */
  predicate SeenInBoot(events: seq<SignedEvent>, after: nat, upTo: nat, t: EventType, boot: Guid)
    requires upTo < |events|
  {
    exists i | after < i <= upTo :: events[i].claims.body.eventType == t && events[i].claims.body.boot == boot
  }

  /** The run cleared its caches behind its request and before its receipt. */
  predicate ClearedBetween(run: ScenarioRun, events: seq<SignedEvent>, first: nat, applied: nat)
    requires applied < |events|
  {
    exists i | first < i < applied ::
      && events[i].claims.body.eventType == CacheCleared
      && events[i].claims.body.campaign == Some(run.campaign) && events[i].claims.body.scenario == Some(run.scenario)
      && events[i].claims.body.request == Some(run.request) && events[i].claims.body.scope == Some(run.scope)
  }

  lemma {:induction false} ReconnectShown(
    run: ScenarioRun, events: seq<SignedEvent>, first: nat, applied: nat, last: nat)
    requires first < applied < last < |events| && ShowsReconnect(run, events, first, applied, last)
    ensures ClearedBetween(run, events, first, applied)
    ensures SeenBetween(events, applied, last, SessionDisconnected) && SeenBetween(events, applied, last, CacheCleared)
    ensures SeenBetween(events, applied, last, SessionConnecting) && SeenBetween(events, applied, last, SessionAuthenticated)
  {
  }

  lemma {:induction false} RestartShown(
    run: ScenarioRun, events: seq<SignedEvent>, applied: nat, stopped: nat, started: nat, last: nat)
    requires applied < last < |events| && ShowsRestart(run, events, applied, stopped, started, last)
    ensures var boot := events[last].claims.body.boot;
      && events[started].claims.body.eventType == BridgeStarted && events[started].claims.body.boot == boot
      && events[stopped].claims.body.boot != boot
      && SeenInBoot(events, started, last, SessionConnecting, boot)
      && SeenInBoot(events, started, last, SessionAuthenticated, boot)
  {
    var boot := events[last].claims.body.boot;
    var i :| started <= i < last + 1 && events[i].claims.body.eventType == SessionConnecting && events[i].claims.body.boot == boot;
    var k :| started <= k < last + 1 && events[k].claims.body.eventType == SessionAuthenticated && events[k].claims.body.boot == boot;
    assert started < i <= last && started < k <= last;
  }

  /** What a fragment shows in between: a reconnect clears its caches before its
      receipt and then the session comes down and up again; a restart starts
      another boot behind the stop, whose session comes up. */
  lemma {:induction false} FragmentShows(run: ScenarioRun, events: seq<SignedEvent>)
    returns (applied: nat, stopped: nat, started: nat)
    requires Fragment(run, events).Some?
    ensures var span := Fragment(run, events).value;
      && span.first < applied < span.last < |events|
      && events[applied].claims.sequenceNo == run.receipt.sequenceNo
      && (run.scenario == ReconnectScenario ==>
            && ClearedBetween(run, events, span.first, applied)
            && SeenBetween(events, applied, span.last, SessionDisconnected)
            && SeenBetween(events, applied, span.last, CacheCleared)
            && SeenBetween(events, applied, span.last, SessionConnecting)
            && SeenBetween(events, applied, span.last, SessionAuthenticated))
      && (run.scenario == BridgeRestartScenario ==>
            var boot := events[span.last].claims.body.boot;
            && applied < stopped < started < span.last
            && events[started].claims.body.eventType == BridgeStarted && events[started].claims.body.boot == boot
            && events[stopped].claims.body.boot != boot
            && SeenInBoot(events, started, span.last, SessionConnecting, boot)
            && SeenInBoot(events, started, span.last, SessionAuthenticated, boot))
  {
    applied, stopped, started := FragmentIsEvidence(run, events);
    var span := Fragment(run, events).value;
    HoldsOwn(run, events[applied], ControlApplied);
    if run.scenario == ReconnectScenario {
      ReconnectShown(run, events, span.first, applied, span.last);
    } else if run.scenario == BridgeRestartScenario {
      RestartShown(run, events, applied, stopped, started, span.last);
    }
  }

  lemma {:induction false} LastIsOwn(
    run: ScenarioRun, events: seq<SignedEvent>, first: nat, applied: nat, stopped: nat, started: nat, last: nat)
    requires first < applied < last < |events| && ScenarioOf(run.action) == Some(run.scenario)
    requires if run.scenario == ReconnectScenario then ShowsReconnect(run, events, first, applied, last)
             else if run.scenario == BridgeRestartScenario then
               ShowsRestart(run, events, applied, stopped, started, last)
             else ShowsFault(run, events, last)
    ensures ProvingType(run.scenario, events[last].claims.body.eventType)
    ensures run.scenario != BridgeRestartScenario ==>
      OwnEvent(run, events[last], events[last].claims.body.eventType, Consumed)
    ensures run.scenario == BridgeRestartScenario ==>
      applied < stopped < last && OwnEvent(run, events[stopped], BridgeStopping, Consumed) &&
      events[stopped].claims.body.boot != events[last].claims.body.boot
  {
    if run.scenario == BridgeRestartScenario {
      LastOfRestart(run, events, applied, stopped, started, last);
    } else if run.scenario == ReconnectScenario {
      LastOfReconnect(run, events, first, applied, last);
    } else {
      LastOfFault(run, events, last);
    }
  }

  lemma {:induction false} LastOfRestart(
    run: ScenarioRun, events: seq<SignedEvent>, applied: nat, stopped: nat, started: nat, last: nat)
    requires applied < last < |events| && ScenarioOf(run.action) == Some(BridgeRestartScenario)
    requires ShowsRestart(run, events, applied, stopped, started, last)
    ensures events[last].claims.body.eventType == SessionReady
    ensures applied < stopped < last && OwnEvent(run, events[stopped], BridgeStopping, Consumed) &&
            events[stopped].claims.body.boot != events[last].claims.body.boot
  {
    HoldsOwn(run, events[stopped], BridgeStopping);
  }

  lemma {:induction false} LastOfReconnect(
    run: ScenarioRun, events: seq<SignedEvent>, first: nat, applied: nat, last: nat)
    requires first < applied < last < |events| && ScenarioOf(run.action) == Some(ReconnectScenario)
    requires ShowsReconnect(run, events, first, applied, last)
    ensures OwnEvent(run, events[last], SessionReady, Consumed)
  {
    HoldsOwn(run, events[last], SessionReady);
  }

  lemma {:induction false} LastOfFault(run: ScenarioRun, events: seq<SignedEvent>, last: nat)
    requires last < |events| && ShowsFault(run, events, last)
    ensures ProvingType(run.scenario, events[last].claims.body.eventType)
    ensures OwnEvent(run, events[last], events[last].claims.body.eventType, Consumed)
  {
    FaultEvidenceProves(run.scenario);
    HoldsOwn(run, events[last], FaultEvidence(run.scenario).value);
  }

  lemma {:induction false} FirstStable(xs: seq<SignedEvent>, ys: seq<SignedEvent>, from: nat, t: Test)
    requires First(xs, from, t).Some?
    ensures First(xs + ys, from, t) == First(xs, from, t)
    decreases |xs| - from
  {
    if !Holds(t, xs[from]) { FirstStable(xs, ys, from + 1, t); }
  }

  lemma {:induction false} ReconnectTypesStable(xs: seq<SignedEvent>, ys: seq<SignedEvent>, lo: nat, hi: nat)
    requires lo <= hi <= |xs|
    ensures ReconnectTypes(xs + ys, lo, hi) == ReconnectTypes(xs, lo, hi)
  {
    var all := xs + ys;
    assert forall i | lo <= i < hi :: all[i] == xs[i];
  }

  lemma {:induction false} RestartTypesStable(xs: seq<SignedEvent>, ys: seq<SignedEvent>, lo: nat, hi: nat, boot: Guid)
    requires lo <= hi <= |xs|
    ensures RestartTypes(xs + ys, lo, hi, boot) == RestartTypes(xs, lo, hi, boot)
  {
    var all := xs + ys;
    assert forall i | lo <= i < hi :: all[i] == xs[i];
  }

  lemma {:induction false} LinkedClearStable(
    run: ScenarioRun, xs: seq<SignedEvent>, ys: seq<SignedEvent>, lo: nat, hi: nat)
    requires lo <= hi <= |xs|
    ensures LinkedClear(run, xs + ys, lo, hi) == LinkedClear(run, xs, lo, hi)
  {
    var all := xs + ys;
    assert forall i | lo <= i < hi :: all[i] == xs[i];
  }

  lemma {:induction false} ReadyAfterReconnectIs(run: ScenarioRun, events: seq<SignedEvent>, applied: nat, terminal: nat)
    requires applied < terminal < |events|
    requires First(events, applied + 1, IsConsumption(run, SessionReady, Reconnect)) == Some(terminal)
    ensures ReadyAfterReconnect(run, events, applied) ==
            if ReconnectTypes(events, applied + 1, terminal + 1) then Some(terminal) else None
  {
  }

  lemma {:induction false} ReadyAfterReconnectStable(
    run: ScenarioRun, xs: seq<SignedEvent>, ys: seq<SignedEvent>, applied: nat)
    requires applied < |xs| && ReadyAfterReconnect(run, xs, applied).Some?
    ensures ReadyAfterReconnect(run, xs + ys, applied) == ReadyAfterReconnect(run, xs, applied)
  {
    var terminal := ReadyAfterReconnect(run, xs, applied).value;
    FirstStable(xs, ys, applied + 1, IsConsumption(run, SessionReady, Reconnect));
    ReconnectTypesStable(xs, ys, applied + 1, terminal + 1);
    ReadyAfterReconnectIs(run, xs, applied, terminal);
    ReadyAfterReconnectIs(run, xs + ys, applied, terminal);
  }

  lemma {:induction false} ReconnectStable(
    run: ScenarioRun, xs: seq<SignedEvent>, ys: seq<SignedEvent>, requested: nat, applied: nat)
    requires requested < applied < |xs| && ReconnectEnd(run, xs, requested, applied).Some?
    ensures ReconnectEnd(run, xs + ys, requested, applied) == ReconnectEnd(run, xs, requested, applied)
  {
    LinkedClearStable(run, xs, ys, requested + 1, applied);
    ReadyAfterReconnectStable(run, xs, ys, applied);
  }

  lemma {:induction false} ReadyAfterStartStable(xs: seq<SignedEvent>, ys: seq<SignedEvent>, started: nat)
    requires started < |xs| && ReadyAfterStart(xs, started).Some?
    ensures ReadyAfterStart(xs + ys, started) == ReadyAfterStart(xs, started)
  {
    var boot := xs[started].claims.body.boot;
    FirstStable(xs, ys, started + 1, ReadyIn(boot));
    RestartTypesStable(xs, ys, started, ReadyAfterStart(xs, started).value + 1, boot);
  }

  lemma {:induction false} ReadyAfterStopStable(xs: seq<SignedEvent>, ys: seq<SignedEvent>, stopping: nat)
    requires stopping < |xs| && ReadyAfterStop(xs, stopping).Some?
    ensures ReadyAfterStop(xs + ys, stopping) == ReadyAfterStop(xs, stopping)
  {
    var elsewhere := StartsOtherBoot(xs[stopping].claims.body.boot);
    FirstStable(xs, ys, stopping + 1, elsewhere);
    ReadyAfterStartStable(xs, ys, First(xs, stopping + 1, elsewhere).value);
  }

  lemma {:induction false} RestartStable(run: ScenarioRun, xs: seq<SignedEvent>, ys: seq<SignedEvent>, applied: nat)
    requires applied < |xs| && RestartEnd(run, xs, applied).Some?
    ensures RestartEnd(run, xs + ys, applied) == RestartEnd(run, xs, applied)
  {
    var stopped := IsConsumption(run, BridgeStopping, Restart);
    FirstStable(xs, ys, applied + 1, stopped);
    ReadyAfterStopStable(xs, ys, First(xs, applied + 1, stopped).value);
  }

  lemma {:induction false} ScenarioEndStable(
    run: ScenarioRun, xs: seq<SignedEvent>, ys: seq<SignedEvent>, requested: nat, applied: nat)
    requires requested < applied < |xs| && ScenarioEnd(run, xs, requested, applied).Some?
    ensures ScenarioEnd(run, xs + ys, requested, applied) == ScenarioEnd(run, xs, requested, applied)
  {
    if run.scenario == ReconnectScenario {
      ReconnectStable(run, xs, ys, requested, applied);
    } else if run.scenario == BridgeRestartScenario {
      RestartStable(run, xs, ys, applied);
    } else {
      FirstStable(xs, ys, applied + 1, IsConsumption(run, FaultEvidence(run.scenario).value, run.action));
    }
  }

  lemma {:induction false} EndStable(run: ScenarioRun, xs: seq<SignedEvent>, ys: seq<SignedEvent>, requested: nat)
    requires requested < |xs| && EndAfterRequest(run, xs, requested).Some?
    ensures EndAfterRequest(run, xs + ys, requested) == EndAfterRequest(run, xs, requested)
  {
    FirstStable(xs, ys, requested + 1, IsReceipt(run));
    ScenarioEndStable(run, xs, ys, requested, First(xs, requested + 1, IsReceipt(run)).value);
  }

  /** Once the search succeeds, nothing appended later changes its answer. */
  lemma {:induction false} FragmentStable(run: ScenarioRun, xs: seq<SignedEvent>, ys: seq<SignedEvent>)
    requires Fragment(run, xs).Some?
    ensures Fragment(run, xs + ys) == Fragment(run, xs)
  {
    FirstStable(xs, ys, 0, IsRequest(run));
    EndStable(run, xs, ys, First(xs, 0, IsRequest(run)).value);
  }

  // ----- what a finished collection submits -----

  function Hashes(events: seq<SignedEvent>): seq<Digest> {
    seq(|events|, i requires 0 <= i < |events| => events[i].eventHash)
  }

  /** `dict.fromkeys`: first occurrences, in order. */
  function Deduplicate(xs: seq<Digest>): (r: seq<Digest>)
    ensures forall x :: x in r <==> x in xs
    ensures forall i, j | 0 <= i < j < |r| :: r[i] != r[j]
    decreases |xs|
  {
    if xs == [] then []
    else
      var front, last := Deduplicate(xs[..|xs| - 1]), xs[|xs| - 1];
      assert xs == xs[..|xs| - 1] + [last];
      if last in front then front else front + [last]
  }

  lemma {:induction false} DeduplicateOrder(xs: seq<Digest>)
    ensures var r := Deduplicate(xs);
      && (xs != [] ==> r != [] && r[0] == xs[0])
      && forall a, b | 0 <= a < b < |r| :: Earlier(xs, r[a], r[b])
    decreases |xs|
  {
    if xs != [] {
      var front, last := xs[..|xs| - 1], xs[|xs| - 1];
      DeduplicateOrder(front);
      var r := Deduplicate(xs);
      forall a, b | 0 <= a < b < |r| ensures Earlier(xs, r[a], r[b]) {
        if b < |Deduplicate(front)| { EarlierGrows(front, last, r[a], r[b]); } else { EarlierLast(front, last, r[a]); }
      }
    }
  }

  /** Some x comes before every y. */
  predicate Earlier(xs: seq<Digest>, x: Digest, y: Digest) {
    exists i | 0 <= i < |xs| :: xs[i] == x && y !in xs[..i + 1]
  }

  lemma {:induction false} EarlierGrows(front: seq<Digest>, last: Digest, x: Digest, y: Digest)
    requires Earlier(front, x, y)
    ensures Earlier(front + [last], x, y)
  {
    var i :| 0 <= i < |front| && front[i] == x && y !in front[..i + 1];
    assert (front + [last])[..i + 1] == front[..i + 1];
  }

  lemma {:induction false} EarlierLast(front: seq<Digest>, last: Digest, x: Digest)
    requires x in front && last !in front
    ensures Earlier(front + [last], x, last)
  {
    var i :| 0 <= i < |front| && front[i] == x;
    assert (front + [last])[..i + 1] == front[..i + 1];
  }

  /** Between the two positions some event with hash x comes before all with y. */
  predicate SeenBefore(events: seq<SignedEvent>, first: nat, last: nat, x: Digest, y: Digest)
    requires first <= last < |events|
  {
    exists i | first <= i <= last :: events[i].eventHash == x && forall k | first <= k <= i :: events[k].eventHash != y
  }

  /** A submission names the receipt first, then every event from the request to
      the one that proves the scenario, in journal order and none twice. */
  ghost predicate SubmitsEvents(
    receipt: Digest, events: seq<SignedEvent>, first: nat, last: nat, references: seq<Digest>)
    requires first <= last < |events|
  {
    && references != [] && references[0] == receipt
    && (forall d :: d in references <==> d == receipt || exists i | first <= i <= last :: events[i].eventHash == d)
    && (forall a, b | 0 <= a < b < |references| :: references[a] != references[b])
    && (forall a, b | 0 < a < b < |references| ::
          SeenBefore(events, first, last, references[a], references[b]))
  }

  lemma {:induction false} ReferencesInOrder(
    receipt: Digest, events: seq<SignedEvent>, first: nat, last: nat, x: Digest, y: Digest)
    requires first <= last < |events| && x != receipt
    requires Earlier([receipt] + Hashes(events[first..last + 1]), x, y)
    ensures SeenBefore(events, first, last, x, y)
  {
    var all := [receipt] + Hashes(events[first..last + 1]);
    var n :| 0 <= n < |all| && all[n] == x && y !in all[..n + 1];
    var i := first + n - 1;
    forall k | first <= k <= i ensures events[k].eventHash != y {
      assert all[..n + 1][k - first + 1] == events[k].eventHash;
    }
    assert events[i].eventHash == x;
  }

  lemma {:induction false} ReferenceMembers(receipt: Digest, events: seq<SignedEvent>, first: nat, last: nat, d: Digest)
    requires first <= last < |events|
    ensures d in [receipt] + Hashes(events[first..last + 1]) <==>
            d == receipt || exists i | first <= i <= last :: events[i].eventHash == d
  {
    var all := [receipt] + Hashes(events[first..last + 1]);
    if d in all && d != receipt {
      var n :| 0 <= n < |all| && all[n] == d;
      assert events[first + n - 1].eventHash == d;
    }
    if i :| first <= i <= last && events[i].eventHash == d { assert all[i - first + 1] == d; }
  }

  lemma {:induction false} DeduplicateMeans(xs: seq<Digest>, r: seq<Digest>)
    requires r == Deduplicate(xs) && xs != []
    ensures r != [] && r[0] == xs[0]
    ensures forall d :: d in r <==> d in xs
    ensures forall a, b | 0 <= a < b < |r| :: r[a] != r[b] && Earlier(xs, r[a], r[b])
  {
    DeduplicateOrder(xs);
  }

  lemma {:induction false} ReferencesMean(
    receipt: Digest, events: seq<SignedEvent>, first: nat, last: nat, r: seq<Digest>)
    requires first <= last < |events| && r == Deduplicate([receipt] + Hashes(events[first..last + 1]))
    ensures SubmitsEvents(receipt, events, first, last, r)
  {
    DeduplicateMeans([receipt] + Hashes(events[first..last + 1]), r);
    forall d ensures d in r <==> d == receipt || exists i | first <= i <= last :: events[i].eventHash == d {
      ReferenceMembers(receipt, events, first, last, d);
    }
    forall a, b | 0 < a < b < |r|
      ensures SeenBefore(events, first, last, r[a], r[b])
    {
      assert r[0] != r[a];
      ReferencesInOrder(receipt, events, first, last, r[a], r[b]);
    }
  }

  lemma {:induction false} ReferencesAre(run: ScenarioRun, events: seq<SignedEvent>, span: Span)
    requires span.first <= span.last < |events|
    ensures SubmitsEvents(run.receipt.eventHash, events, span.first, span.last, SpanReferences(run, events, span))
  {
    ReferencesMean(run.receipt.eventHash, events, span.first, span.last, SpanReferences(run, events, span));
  }

  /** What is submitted, told by the journal alone. */
  lemma {:induction false} SubmissionIsEvidence(run: ScenarioRun, events: seq<SignedEvent>)
    ensures Submission(run, events).Some? <==> Fragment(run, events).Some?
    ensures Submission(run, events).Some? ==>
      var span := Fragment(run, events).value;
      SubmitsEvents(run.receipt.eventHash, events, span.first, span.last, Submission(run, events).value)
  {
    if Fragment(run, events).Some? { ReferencesAre(run, events, Fragment(run, events).value); }
  }

  function SpanReferences(run: ScenarioRun, events: seq<SignedEvent>, span: Span): seq<Digest>
    requires span.first <= span.last < |events|
  {
    Deduplicate([run.receipt.eventHash] + Hashes(events[span.first..span.last + 1]))
  }

  /** The references a collection submits once its fragment is complete. */
  function Submission(run: ScenarioRun, events: seq<SignedEvent>): Option<seq<Digest>> {
    match Fragment(run, events)
    case None => None
    case Some(span) => Some(SpanReferences(run, events, span))
  }

  lemma {:induction false} SpanReferencesStable(
    run: ScenarioRun, xs: seq<SignedEvent>, ys: seq<SignedEvent>, span: Span)
    requires span.first <= span.last < |xs|
    ensures SpanReferences(run, xs + ys, span) == SpanReferences(run, xs, span)
  {
    assert (xs + ys)[span.first..span.last + 1] == xs[span.first..span.last + 1];
  }

  lemma {:induction false} SubmissionIs(run: ScenarioRun, events: seq<SignedEvent>, span: Span)
    requires span.first <= span.last < |events| && Fragment(run, events) == Some(span)
    ensures Submission(run, events) == Some(SpanReferences(run, events, span))
  {
  }

  lemma {:induction false} RestOf(xs: seq<SignedEvent>, ys: seq<SignedEvent>) returns (rest: seq<SignedEvent>)
    requires xs <= ys
    ensures ys == xs + rest
  {
    rest := ys[|xs|..];
  }

  lemma {:induction false} SubmissionGrows(run: ScenarioRun, xs: seq<SignedEvent>, ys: seq<SignedEvent>)
    requires Submission(run, xs).Some?
    ensures Submission(run, xs + ys) == Submission(run, xs)
  {
    var span := Fragment(run, xs).value;
    FragmentStable(run, xs, ys);
    SpanReferencesStable(run, xs, ys, span);
    SubmissionIs(run, xs, span);
    SubmissionIs(run, xs + ys, span);
  }

  /** A longer journal proves the scenario by the same references. */
  lemma {:induction false} SubmissionStable(run: ScenarioRun, xs: seq<SignedEvent>, ys: seq<SignedEvent>)
    requires xs <= ys && Submission(run, xs).Some?
    ensures Submission(run, ys) == Submission(run, xs)
  {
    var rest := RestOf(xs, ys);
    SubmissionGrows(run, xs, rest);
  }
}

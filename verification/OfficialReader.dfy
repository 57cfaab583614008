/**
 The `OfficialT4MarketDataReader` object itself: its mutable fields and the
 handlers that write evidence, each proved to do exactly what its steps of the
 state machine in `BridgeReader` do when no other thread interferes.
 */
module OfficialReader {
  import opened Wrappers
  import opened EvidenceModel
  import opened EventSemantics
  import opened BridgeReader

  /** The five controls and the scenario each one starts. */
  const CONTROL_SCENARIOS: map<Action, Scenario> :=
    map[Reconnect := ReconnectScenario, MissingData := MissingDataScenario, StaleData := StaleDataScenario,
        RateLimit := RateLimitScenario, Restart := BridgeRestartScenario]

  datatype ControlError = ActionUndefined | ControlDisabled | ControlStillPending

  // ----- what each handler is, as steps -----

  function ApplyOps(action: Action, token: Token): seq<Op> { [OBegin(action, token), OEffect, OFinish] }

  function ConsumeOps(fault: Fault): seq<Op> { [OTakeFault(fault.token.scope), OLand(FaultTaken(fault))] }

  function ReadyOps(recovery: Option<Token>): seq<Op> { [OTakeReady, OLand(ReadyTaken(recovery))] }

  function StopOps(restart: Option<Token>): seq<Op> { [OTakeStop, OLand(StopTaken(restart))] }

  lemma {:induction false} ReachedOne(c: ReaderConfig, s: Reader, a: Op)
    ensures Reached(c, s, [a]) == Step(c, s, a)
  {
  }

  lemma {:induction false} ReachedTwo(c: ReaderConfig, s: Reader, a: Op, b: Op)
    ensures Reached(c, s, [a, b]) == Step(c, Step(c, s, a), b)
  {
    assert [a, b][..1] == [a];
    ReachedOne(c, s, a);
  }

  lemma {:induction false} ReachedThree(c: ReaderConfig, s: Reader, a: Op, b: Op, d: Op)
    ensures Reached(c, s, [a, b, d]) == Step(c, Step(c, Step(c, s, a), b), d)
  {
    assert [a, b, d][..2] == [a, b];
    ReachedTwo(c, s, a, b);
  }

  /** What a control that is let through leaves behind. */
  lemma {:induction false} ApplySteps(c: ReaderConfig, s: Reader, action: Action, token: Token)
    requires MayApply(c, s.controls, action, token)
    ensures var scenario := ScenarioOf(action).value;
      var held := s.controls.(gate := Applying(action, scenario, token, false));
      var gate := held.gate;
      Reached(c, s, ApplyOps(action, token)) ==
      Reader(Disturb(s.session, action), Arm(held).(gate := Free), s.seen,
        s.trace
        + [Correlated(s.session, ControlRequested, RControlRequested, scenario, token, Correlation(action, Requested))]
        + EffectEvents(c, s.session, gate)
        + [Correlated(s.session, ControlApplied, RControlApplied, scenario, token, Correlation(action, Applied))])
  {
    ReachedThree(c, s, OBegin(action, token), OEffect, OFinish);
    DisturbKeepsCounters(s.session, action);
  }

  /** What a control changes in the session: only caches, readiness and socket. */
  predicate Disturbs(action: Action, s: Session, t: Session) {
    && t.warm == (s.warm && action in {StaleData, Restart})
    && t.ready == (s.ready && action == Restart)
    && t.connected == (s.connected && action != Reconnect)
    && t.aborted == (if action == Reconnect then s.phase != Waiting else s.aborted)
    && t.boot == s.boot && t.generation == s.generation && t.reconnects == s.reconnects
    && t.phase == s.phase && t.exited == s.exited
  }

  /** Exactly one control is pending, under this token. */
  predicate PendingOnly(action: Action, token: Token, k: Controls)
    requires action in CONTROL_SCENARIOS
  {
    && k.reconnect == (if action == Reconnect then Some(token) else None)
    && k.restart == (if action == Restart then Some(token) else None)
    && (if action in {Reconnect, Restart} then k.fault.None?
        else k.fault == Some(Fault(action, CONTROL_SCENARIOS[action],
                               match action
                               case MissingData => RMissingData
                               case StaleData => RStaleData
                               case _ => RRateLimited, token)))
  }

  /** The journal of an applied control: request, cleared caches, receipt. */
  function ControlEvents(action: Action, token: Token, s: Session): seq<EventBody>
    requires action in CONTROL_SCENARIOS
  {
    var g, n, scenario := s.generation, s.reconnects, Some(CONTROL_SCENARIOS[action]);
    var cleared := match action
      case Restart => []
      case StaleData => []
      case RateLimit => [EventBody(CacheCleared, RCacheCleared, Some(token.campaign), s.boot, g, n, None, None, None, NO_PAYLOAD)]
      case _ => [EventBody(CacheCleared, RCacheCleared, Some(token.campaign), s.boot, g, n, Some(token.scope), scenario,
                   Some(token.request), NO_PAYLOAD)];
    [EventBody(ControlRequested, RControlRequested, Some(token.campaign), s.boot, g, n, Some(token.scope), scenario,
       Some(token.request), Payload(Some(action), Some(Requested), None, None))]
    + cleared
    + [EventBody(ControlApplied, RControlApplied, Some(token.campaign), s.boot, g, n, Some(token.scope), scenario,
         Some(token.request), Payload(Some(action), Some(Applied), None, None))]
  }

  /** What an applied control leaves, field by field; of the rest nothing moves. */
  predicate ControlLeaves(action: Action, token: Token, s: Reader, t: Reader) {
    && action in CONTROL_SCENARIOS && Disturbs(action, s.session, t.session) && PendingOnly(action, token, t.controls)
    && t.controls.stopping == s.controls.stopping && t.controls.flight == s.controls.flight && t.seen == s.seen
    && t.trace == s.trace + ControlEvents(action, token, s.session)
  }

  /** Every control that is let through, run without interruption. */
  lemma {:induction false} ApplyLeaves(c: ReaderConfig, s: Reader, action: Action, token: Token)
    requires MayApply(c, s.controls, action, token)
    ensures ControlLeaves(action, token, s, Reached(c, s, ApplyOps(action, token)))
  {
    ApplySteps(c, s, action, token);
  }

  lemma {:induction false} DisturbKeepsCounters(s: Session, action: Action)
    ensures var t := Disturb(s, action);
      t.boot == s.boot && t.generation == s.generation && t.reconnects == s.reconnects
  {
  }

  lemma {:induction false} ConsumeSteps(c: ReaderConfig, s: Reader, fault: Fault)
    requires s.controls.gate == Free && s.controls.flight == multiset{} && s.controls.fault == Some(fault)
    ensures Reached(c, s, ConsumeOps(fault)) ==
      Reader(s.session, s.controls.(fault := None), s.seen, s.trace + [FaultBody(s.session, fault)])
  {
    ReachedTwo(c, s, OTakeFault(fault.token.scope), OLand(FaultTaken(fault)));
  }

  lemma {:induction false} ReadySteps(c: ReaderConfig, s: Reader)
    requires s.controls.gate == Free && s.controls.flight == multiset{}
    ensures Reached(c, s, ReadyOps(s.controls.reconnect)) ==
      Reader(s.session.(ready := true), s.controls.(reconnect := None), s.seen,
        s.trace + [ReadyBody(c, s.session, s.controls.reconnect)])
  {
    ReachedTwo(c, s, OTakeReady, OLand(ReadyTaken(s.controls.reconnect)));
  }

  lemma {:induction false} StopSteps(c: ReaderConfig, s: Reader)
    requires s.controls.gate == Free && s.controls.flight == multiset{} && !s.controls.stopping
    ensures Reached(c, s, StopOps(s.controls.restart)) ==
      Reader(s.session, s.controls.(stopping := true), s.seen, s.trace + [StopBody(c, s.session, s.controls.restart)])
  {
    ReachedTwo(c, s, OTakeStop, OLand(StopTaken(s.controls.restart)));
  }

  lemma {:induction false} EndSteps(c: ReaderConfig, s: Reader)
    requires s.session.phase != Waiting
    ensures Reached(c, s, [ODisconnected, OCleanUp]) ==
      Reader(EndSession(s.session.(ready := false)), s.controls, s.seen,
        s.trace + [Plain(c, s.session, SessionDisconnected, RSessionDisconnected, None)]
        + [Plain(c, s.session, CacheCleared, RCacheCleared, None)])
  {
    ReachedTwo(c, s, ODisconnected, OCleanUp);
  }

  class OfficialT4MarketDataReader {
    const config: ReaderConfig
    const boot: Guid
    var sessionGeneration: nat
    var reconnectCount: nat
    var phase: Phase
    var aborted: bool
    var connected: bool
    var cachesFilled: bool
    var healthReady: bool
    var loopExited: bool
    var pendingScenarioFault: Option<Fault>
    var pendingReconnect: Option<Token>
    var pendingRestart: Option<Token>
    var stoppingEventRecorded: bool
    var recordedDataFailures: set<(nat, bool, Scope)>
    var recordedRolls: set<(Symbol, string, string)>
    var journal: seq<EventBody>

    /** The state between handlers: nobody holds the gate, nothing in flight. */
    function View(): Reader
      reads this
    {
      Reader(CurrentSession(),
        Controls(pendingScenarioFault, pendingReconnect, pendingRestart, stoppingEventRecorded, Free, multiset{}),
        Seen(recordedDataFailures, recordedRolls), journal)
    }

    function CurrentSession(): Session
      reads this
    {
      Session(boot, sessionGeneration, reconnectCount, phase, aborted, connected, cachesFilled, healthReady, loopExited)
    }

    constructor (config: ReaderConfig, boot: Guid, journal: seq<EventBody>)
      requires boot != EMPTY_GUID
      ensures this.config == config && this.boot == boot
      ensures View() == Reboot(config, journal, boot)
    {
      this.config, this.boot := config, boot;
      sessionGeneration, reconnectCount, phase := 0, 0, Waiting;
      aborted, connected, cachesFilled, healthReady, loopExited := false, false, false, false, false;
      pendingScenarioFault, pendingReconnect, pendingRestart := None, None, None;
      stoppingEventRecorded, recordedDataFailures, recordedRolls := false, {}, {};
      var started := EventBody(BridgeStarted, RBridgeStarted, config.campaign, boot, 0, 0, None, None, None, NO_PAYLOAD);
      this.journal := journal + [started];
    }

    /** The switch of `ApplyControl`. */
    method TakeEffect(action: Action, scenario: Scenario, token: Token)
      requires IsControlAction(action) && scenario == ScenarioOf(action).value
      requires NothingPending(View().controls)
      modifies this
      ensures var held := old(View()).controls.(gate := Applying(action, scenario, token, false));
        View() == Reader(Disturb(old(View()).session, action), Arm(held).(gate := Free), old(View()).seen,
          old(View()).trace + EffectEvents(config, old(View()).session, held.gate))
    {
      if action == Reconnect {
        pendingReconnect := Some(token);
        connected := false;
        cachesFilled := false;
        journal := journal + [Correlated(CurrentSession(), CacheCleared, RCacheCleared, scenario, token, NO_PAYLOAD)];
        healthReady := false;
        aborted := phase != Waiting;
      } else if action == Restart {
        pendingRestart := Some(token);
      } else {
        PlantFault(action, scenario, token);
      }
    }

    /** The three data faults of that switch. */
    method PlantFault(action: Action, scenario: Scenario, token: Token)
      requires action in {MissingData, StaleData, RateLimit} && scenario == ScenarioOf(action).value
      requires NothingPending(View().controls)
      modifies this
      ensures var held := old(View()).controls.(gate := Applying(action, scenario, token, false));
        View() == Reader(Disturb(old(View()).session, action), Arm(held).(gate := Free), old(View()).seen,
          old(View()).trace + EffectEvents(config, old(View()).session, held.gate))
    {
      match action {
        case MissingData =>
          cachesFilled := false;
          journal := journal + [Correlated(CurrentSession(), CacheCleared, RCacheCleared, scenario, token, NO_PAYLOAD)];
          pendingScenarioFault := Some(Fault(action, scenario, RMissingData, token));
        case StaleData =>
          pendingScenarioFault := Some(Fault(action, scenario, RStaleData, token));
        case RateLimit =>
          cachesFilled := false;
          journal := journal + [Plain(config, CurrentSession(), CacheCleared, RCacheCleared, None)];
          pendingScenarioFault := Some(Fault(action, scenario, RRateLimited, token));
      }
      healthReady := false;
    }

    /** The guards of `ApplyControl`. */
    method RefuseControl(action: Action, token: Token) returns (e: Option<ControlError>)
      ensures e.None? <==> MayApply(config, View().controls, action, token)
      ensures e.None? <==>
        && action in CONTROL_SCENARIOS && config.controlEnabled && config.campaign == Some(token.campaign)
        && token.campaign != EMPTY_GUID && token.request != EMPTY_GUID
        && token.scope.ScopeKey? && token.scope.minutes in {240, 1440, 10080}
        && pendingScenarioFault.None? && pendingReconnect.None? && pendingRestart.None?
      ensures e == Some(ControlStillPending) ==>
        pendingScenarioFault.Some? || pendingReconnect.Some? || pendingRestart.Some?
    {
      if !IsControlAction(action) { return Some(ActionUndefined); }
      if !config.controlEnabled || config.campaign != Some(token.campaign) || token.campaign == EMPTY_GUID ||
         token.request == EMPTY_GUID || !IsScopeKey(token.scope)
      {
        return Some(ControlDisabled);
      }
      if pendingScenarioFault.Some? || pendingReconnect.Some? || pendingRestart.Some? {
        return Some(ControlStillPending);
      }
      return None;
    }

    /** `ApplyControl`: refused without a trace, or requested, effective and
        applied in one piece. */
    method ApplyControl(
      action: Action, campaign: Guid, request: Guid, scope: Scope) returns (r: Result<EventBody, ControlError>)
      modifies this
      ensures var token := Token(campaign, request, scope);
        && (r.Success? <==> MayApply(config, old(View()).controls, action, token))
        && View() == (if r.Success? then Reached(config, old(View()), ApplyOps(action, token)) else old(View()))
        && (r.Success? ==> journal != [] && r.value == journal[|journal| - 1])
      ensures r == Failure(ControlStillPending) ==>
        old(pendingScenarioFault).Some? || old(pendingReconnect).Some? || old(pendingRestart).Some?
    {
      ghost var before := View();
      var token := Token(campaign, request, scope);
      var refused := RefuseControl(action, token);
      if refused.Some? { return Failure(refused.value); }
      var scenario := ScenarioOf(action).value;
      ApplySteps(config, before, action, token);
      var requested := Correlation(action, Requested);
      journal := journal + [Correlated(CurrentSession(), ControlRequested, RControlRequested, scenario, token, requested)];
      TakeEffect(action, scenario, token);
      var applied := Correlated(CurrentSession(), ControlApplied, RControlApplied, scenario, token, Correlation(action, Applied));
      journal := journal + [applied];
      return Success(applied);
    }

    /** `ConsumeScenarioFault`: only a read of the fault's own scope takes it. */
    method ConsumeScenarioFault(scope: Scope) returns (fault: Option<Fault>)
      modifies this
      ensures fault.Some? <==>
                old(pendingScenarioFault).Some? && old(pendingScenarioFault).value.token.scope == scope
      ensures fault.Some? ==> fault == old(pendingScenarioFault)
      ensures View() == if fault.Some? then Reached(config, old(View()), ConsumeOps(fault.value)) else old(View())
      ensures fault.None? ==> journal == old(journal) && pendingScenarioFault == old(pendingScenarioFault)
      ensures fault.Some? ==>
        var f := fault.value;
        && pendingScenarioFault.None?
        && journal == old(journal) + [EventBody(
             (match f.reason case RMissingData => MissingDataDetected case RStaleData => StaleDataDetected case _ => RateLimited),
             f.reason, Some(f.token.campaign), boot, sessionGeneration, reconnectCount, Some(scope), Some(f.scenario),
             Some(f.token.request), Payload(Some(f.action), Some(Consumed), None, None))]
    {
      ghost var before := View();
      fault := pendingScenarioFault;
      if fault.Some? && fault.value.token.scope == scope {
        pendingScenarioFault := None;
      }
      if fault.None? || fault.value.token.scope != scope {
        return None;
      }
      var eventType := match fault.value.reason
        case RMissingData => MissingDataDetected
        case RStaleData => StaleDataDetected
        case _ => RateLimited;
      journal := journal + [Correlated(CurrentSession(), eventType, fault.value.reason, fault.value.scenario, fault.value.token,
        Correlation(fault.value.action, Consumed))];
      ConsumeSteps(config, before, fault.value);
    }

    /** `RecordReadyTransition`. */
    method RecordReadyTransition()
      modifies this
      ensures View() ==
        if old(healthReady) then old(View()) else Reached(config, old(View()), ReadyOps(old(pendingReconnect)))
      ensures healthReady
      ensures old(healthReady) ==> journal == old(journal) && pendingReconnect == old(pendingReconnect)
      ensures !old(healthReady) ==>
        && pendingReconnect.None?
        && journal == old(journal) + [match old(pendingReconnect)
             case None =>
               EventBody(SessionReady, RReady, config.campaign, boot, sessionGeneration, reconnectCount, None, None, None, NO_PAYLOAD)
             case Some(t) =>
               EventBody(SessionReady, RReady, Some(t.campaign), boot, sessionGeneration, reconnectCount, Some(t.scope),
                 Some(ReconnectScenario), Some(t.request), Payload(Some(Reconnect), Some(Consumed), None, None))]
    {
      ghost var before := View();
      var wasReady := healthReady;
      healthReady := true;
      if !wasReady {
        var recovery := pendingReconnect;
        pendingReconnect := None;
        if recovery.None? {
          journal := journal + [Plain(config, CurrentSession(), SessionReady, RReady, None)];
        } else {
          journal := journal + [Correlated(CurrentSession(), SessionReady, RReady, ReconnectScenario, recovery.value,
            Correlation(Reconnect, Consumed))];
        }
        ReadySteps(config, before);
      }
    }

    /** `RecordStoppingEvent`: at most once per process. */
    method RecordStoppingEvent()
      modifies this
      ensures View() ==
        if old(stoppingEventRecorded) then old(View()) else Reached(config, old(View()), StopOps(old(pendingRestart)))
      ensures stoppingEventRecorded && pendingRestart == old(pendingRestart)
      ensures old(stoppingEventRecorded) ==> journal == old(journal)
      ensures !old(stoppingEventRecorded) ==>
        journal == old(journal) + [match old(pendingRestart)
          case None =>
            EventBody(BridgeStopping, RBridgeStopping, config.campaign, boot, sessionGeneration, reconnectCount, None, None, None, NO_PAYLOAD)
          case Some(t) =>
            EventBody(BridgeStopping, RBridgeStopping, Some(t.campaign), boot, sessionGeneration, reconnectCount, Some(t.scope),
              Some(BridgeRestartScenario), Some(t.request), Payload(Some(Restart), Some(Consumed), None, None))]
    {
      ghost var before := View();
      if stoppingEventRecorded { return; }
      stoppingEventRecorded := true;
      var restart := pendingRestart;
      if restart.None? {
        journal := journal + [Plain(config, CurrentSession(), BridgeStopping, RBridgeStopping, None)];
      } else {
        journal := journal + [Correlated(CurrentSession(), BridgeStopping, RBridgeStopping, BridgeRestartScenario, restart.value,
          Correlation(Restart, Consumed))];
      }
      StopSteps(config, before);
    }

    /** The start of `RunSessionAsync`, run by the loop only between sessions. */
    method BeginSession()
      requires phase == Waiting && !loopExited
      modifies this
      ensures View() == Reached(config, old(View()), [OConnect])
      ensures phase == Connecting && !aborted && sessionGeneration == old(sessionGeneration) + 1
      ensures journal == old(journal) + [EventBody(SessionConnecting, RSessionConnecting, config.campaign, boot,
                                           old(sessionGeneration) + 1, old(reconnectCount), None, None, None, NO_PAYLOAD)]
    {
      ReachedOne(config, View(), OConnect);
      sessionGeneration := sessionGeneration + 1;
      journal := journal + [Plain(config, CurrentSession(), SessionConnecting, RSessionConnecting, None)];
      phase, aborted := Connecting, false;
    }

    /** The login of a session that no control has aborted. */
    method RecordAuthenticated()
      requires phase == Connecting && !aborted
      modifies this
      ensures View() == Reached(config, old(View()), [OAuthenticate])
      ensures phase == Subscribing && journal == old(journal) + [EventBody(SessionAuthenticated, RSessionAuthenticated,
        config.campaign, boot, sessionGeneration, reconnectCount, None, None, None, NO_PAYLOAD)]
    {
      ReachedOne(config, View(), OAuthenticate);
      journal := journal + [Plain(config, CurrentSession(), SessionAuthenticated, RSessionAuthenticated, None)];
      phase := Subscribing;
    }

    /** Subscribed: connected, and not ready before the caches are filled. */
    method FinishSubscribing()
      requires phase == Subscribing
      modifies this
      ensures View() == Reached(config, old(View()), [OSubscribe])
      ensures phase == Live && connected && !healthReady && cachesFilled == old(cachesFilled) && journal == old(journal)
    {
      ReachedOne(config, View(), OSubscribe);
      phase, connected, healthReady := Live, true, false;
    }

    /** A history request is rate limited: caches and readiness go. */
    method RecordHistoryRateLimit(symbol: Symbol)
      modifies this
      ensures View() == Reached(config, old(View()), [OHistoryRateLimited(symbol)])
      ensures !cachesFilled && !healthReady && connected == old(connected)
      ensures journal == old(journal) + [EventBody(RateLimited, RRateLimited, config.campaign, boot,
        sessionGeneration, reconnectCount, Some(ScopeKey(symbol, 240)), None, None, NO_PAYLOAD)]
    {
      ReachedOne(config, View(), OHistoryRateLimited(symbol));
      cachesFilled, healthReady := false, false;
      journal := journal + [Plain(config, CurrentSession(), RateLimited, RRateLimited, Some(ScopeKey(symbol, 240)))];
    }

    /** Data that is delayed, aged or missing ends readiness without an event;
        caches that are no longer fresh count as not filled. */
    method SetUnavailable()
      modifies this
      ensures View() == Reached(config, old(View()), [OUnready])
      ensures !healthReady && !cachesFilled && connected == old(connected) && journal == old(journal)
    {
      ReachedOne(config, View(), OUnready);
      healthReady, cachesFilled := false, false;
    }

    /** A message that is not market data is recorded and never sent. */
    method RejectOutbound()
      modifies this
      ensures View() == Reached(config, old(View()), [OOutbound])
      ensures journal == old(journal) + [EventBody(OutboundRejected, ROutboundRejected, config.campaign, boot,
        sessionGeneration, reconnectCount, None, None, None, NO_PAYLOAD)]
    {
      ReachedOne(config, View(), OOutbound);
      journal := journal + [Plain(config, CurrentSession(), OutboundRejected, ROutboundRejected, None)];
    }

    /** A session throws: the catch block, the finally block and the counter. */
    method EndSession()
      requires phase != Waiting
      modifies this
      ensures View() == Reached(config, old(View()), [ODisconnected, OCleanUp])
      ensures phase == Waiting && !aborted && !healthReady && !connected && !cachesFilled
      ensures sessionGeneration == old(sessionGeneration) && reconnectCount == old(reconnectCount) + 1
      ensures var g, n := old(sessionGeneration), old(reconnectCount);
        journal == old(journal)
          + [EventBody(SessionDisconnected, RSessionDisconnected, config.campaign, boot, g, n, None, None, None, NO_PAYLOAD)]
          + [EventBody(CacheCleared, RCacheCleared, config.campaign, boot, g, n, None, None, None, NO_PAYLOAD)]
    {
      EndSteps(config, View());
      var session := CurrentSession();
      healthReady := false;
      journal := journal + [Plain(config, session, SessionDisconnected, RSessionDisconnected, None)];
      connected := false;
      cachesFilled := false;
      journal := journal + [Plain(config, session, CacheCleared, RCacheCleared, None)];
      phase, aborted := Waiting, false;
      reconnectCount := reconnectCount + 1;
    }

    /** The host stops the reader: a cancelled session passes no catch block, and
        its finally block is the end of the loop. */
    method ExitSession()
      requires stoppingEventRecorded && !loopExited
      modifies this
      ensures View() == Reached(config, old(View()), [OExit])
      ensures old(phase) == Waiting ==> journal == old(journal)
      ensures old(phase) != Waiting ==>
        journal == old(journal) + [EventBody(CacheCleared, RCacheCleared, config.campaign, boot,
                                     sessionGeneration, reconnectCount, None, None, None, NO_PAYLOAD)]
      ensures reconnectCount == old(reconnectCount) && loopExited && phase == Waiting
    {
      ReachedOne(config, View(), OExit);
      if phase != Waiting {
        connected := false;
        cachesFilled := false;
        journal := journal + [Plain(config, CurrentSession(), CacheCleared, RCacheCleared, None)];
        phase, aborted := Waiting, false;
      }
      loopExited := true;
    }

    /** `RecordDataFailure`: once per session generation, kind and scope. */
    method RecordDataFailure(scope: Scope, stale: bool)
      requires IsScopeKey(scope)
      modifies this
      ensures View() == Reached(config, old(View()), [ODataFailure(scope, stale)])
      ensures !healthReady && recordedDataFailures == old(recordedDataFailures) + {(sessionGeneration, stale, scope)}
      ensures (sessionGeneration, stale, scope) in old(recordedDataFailures) ==> journal == old(journal)
      ensures (sessionGeneration, stale, scope) !in old(recordedDataFailures) ==>
        journal == old(journal) +
          [if stale then
             EventBody(StaleDataDetected, RStaleData, config.campaign, boot, sessionGeneration, reconnectCount, Some(scope), None, None, NO_PAYLOAD)
           else
             EventBody(MissingDataDetected, RMissingData, config.campaign, boot, sessionGeneration, reconnectCount, Some(scope), None, None, NO_PAYLOAD)]
    {
      ReachedOne(config, View(), ODataFailure(scope, stale));
      healthReady := false;
      var key := (sessionGeneration, stale, scope);
      if key in recordedDataFailures { return; }
      recordedDataFailures := recordedDataFailures + {key};
      journal := journal + [Plain(config, CurrentSession(), if stale then StaleDataDetected else MissingDataDetected,
        if stale then RStaleData else RMissingData, Some(scope))];
    }

    /** `RecordRollEvidence`: once per product and market change. */
    method RecordRollEvidence(scope: Scope, fromMarket: string, toMarket: string)
      requires IsScopeKey(scope) && (scope.symbol, fromMarket, toMarket) in config.rolls
      modifies this
      ensures View() == Reached(config, old(View()), [ORoll(scope, fromMarket, toMarket)])
      ensures recordedRolls == old(recordedRolls) + {(scope.symbol, fromMarket, toMarket)}
      ensures (scope.symbol, fromMarket, toMarket) in old(recordedRolls) ==> journal == old(journal)
      ensures (scope.symbol, fromMarket, toMarket) !in old(recordedRolls) ==>
        journal == old(journal) + [EventBody(ContractRollObserved, RContractRollObserved, config.campaign, boot,
          sessionGeneration, reconnectCount, Some(scope), Some(RollTransition), None,
          Payload(None, None, Some(fromMarket), Some(toMarket)))]
    {
      ReachedOne(config, View(), ORoll(scope, fromMarket, toMarket));
      var key := (scope.symbol, fromMarket, toMarket);
      if key in recordedRolls { return; }
      recordedRolls := recordedRolls + {key};
      journal := journal + [RollBody(config, CurrentSession(), scope, fromMarket, toMarket)];
    }
  }
}

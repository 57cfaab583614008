/**
 Both languages together: when the bridge's handlers are not interrupted, which
 controlled scenarios the Python search can find in the journal, exactly.
 */
module ScenarioCompleteness {
  import opened Wrappers
  import opened EvidenceModel
  import opened EventSemantics
  import opened BridgeReader
  import opened OfficialReader
  import opened AtomicHandlers
  import opened ScenarioFragment
  import EvidenceJournal
  import EvidenceChain

  /** `events` is a signed journal with exactly these bodies. */
  ghost predicate Carries(events: seq<SignedEvent>, trace: seq<EventBody>) {
    && |events| == |trace|
    && forall i | 0 <= i < |events| :: events[i].claims.body == trace[i] && events[i].claims.sequenceNo == i + 1
  }

  lemma {:induction false} SealedCarries(config: BridgeConfig, trace: seq<EventBody>, draw: nat -> EvidenceJournal.Draw)
    ensures Carries(EvidenceChain.SealAll(config, trace, draw), trace)
    decreases |trace|
  {
    if trace != [] { SealedCarries(config, trace[..|trace| - 1], draw); }
  }

  /** The run whose control was applied by the event at `applied`. */
  function RunOf(action: Action, token: Token, applied: SignedEvent): ScenarioRun
    requires IsControlAction(action)
  {
    ScenarioRun(token.campaign, ScenarioOf(action).value, token.request, token.scope, action,
      ControlReceipt(applied.claims.sequenceNo, applied.eventHash))
  }

  /** The search, run for the control that `s` accepts next, succeeds. */
  predicate Proves(c: ReaderConfig, s: Reader, action: Action, token: Token, events: seq<SignedEvent>)
    requires IsControlAction(action)
  {
    var k := |Handle(c, s, HApply(action, token)).trace| - 1;
    0 <= k < |events| && Fragment(RunOf(action, token, events[k]), events).Some?
  }

  lemma {:induction false} FirstAt(events: seq<SignedEvent>, from: nat, t: Test, k: nat)
    requires from <= k < |events| && Holds(t, events[k])
    ensures var r := First(events, from, t); r.Some? && r.value <= k && Holds(t, events[r.value])
    ensures (forall i | from <= i < k :: !Holds(t, events[i])) ==> First(events, from, t) == Some(k)
  {
    FirstMeans(events, from, t);
  }

  lemma {:induction false} FirstNone(events: seq<SignedEvent>, from: nat, t: Test)
    requires forall i | from <= i < |events| :: !Holds(t, events[i])
    ensures First(events, from, t).None?
  {
    FirstMeans(events, from, t);
  }

  /** The bridge's own request and receipt are found, whatever came before. */
  lemma {:induction false} ReceiptFound(
    run: ScenarioRun, events: seq<SignedEvent>, trace: seq<EventBody>, n: nat, k: nat) returns (r: nat)
    requires Carries(events, trace) && n < k < |events|
    requires Holds(IsRequest(run), events[n]) && Holds(IsReceipt(run), events[k])
    ensures r <= n && Fragment(run, events).Some? == ScenarioEnd(run, events, r, k).Some?
  {
    FirstAt(events, 0, IsRequest(run), n);
    r := First(events, 0, IsRequest(run)).value;
    forall i | r + 1 <= i < k ensures !Holds(IsReceipt(run), events[i]) {
      assert events[i].claims.sequenceNo == i + 1 && events[k].claims.sequenceNo == k + 1;
    }
    FirstAt(events, r + 1, IsReceipt(run), k);
  }

  /** The events an accepted control leaves, first to last. */
  lemma {:induction false} AppliedTrace(c: ReaderConfig, s: Reader, action: Action, token: Token)
    requires Quiet(s) && MayApply(c, s.controls, action, token)
    ensures var a := Handle(c, s, HApply(action, token));
      var scenario := ScenarioOf(action).value;
      && Quiet(a) && |a.trace| >= |s.trace| + 2 && s.trace <= a.trace
      && a.session == Disturb(s.session, action)
      && a.controls == Arm(s.controls.(gate := Applying(action, scenario, token, false))).(gate := Free)
      && a.trace[|s.trace|] ==
           Correlated(s.session, ControlRequested, RControlRequested, scenario, token, Correlation(action, Requested))
      && a.trace[|a.trace| - 1] ==
           Correlated(s.session, ControlApplied, RControlApplied, scenario, token, Correlation(action, Applied))
      && (action == Reconnect ==> (|a.trace| == |s.trace| + 3 &&
           a.trace[|s.trace| + 1] == Correlated(s.session, CacheCleared, RCacheCleared, scenario, token, NO_PAYLOAD)))
  {
    ApplySteps(c, s, action, token);
  }

  lemma {:induction false} ControlHolds(
    s: Session, action: Action, token: Token, requested: SignedEvent, applied: SignedEvent)
    requires IsControlAction(action)
    requires requested.claims.body ==
      Correlated(s, ControlRequested, RControlRequested, ScenarioOf(action).value, token, Correlation(action, Requested))
    requires applied.claims.body ==
      Correlated(s, ControlApplied, RControlApplied, ScenarioOf(action).value, token, Correlation(action, Applied))
    ensures Holds(IsRequest(RunOf(action, token, applied)), requested)
    ensures Holds(IsReceipt(RunOf(action, token, applied)), applied)
  {
  }

  lemma {:induction false} ControlPlaced(
    c: ReaderConfig, s: Reader, action: Action, token: Token, later: seq<EventBody>, events: seq<SignedEvent>) returns (k: nat)
    requires Quiet(s) && MayApply(c, s.controls, action, token)
    requires Handle(c, s, HApply(action, token)).trace <= later && Carries(events, later)
    ensures k == |Handle(c, s, HApply(action, token)).trace| - 1 && |s.trace| < k < |events|
    ensures Holds(IsRequest(RunOf(action, token, events[k])), events[|s.trace|])
    ensures Holds(IsReceipt(RunOf(action, token, events[k])), events[k])
  {
    var a := Handle(c, s, HApply(action, token));
    AppliedTrace(c, s, action, token);
    k := |a.trace| - 1;
    assert later[|s.trace|] == a.trace[|s.trace|] && later[k] == a.trace[k];
    ControlHolds(s.session, action, token, events[|s.trace|], events[k]);
  }

  lemma {:induction false} ProvesIs(
    c: ReaderConfig, s: Reader, action: Action, token: Token, events: seq<SignedEvent>, k: nat)
    requires IsControlAction(action) && k < |events| && k == |Handle(c, s, HApply(action, token)).trace| - 1
    ensures Proves(c, s, action, token, events) == Fragment(RunOf(action, token, events[k]), events).Some?
  {
  }

  /** From a signed journal that extends the applied trace to the search's end
      phase; `r` is where the search starts, `k` the receipt. */
  lemma {:induction false} ControlFound(
    c: ReaderConfig, s: Reader, action: Action, token: Token, later: seq<EventBody>, events: seq<SignedEvent>)
    returns (r: nat, k: nat)
    requires Quiet(s) && MayApply(c, s.controls, action, token)
    requires Handle(c, s, HApply(action, token)).trace <= later && Carries(events, later)
    ensures k == |Handle(c, s, HApply(action, token)).trace| - 1 && r <= |s.trace| < k < |events|
    ensures Proves(c, s, action, token, events) == ScenarioEnd(RunOf(action, token, events[k]), events, r, k).Some?
  {
    k := ControlPlaced(c, s, action, token, later, events);
    ProvesIs(c, s, action, token, events, k);
    r := ReceiptFound(RunOf(action, token, events[k]), events, later, |s.trace|, k);
  }

  // ----- data faults -----

  predicate IsFaultAction(a: Action) { a == MissingData || a == StaleData || a == RateLimit }

  lemma {:induction false} FaultSearch(run: ScenarioRun, events: seq<SignedEvent>, r: nat, k: nat)
    requires r < k < |events| && IsFaultAction(run.action) && ScenarioOf(run.action) == Some(run.scenario)
    ensures ScenarioEnd(run, events, r, k) ==
      First(events, k + 1, IsConsumption(run, FaultEventType(FaultReason(run.action)), run.action))
  {
  }

  /** Before a read of its scope an applied data fault is not yet evidence;
      from that read on it is, in every longer journal. */
  lemma {:induction false} FaultEvidenceExact(
    c: ReaderConfig, s: Reader, action: Action, token: Token, hs: seq<Handler>,
    before: seq<SignedEvent>, later: seq<EventBody>, events: seq<SignedEvent>)
    requires Quiet(s) && MayApply(c, s.controls, action, token) && IsFaultAction(action)
    requires var a := Handle(c, s, HApply(action, token));
      && SparesAll(c, a, hs)
      && Carries(before, After(c, a, hs).trace)
      && Handle(c, After(c, a, hs), HRead(token.scope)).trace <= later && Carries(events, later)
    ensures !Proves(c, s, action, token, before) && Proves(c, s, action, token, events)
  {
    var a := Handle(c, s, HApply(action, token));
    AppliedTrace(c, s, action, token);
    SparedRun(c, a, hs);
    var b := After(c, a, hs);
    var fault := FaultFor(action, ScenarioOf(action).value, token);
    assert a.controls.fault == Some(fault);
    ConsumeSteps(c, b, fault);
    FaultNotYet(c, s, action, token, b, before);
    FaultThen(c, s, action, token, b, later, events);
  }

  lemma {:induction false} NoFaultEvidence(run: ScenarioRun, e: SignedEvent)
    requires IsFaultAction(run.action) && !IsFaultEvidence(e.claims.body)
    ensures !Holds(IsConsumption(run, FaultEventType(FaultReason(run.action)), run.action), e)
  {
  }

  lemma {:induction false} FaultNotYet(
    c: ReaderConfig, s: Reader, action: Action, token: Token, b: Reader, before: seq<SignedEvent>)
    requires Quiet(s) && MayApply(c, s.controls, action, token) && IsFaultAction(action)
    requires var a := Handle(c, s, HApply(action, token));
      a.trace <= b.trace && Waits(a.controls, a.session.boot, b.trace, |a.trace|) && a.controls.fault.Some?
    requires Carries(before, b.trace)
    ensures !Proves(c, s, action, token, before)
  {
    var r, k := ControlFound(c, s, action, token, b.trace, before);
    var run := RunOf(action, token, before[k]);
    FaultSearch(run, before, r, k);
    forall i | k + 1 <= i < |before|
      ensures !Holds(IsConsumption(run, FaultEventType(FaultReason(action)), action), before[i])
    {
      assert before[i].claims.body == b.trace[i];
      NoFaultEvidence(run, before[i]);
    }
    FirstNone(before, k + 1, IsConsumption(run, FaultEventType(FaultReason(action)), action));
  }

  lemma {:induction false} FaultThen(
    c: ReaderConfig, s: Reader, action: Action, token: Token, b: Reader, later: seq<EventBody>, events: seq<SignedEvent>)
    requires Quiet(s) && MayApply(c, s.controls, action, token) && IsFaultAction(action)
    requires Handle(c, s, HApply(action, token)).trace <= b.trace
    requires b.trace + [FaultBody(b.session, FaultFor(action, ScenarioOf(action).value, token))] <= later
    requires Carries(events, later)
    ensures Proves(c, s, action, token, events)
  {
    assert Handle(c, s, HApply(action, token)).trace <= later;
    var r, k := ControlFound(c, s, action, token, later, events);
    var run := RunOf(action, token, events[k]);
    FaultSearch(run, events, r, k);
    assert events[|b.trace|].claims.body == FaultBody(b.session, FaultFor(action, ScenarioOf(action).value, token));
    FirstAt(events, k + 1, IsConsumption(run, FaultEventType(FaultReason(action)), action), |b.trace|);
  }

  // ----- reconnect -----

  /** Some session ended while these handlers ran. */
  predicate SessionFailed(c: ReaderConfig, s: Reader, hs: seq<Handler>)
    decreases |hs|
  {
    hs != [] &&
    var front, h := hs[..|hs| - 1], hs[|hs| - 1];
    SessionFailed(c, s, front) || (h == HEnd && After(c, s, front).session.phase != Waiting)
  }

  /** The aborted session still stands, or the loop ended with it. */
  predicate IsDown(s: Session) { if s.phase == Waiting then s.exited else s.aborted }

  /** After a reconnect that aborted a session iff `had`: not ready, and as long
      as no session has failed the aborted one still stands or was the last. */
  predicate Fallen(s: Reader, base: nat, had: bool) {
    && !s.session.ready
    && (had && !TypeIn(s.trace, base, SessionDisconnected) ==> IsDown(s.session))
    && (TypeIn(s.trace, base, SessionDisconnected) ==> TypeIn(s.trace, base, CacheCleared))
  }

  lemma {:induction false} DisconnectedStep(s: Reader, t: Reader, h: Handler, base: nat)
    requires Emits(s, t, h) && base <= |s.trace|
    requires h != HEnd || s.session.phase == Waiting
    ensures TypeIn(t.trace, base, SessionDisconnected) <==> TypeIn(s.trace, base, SessionDisconnected)
    ensures TypeIn(s.trace, base, CacheCleared) ==> TypeIn(t.trace, base, CacheCleared)
  {
  }

  lemma {:induction false} EndFalls(c: ReaderConfig, s: Reader, base: nat)
    requires Quiet(s) && base <= |s.trace| && s.session.phase != Waiting && !s.session.ready
    ensures var t := Handle(c, s, HEnd);
      Fallen(t, base, true) && Fallen(t, base, false) && TypeIn(t.trace, base, SessionDisconnected)
  {
    EndSteps(c, s);
    var t := Handle(c, s, HEnd);
    assert t.trace[|s.trace|].eventType == SessionDisconnected;
    assert t.trace[|s.trace| + 1].eventType == CacheCleared;
  }

  lemma {:induction false} SessionKept(c: ReaderConfig, s: Reader, h: Handler)
    requires Quiet(s) && s.controls.reconnect.Some? && Spares(s, h) && h != HEnd && !s.session.ready
    ensures var t := Handle(c, s, h).session;
      && !t.ready
      && (IsDown(s.session) ==> IsDown(t))
  {
    if h.HApply? { ApplyEmits(c, s, h.action, h.token); }
    else if IsObservation(h) { ObservationEmits(c, s, h); }
    else if h == HConnect { ReachedOne(c, s, OConnect); }
    else if h == HAuthenticate { ReachedOne(c, s, OAuthenticate); }
    else if h == HSubscribe { ReachedOne(c, s, OSubscribe); }
    else if h == HFill { ReachedOne(c, s, OFill); }
    else if h == HExit { ReachedOne(c, s, OExit); }
    else { TakeEmits(c, s, h); }
  }

  lemma {:induction false} FallenStep(c: ReaderConfig, s: Reader, h: Handler, base: nat, had: bool)
    requires Quiet(s) && s.controls.reconnect.Some? && Spares(s, h)
    requires base <= |s.trace| && Fallen(s, base, had)
    ensures Fallen(Handle(c, s, h), base, had)
    ensures TypeIn(Handle(c, s, h).trace, base, SessionDisconnected) <==>
            TypeIn(s.trace, base, SessionDisconnected) || (h == HEnd && s.session.phase != Waiting)
  {
    if h == HEnd && s.session.phase != Waiting {
      EndFalls(c, s, base);
    } else {
      HandleEmits(c, s, h);
      DisconnectedStep(s, Handle(c, s, h), h, base);
      if h != HEnd { SessionKept(c, s, h); }
    }
  }

  lemma {:induction false} FallenRun(c: ReaderConfig, s: Reader, hs: seq<Handler>, base: nat, had: bool)
    requires Quiet(s) && s.controls.reconnect.Some? && SparesAll(c, s, hs)
    requires base == |s.trace| && Fallen(s, base, had)
    ensures Fallen(After(c, s, hs), base, had)
    ensures TypeIn(After(c, s, hs).trace, base, SessionDisconnected) <==> SessionFailed(c, s, hs)
    decreases |hs|
  {
    if hs != [] {
      var front, h := hs[..|hs| - 1], hs[|hs| - 1];
      SparesFront(c, s, hs);
      FallenRun(c, s, front, base, had);
      SparedRun(c, s, front);
      FallenStep(c, After(c, s, front), h, base, had);
    }
  }

  lemma {:induction false} ReadyIsFirst(
    run: ScenarioRun, events: seq<SignedEvent>, later: seq<EventBody>, k: nat, m: nat)
    requires Carries(events, later) && k < m < |events|
    requires LinkedTo(run, later[m]) && HasStep(later[m], SessionReady, Reconnect, Consumed)
    requires forall i | k < i < m :: later[i].eventType != SessionReady
    ensures First(events, k + 1, IsConsumption(run, SessionReady, Reconnect)) == Some(m)
  {
    var t := IsConsumption(run, SessionReady, Reconnect);
    forall i | k + 1 <= i < m ensures !Holds(t, events[i]) { assert events[i].claims.body == later[i]; }
    FirstAt(events, k + 1, t, m);
  }

  /** The search's last phase for a reconnect whose first ready event of any
      kind after the receipt at `k` is its own, at `m`. */
  lemma {:induction false} ReconnectSearch(
    run: ScenarioRun, events: seq<SignedEvent>, later: seq<EventBody>, r: nat, k: nat, m: nat)
    requires Carries(events, later) && r + 1 < k < m < |events| && run.scenario == ReconnectScenario
    requires LinkedTo(run, later[k - 1]) && later[k - 1].eventType == CacheCleared
    requires First(events, k + 1, IsConsumption(run, SessionReady, Reconnect)) == Some(m)
    ensures ReconnectEnd(run, events, r, k).Some? <==> ReconnectTypes(events, k + 1, m + 1)
  {
  }

  lemma {:induction false} TypesFromTrace(
    events: seq<SignedEvent>, later: seq<EventBody>, trace: seq<EventBody>, base: nat)
    requires Carries(events, later) && trace <= later && base < |trace|
    requires trace[|trace| - 1].eventType == SessionReady
    requires TypeIn(trace, base, SessionConnecting) && TypeIn(trace, base, SessionAuthenticated)
    requires TypeIn(trace, base, SessionDisconnected) ==> TypeIn(trace, base, CacheCleared)
    ensures ReconnectTypes(events, base, |trace|) <==> TypeIn(trace, base, SessionDisconnected)
  {
  }

  /** The cleared event before the receipt at `k` and the ready event at `m`. */
  lemma {:induction false} ReconnectMarks(
    s: Session, t: Session, token: Token, receipt: SignedEvent, cleared: EventBody, ready: EventBody, c: ReaderConfig)
    requires cleared == Correlated(s, CacheCleared, RCacheCleared, ReconnectScenario, token, NO_PAYLOAD)
    requires ready == ReadyBody(c, t, Some(token))
    ensures var run := RunOf(Reconnect, token, receipt);
      && run.scenario == ReconnectScenario
      && LinkedTo(run, cleared) && cleared.eventType == CacheCleared
      && LinkedTo(run, ready) && HasStep(ready, SessionReady, Reconnect, Consumed)
  {
  }

  lemma {:induction false} ReconnectFound(
    c: ReaderConfig, s: Reader, token: Token, a: Reader, b: Reader, d: Reader,
    later: seq<EventBody>, events: seq<SignedEvent>, r: nat, k: nat)
    requires a.trace <= b.trace && d.trace == b.trace + [ReadyBody(c, b.session, Some(token))] && d.trace <= later
    requires |a.trace| == |s.trace| + 3 && k == |a.trace| - 1 && r <= |s.trace| && Carries(events, later)
    requires a.trace[k - 1] == Correlated(s.session, CacheCleared, RCacheCleared, ReconnectScenario, token, NO_PAYLOAD)
    requires forall i | |a.trace| <= i < |b.trace| :: b.trace[i].eventType != SessionReady
    ensures ScenarioEnd(RunOf(Reconnect, token, events[k]), events, r, k).Some? <==>
            ReconnectTypes(events, |a.trace|, |d.trace|)
  {
    var run := RunOf(Reconnect, token, events[k]);
    ReconnectMarks(s.session, b.session, token, events[k], a.trace[k - 1], d.trace[|b.trace|], c);
    assert later[k - 1] == a.trace[k - 1] && later[|b.trace|] == d.trace[|b.trace|];
    forall i | k < i < |b.trace| ensures later[i].eventType != SessionReady { assert later[i] == b.trace[i]; }
    ReadyIsFirst(run, events, later, k, |b.trace|);
    ReconnectSearch(run, events, later, r, k, |b.trace|);
  }

  /** A ready event adds none of the other types. */
  lemma {:induction false} TypesBeforeReady(xs: seq<EventBody>, ys: seq<EventBody>, base: nat)
    requires xs <= ys && |ys| == |xs| + 1 && base <= |xs| && ys[|xs|].eventType == SessionReady
    requires TypeIn(xs, base, SessionConnecting) && TypeIn(xs, base, SessionAuthenticated)
    requires TypeIn(xs, base, SessionDisconnected) ==> TypeIn(xs, base, CacheCleared)
    ensures TypeIn(ys, base, SessionConnecting) && TypeIn(ys, base, SessionAuthenticated)
    ensures TypeIn(ys, base, SessionDisconnected) <==> TypeIn(xs, base, SessionDisconnected)
    ensures TypeIn(ys, base, SessionDisconnected) ==> TypeIn(ys, base, CacheCleared)
  {
  }

  /** A session that is warm again has connected and authenticated since, and
      the aborted one has been told as disconnected. */
  lemma {:induction false} WarmAgain(c: ReaderConfig, a: Reader, hs: seq<Handler>, had: bool)
    requires Quiet(a) && a.controls.reconnect.Some? && SparesAll(c, a, hs)
    requires Fallen(a, |a.trace|, had) && SessionTold(a.session, a.trace, |a.trace|) && After(c, a, hs).session.warm
    ensures var b, base := After(c, a, hs).trace, |a.trace|;
      && TypeIn(b, base, SessionConnecting) && TypeIn(b, base, SessionAuthenticated)
      && (TypeIn(b, base, SessionDisconnected) ==> TypeIn(b, base, CacheCleared))
      && (TypeIn(b, base, SessionDisconnected) <==> had || SessionFailed(c, a, hs))
  {
    SparedNoReboot(c, a, hs);
    ToldRun(c, a, hs, |a.trace|);
    FallenRun(c, a, hs, |a.trace|, had);
  }

  /** What the journal holds between the receipt and the ready event. */
  lemma {:induction false} ReconnectRun(c: ReaderConfig, s: Reader, token: Token, hs: seq<Handler>)
    requires Quiet(s) && MayApply(c, s.controls, Reconnect, token)
    requires var a := Handle(c, s, HApply(Reconnect, token));
      && SparesAll(c, a, hs) && After(c, a, hs).session.connected && After(c, a, hs).session.warm
    ensures var a := Handle(c, s, HApply(Reconnect, token));
      var b := After(c, a, hs);
      var base := |a.trace|;
      && base == |s.trace| + 3 && s.trace <= a.trace <= b.trace
      && a.trace[base - 2] == Correlated(s.session, CacheCleared, RCacheCleared, ReconnectScenario, token, NO_PAYLOAD)
      && Handle(c, b, HReady).trace == b.trace + [ReadyBody(c, b.session, Some(token))]
      && (forall i | base <= i < |b.trace| :: b.trace[i].eventType != SessionReady)
      && TypeIn(b.trace, base, SessionConnecting) && TypeIn(b.trace, base, SessionAuthenticated)
      && (TypeIn(b.trace, base, SessionDisconnected) ==> TypeIn(b.trace, base, CacheCleared))
      && (TypeIn(b.trace, base, SessionDisconnected) <==> s.session.phase != Waiting || SessionFailed(c, a, hs))
  {
    var a := Handle(c, s, HApply(Reconnect, token));
    AppliedTrace(c, s, Reconnect, token);
    SparedRun(c, a, hs);
    WarmAgain(c, a, hs, s.session.phase != Waiting);
    FallenRun(c, a, hs, |a.trace|, s.session.phase != Waiting);
    ReadySteps(c, After(c, a, hs));
  }

  /** A reconnect that was applied and whose session then became ready is found
      in the journal, and in every longer one, exactly when there was a session
      to abort or one failed meanwhile.  Applied between two sessions of a loop
      that then connects at once, it can never be found. */
  lemma {:induction false} ReconnectEvidenceExact(
    c: ReaderConfig, s: Reader, token: Token, hs: seq<Handler>, later: seq<EventBody>, events: seq<SignedEvent>)
    requires Quiet(s) && MayApply(c, s.controls, Reconnect, token)
    requires var a := Handle(c, s, HApply(Reconnect, token));
      && SparesAll(c, a, hs)
      && After(c, a, hs).session.connected && After(c, a, hs).session.warm
      && Handle(c, After(c, a, hs), HReady).trace <= later && Carries(events, later)
    ensures Proves(c, s, Reconnect, token, events) <==>
            s.session.phase != Waiting || SessionFailed(c, Handle(c, s, HApply(Reconnect, token)), hs)
  {
    var a := Handle(c, s, HApply(Reconnect, token));
    var b := After(c, a, hs);
    var d := Handle(c, b, HReady);
    ReconnectRun(c, s, token, hs);
    var r, k := ControlFound(c, s, Reconnect, token, later, events);
    ReconnectFound(c, s, token, a, b, d, later, events, r, k);
    TypesBeforeReady(b.trace, d.trace, |a.trace|);
    TypesFromTrace(events, later, d.trace, |a.trace|);
  }

  lemma {:induction false} NoEndNoFailure(c: ReaderConfig, s: Reader, hs: seq<Handler>)
    requires HEnd !in hs
    ensures !SessionFailed(c, s, hs)
    decreases |hs|
  {
    if hs != [] { NoEndNoFailure(c, s, hs[..|hs| - 1]); }
  }

  /** The lost reconnect: the control reaches a process that has just started;
      its first session then comes up and announces readiness with the token,
      and the search finds nothing in this and every longer journal. */
  lemma {:induction false} ReconnectLostExample(
    c: ReaderConfig, boot: Guid, token: Token, later: seq<EventBody>, events: seq<SignedEvent>)
    requires MayApply(c, IDLE_CONTROLS, Reconnect, token)
    requires var a := Handle(c, Reboot(c, [], boot), HApply(Reconnect, token));
      Handle(c, After(c, a, STARTUP), HReady).trace <= later && Carries(events, later)
    ensures var s := Reboot(c, [], boot);
      var d := Handle(c, After(c, Handle(c, s, HApply(Reconnect, token)), STARTUP), HReady);
      && d.session.ready && d.controls.reconnect.None?
      && !Proves(c, s, Reconnect, token, events)
  {
    var s := Reboot(c, [], boot);
    var a := Handle(c, s, HApply(Reconnect, token));
    AppliedTrace(c, s, Reconnect, token);
    StartupBecomesReady(c, a);
    NoEndNoFailure(c, a, STARTUP);
    forall i | 0 <= i < |STARTUP| ensures Spares(After(c, a, STARTUP[..i]), STARTUP[i]) { }
    ReadySteps(c, After(c, a, STARTUP));
    ReconnectEvidenceExact(c, s, token, STARTUP, later, events);
  }
}

/**
 The bridge with every handler run to its end before the next one starts, and
 what a session's life leaves in the journal.
 */
module AtomicHandlers {
  import opened Wrappers
  import opened EvidenceModel
  import opened BridgeReader
  import opened OfficialReader

  datatype Handler =
    | HApply(action: Action, token: Token) | HRead(scope: Scope) | HReady | HStop
    | HConnect | HAuthenticate | HSubscribe | HFill | HEnd | HExit | HUnready
    | HDataFailure(failed: Scope, stale: bool) | HRateLimited(symbol: Symbol)
    | HRoll(rolled: Scope, fromMarket: string, toMarket: string) | HOutbound
    | HCheckpoint(request: Guid, generation: nat, reconnects: nat)
    | HReboot(boot: Guid)

  /** `RefreshHealth` reaches the ready transition, and the session was not ready. */
  predicate BecomesReady(s: Session) { s.connected && s.warm && !s.ready }

  predicate TakesFault(k: Controls, scope: Scope) { k.fault.Some? && k.fault.value.token.scope == scope }

  /** The steps of one handler that nobody interrupts. */
  function StepsOf(s: Reader, h: Handler): seq<Op> {
    match h
    case HApply(action, token) => ApplyOps(action, token)
    case HRead(scope) => if TakesFault(s.controls, scope) then ConsumeOps(s.controls.fault.value) else []
    case HReady => if BecomesReady(s.session) then ReadyOps(s.controls.reconnect) else []
    case HStop => if s.controls.stopping then [] else StopOps(s.controls.restart)
    case HConnect => [OConnect]
    case HAuthenticate => [OAuthenticate]
    case HSubscribe => [OSubscribe]
    case HFill => [OFill]
    case HEnd => if s.session.phase == Waiting then [] else [ODisconnected, OCleanUp]
    case HExit => [OExit]
    case HUnready => [OUnready]
    case HDataFailure(scope, stale) => [ODataFailure(scope, stale)]
    case HRateLimited(symbol) => [OHistoryRateLimited(symbol)]
    case HRoll(scope, fromMarket, toMarket) => [ORoll(scope, fromMarket, toMarket)]
    case HOutbound => [OOutbound]
    case HCheckpoint(request, generation, reconnects) => [OCheckpoint(request, generation, reconnects)]
    case HReboot(boot) => [OReboot(boot)]
  }

  function Handle(c: ReaderConfig, s: Reader, h: Handler): Reader { Reached(c, s, StepsOf(s, h)) }

  /** The handler that consists of this step alone. */
  function HandlerOf(op: Op): Option<Handler> {
    match op
    case OConnect => Some(HConnect)
    case OAuthenticate => Some(HAuthenticate)
    case OSubscribe => Some(HSubscribe)
    case OFill => Some(HFill)
    case OExit => Some(HExit)
    case OUnready => Some(HUnready)
    case ODataFailure(scope, stale) => Some(HDataFailure(scope, stale))
    case OHistoryRateLimited(symbol) => Some(HRateLimited(symbol))
    case ORoll(scope, fromMarket, toMarket) => Some(HRoll(scope, fromMarket, toMarket))
    case OOutbound => Some(HOutbound)
    case OCheckpoint(request, generation, reconnects) => Some(HCheckpoint(request, generation, reconnects))
    case OReboot(boot) => Some(HReboot(boot))
    case _ => None
  }

  /** Every step outside the control gate, and outside the end of a session, is a
      handler of its own. */
  lemma {:induction false} SingleSteps(c: ReaderConfig, s: Reader, op: Op)
    ensures HandlerOf(op).Some? ==> Handle(c, s, HandlerOf(op).value) == Step(c, s, op)
    ensures HandlerOf(op).None? <==> IsControlOp(op) || op == ODisconnected || op == OCleanUp
  {
    ReachedOne(c, s, op);
  }

  function After(c: ReaderConfig, s: Reader, hs: seq<Handler>): Reader
    decreases |hs|
  {
    if hs == [] then s else Handle(c, After(c, s, hs[..|hs| - 1]), hs[|hs| - 1])
  }

  /** The process neither dies nor is replaced. */
  predicate NoReboot(hs: seq<Handler>) { forall i | 0 <= i < |hs| :: !hs[i].HReboot? }

  /** Nobody holds the gate and nothing is in flight. */
  predicate Quiet(s: Reader) { s.controls.gate == Free && s.controls.flight == multiset{} }

  predicate TypeIn(trace: seq<EventBody>, base: nat, t: EventType) {
    exists i | base <= i < |trace| :: trace[i].eventType == t
  }

  predicate IsFaultEvidence(b: EventBody) {
    b.payload.step == Some(Consumed) && b.eventType in {MissingDataDetected, StaleDataDetected, RateLimited}
  }

  /** What one uninterrupted handler does to the journal and to the controls. */
  ghost predicate Emits(s: Reader, t: Reader, h: Handler) {
    && Quiet(t) && s.trace <= t.trace
    && forall i | |s.trace| <= i < |t.trace| ::
         && (t.trace[i].eventType == SessionReady ==> h == HReady)
         && (t.trace[i].eventType == SessionDisconnected ==> h == HEnd && s.session.phase != Waiting)
         && (t.trace[i].eventType == BridgeStopping ==> h == HStop)
         && (t.trace[i].eventType == BridgeStarted ==> h.HReboot?)
         && (t.trace[i].boot == if h.HReboot? then h.boot else s.session.boot)
         && (IsFaultEvidence(t.trace[i]) ==> h.HRead? && TakesFault(s.controls, h.scope))
  }

  lemma {:induction false} ApplyEmits(c: ReaderConfig, s: Reader, action: Action, token: Token)
    requires Quiet(s)
    ensures Emits(s, Handle(c, s, HApply(action, token)), HApply(action, token))
    ensures var t := Handle(c, s, HApply(action, token));
      if MayApply(c, s.controls, action, token) then t.session == Disturb(s.session, action) else t == s
  {
    if MayApply(c, s.controls, action, token) {
      ApplySteps(c, s, action, token);
    } else {
      ReachedThree(c, s, OBegin(action, token), OEffect, OFinish);
    }
  }

  lemma {:induction false} TakeEmits(c: ReaderConfig, s: Reader, h: Handler)
    requires Quiet(s) && (h.HRead? || h == HReady || h == HStop)
    ensures var t := Handle(c, s, h);
      && Emits(s, t, h)
      && t.session == if h == HReady && BecomesReady(s.session) then s.session.(ready := true) else s.session
  {
    match h
    case HRead(scope) => if TakesFault(s.controls, scope) { ConsumeSteps(c, s, s.controls.fault.value); }
    case HReady => if BecomesReady(s.session) { ReadySteps(c, s); }
    case HStop => if !s.controls.stopping { StopSteps(c, s); }
  }

  /** A health refresh records readiness exactly for a connected session with
      filled caches that was not ready, and does nothing otherwise. */
  lemma {:induction false} RefreshExactly(c: ReaderConfig, s: Reader)
    requires Quiet(s)
    ensures var t := Handle(c, s, HReady);
      if s.session.connected && s.session.warm && !s.session.ready then
        t.session.ready && |t.trace| == |s.trace| + 1 && t.trace[|s.trace|].eventType == SessionReady &&
        t.controls.reconnect.None?
      else t == s
  {
    if BecomesReady(s.session) { ReadySteps(c, s); }
  }

  predicate IsLoopHandler(h: Handler) {
    h.HConnect? || h.HAuthenticate? || h.HSubscribe? || h.HFill? || h.HEnd? || h.HExit?
  }

  lemma {:induction false} EndEmits(c: ReaderConfig, s: Reader)
    requires Quiet(s)
    ensures var t := Handle(c, s, HEnd); Emits(s, t, HEnd) && t.controls == s.controls
  {
    if s.session.phase != Waiting { EndSteps(c, s); }
  }

  lemma {:induction false} ExitEmits(c: ReaderConfig, s: Reader)
    requires Quiet(s)
    ensures var t := Handle(c, s, HExit); Emits(s, t, HExit) && t.controls == s.controls
  {
    ReachedOne(c, s, OExit);
  }

  lemma {:induction false} LoopEmits(c: ReaderConfig, s: Reader, h: Handler)
    requires Quiet(s) && IsLoopHandler(h)
    ensures var t := Handle(c, s, h); Emits(s, t, h) && t.controls == s.controls
  {
    match h
    case HConnect => ReachedOne(c, s, OConnect);
    case HAuthenticate => ReachedOne(c, s, OAuthenticate);
    case HSubscribe => ReachedOne(c, s, OSubscribe);
    case HFill => ReachedOne(c, s, OFill);
    case HEnd => EndEmits(c, s);
    case HExit => ExitEmits(c, s);
  }

  predicate IsObservation(h: Handler) {
    h.HUnready? || h.HDataFailure? || h.HRateLimited? || h.HRoll? || h.HOutbound? || h.HCheckpoint?
  }

  /** Readiness and caches may fall; nothing else of the session moves. */
  predicate OnlyFalls(s: Session, t: Session) {
    t == s || t == s.(ready := false) || t == s.(warm := false, ready := false)
  }

  lemma {:induction false} FailureEmits(c: ReaderConfig, s: Reader, scope: Scope, stale: bool)
    requires Quiet(s)
    ensures var t := Step(c, s, ODataFailure(scope, stale));
      Emits(s, t, HDataFailure(scope, stale)) && t.controls == s.controls && OnlyFalls(s.session, t.session)
  {
  }

  lemma {:induction false} RollEmits(c: ReaderConfig, s: Reader, scope: Scope, fromMarket: string, toMarket: string)
    requires Quiet(s)
    ensures var t := Step(c, s, ORoll(scope, fromMarket, toMarket));
      Emits(s, t, HRoll(scope, fromMarket, toMarket)) && t.controls == s.controls && t.session == s.session
  {
  }

  lemma {:induction false} RateLimitEmits(c: ReaderConfig, s: Reader, symbol: Symbol)
    requires Quiet(s)
    ensures var t := Step(c, s, OHistoryRateLimited(symbol));
      Emits(s, t, HRateLimited(symbol)) && t.controls == s.controls && OnlyFalls(s.session, t.session)
  {
  }

  lemma {:induction false} OutboundEmits(c: ReaderConfig, s: Reader)
    requires Quiet(s)
    ensures var t := Step(c, s, OOutbound);
      Emits(s, t, HOutbound) && t.controls == s.controls && t.session == s.session
  {
  }

  lemma {:induction false} CheckpointEmits(c: ReaderConfig, s: Reader, request: Guid, generation: nat, reconnects: nat)
    requires Quiet(s)
    ensures var t := Step(c, s, OCheckpoint(request, generation, reconnects));
      Emits(s, t, HCheckpoint(request, generation, reconnects)) && t.controls == s.controls && t.session == s.session
  {
  }

  lemma {:induction false} ObservationEmits(c: ReaderConfig, s: Reader, h: Handler)
    requires Quiet(s) && IsObservation(h)
    ensures var t := Handle(c, s, h);
      Emits(s, t, h) && t.controls == s.controls && OnlyFalls(s.session, t.session)
  {
    match h
    case HUnready => ReachedOne(c, s, OUnready);
    case HDataFailure(scope, stale) =>
      ReachedOne(c, s, ODataFailure(scope, stale));
      FailureEmits(c, s, scope, stale);
    case HRoll(scope, fromMarket, toMarket) =>
      ReachedOne(c, s, ORoll(scope, fromMarket, toMarket));
      RollEmits(c, s, scope, fromMarket, toMarket);
    case HRateLimited(symbol) =>
      ReachedOne(c, s, OHistoryRateLimited(symbol));
      RateLimitEmits(c, s, symbol);
    case HOutbound =>
      ReachedOne(c, s, OOutbound);
      OutboundEmits(c, s);
    case HCheckpoint(request, generation, reconnects) =>
      ReachedOne(c, s, OCheckpoint(request, generation, reconnects));
      CheckpointEmits(c, s, request, generation, reconnects);
  }

  lemma {:induction false} HandleEmits(c: ReaderConfig, s: Reader, h: Handler)
    requires Quiet(s) && (h.HReboot? ==> h.boot != EMPTY_GUID)
    ensures Emits(s, Handle(c, s, h), h)
  {
    if h.HApply? { ApplyEmits(c, s, h.action, h.token); }
    else if h.HRead? || h == HReady || h == HStop { TakeEmits(c, s, h); }
    else if IsLoopHandler(h) { LoopEmits(c, s, h); }
    else if IsObservation(h) { ObservationEmits(c, s, h); }
    else { ReachedOne(c, s, OReboot(h.boot)); }
  }

  // ----- the life of a session -----

  /** Since `base` the journal tells how the current session got where it is. */
  predicate SessionTold(s: Session, trace: seq<EventBody>, base: nat) {
    && (s.warm ==> s.phase == Live && !s.aborted)
    && (s.phase != Waiting && !s.aborted ==> TypeIn(trace, base, SessionConnecting))
    && (s.phase in {Subscribing, Live} && !s.aborted ==> TypeIn(trace, base, SessionAuthenticated))
  }

  lemma {:induction false} TypeInGrows(xs: seq<EventBody>, ys: seq<EventBody>, base: nat, t: EventType)
    requires xs <= ys && TypeIn(xs, base, t)
    ensures TypeIn(ys, base, t)
  {
  }

  lemma {:induction false} ToldGrows(s: Session, xs: seq<EventBody>, ys: seq<EventBody>, base: nat)
    requires xs <= ys && SessionTold(s, xs, base)
    ensures SessionTold(s, ys, base)
  {
  }

  lemma {:induction false} ToldLoop(c: ReaderConfig, s: Reader, h: Handler, base: nat)
    requires Quiet(s) && IsLoopHandler(h) && base <= |s.trace| && SessionTold(s.session, s.trace, base)
    ensures var t := Handle(c, s, h); SessionTold(t.session, t.trace, base)
  {
    var t := Handle(c, s, h);
    LoopEmits(c, s, h);
    ToldGrows(s.session, s.trace, t.trace, base);
    match h
    case HConnect =>
      ReachedOne(c, s, OConnect);
      if s.session.phase == Waiting && !s.session.exited { assert t.trace[|s.trace|].eventType == SessionConnecting; }
    case HAuthenticate =>
      ReachedOne(c, s, OAuthenticate);
      if t != s { assert t.trace[|s.trace|].eventType == SessionAuthenticated; }
    case HSubscribe => ReachedOne(c, s, OSubscribe);
    case HFill => ReachedOne(c, s, OFill);
    case HEnd => if s.session.phase != Waiting { EndSteps(c, s); }
    case HExit => ReachedOne(c, s, OExit);
  }

  lemma {:induction false} ToldStep(c: ReaderConfig, s: Reader, h: Handler, base: nat)
    requires Quiet(s) && !h.HReboot? && base <= |s.trace| && SessionTold(s.session, s.trace, base)
    ensures var t := Handle(c, s, h); SessionTold(t.session, t.trace, base)
  {
    var t := Handle(c, s, h);
    HandleEmits(c, s, h);
    if IsLoopHandler(h) { ToldLoop(c, s, h, base); }
    else {
      ToldGrows(s.session, s.trace, t.trace, base);
      if h.HApply? { ApplyEmits(c, s, h.action, h.token); }
      else if IsObservation(h) { ObservationEmits(c, s, h); }
      else { TakeEmits(c, s, h); }
    }
  }

  // ----- a pending control until its consumer runs -----

  /** Not the consumer of a pending control, nor a restart that drops it.  A
      refresh that finds nothing to announce, or a second stop, consumes nothing. */
  predicate Spares(s: Reader, h: Handler) {
    && !h.HReboot?
    && (s.controls.reconnect.Some? ==> h != HReady || !BecomesReady(s.session))
    && (s.controls.restart.Some? ==> h != HStop || s.controls.stopping)
    && (s.controls.fault.Some? ==> h != HRead(s.controls.fault.value.token.scope))
  }

  predicate SparesAll(c: ReaderConfig, s: Reader, hs: seq<Handler>) {
    forall i | 0 <= i < |hs| :: Spares(After(c, s, hs[..i]), hs[i])
  }

  predicate SamePending(k: Controls, l: Controls) {
    l.fault == k.fault && l.reconnect == k.reconnect && l.restart == k.restart &&
    (k.restart.Some? ==> l.stopping == k.stopping)
  }

  /** Not an event that consumes a pending control. */
  predicate Unconsumed(k: Controls, b: EventBody) {
    && (k.reconnect.Some? ==> b.eventType != SessionReady)
    && (k.restart.Some? ==> b.eventType != BridgeStopping)
    && (k.fault.Some? ==> !IsFaultEvidence(b))
  }

  lemma {:induction false} SparedNoReboot(c: ReaderConfig, s: Reader, hs: seq<Handler>)
    requires SparesAll(c, s, hs)
    ensures NoReboot(hs)
  {
    forall i | 0 <= i < |hs| ensures !hs[i].HReboot? { assert Spares(After(c, s, hs[..i]), hs[i]); }
  }

  lemma {:induction false} SparesFront(c: ReaderConfig, s: Reader, hs: seq<Handler>)
    requires SparesAll(c, s, hs) && hs != []
    ensures SparesAll(c, s, hs[..|hs| - 1])
    ensures Spares(After(c, s, hs[..|hs| - 1]), hs[|hs| - 1])
  {
    var front := hs[..|hs| - 1];
    forall i | 0 <= i < |front| ensures Spares(After(c, s, front[..i]), front[i]) {
      assert front[..i] == hs[..i];
    }
  }

  lemma {:induction false} SparedControls(c: ReaderConfig, s: Reader, h: Handler)
    requires Quiet(s) && !NothingPending(s.controls) && Spares(s, h)
    ensures SamePending(s.controls, Handle(c, s, h).controls)
  {
    if h.HApply? { ApplyEmits(c, s, h.action, h.token); }
    else if h == HReady { if BecomesReady(s.session) { ReadySteps(c, s); } }
    else if h == HStop { if !s.controls.stopping { StopSteps(c, s); } }
    else if IsLoopHandler(h) { LoopEmits(c, s, h); }
    else if IsObservation(h) { ObservationEmits(c, s, h); }
  }

  lemma {:induction false} SparedEvents(c: ReaderConfig, s: Reader, h: Handler)
    requires Quiet(s) && Spares(s, h)
    ensures var t := Handle(c, s, h);
      && Quiet(t) && s.trace <= t.trace && t.session.boot == s.session.boot
      && Waits(s.controls, s.session.boot, t.trace, |s.trace|)
  {
    HandleEmits(c, s, h);
    BootKept(c, s, h);
  }

  /** The events since `from` neither consume nor leave the boot. */
  ghost predicate Waits(k: Controls, boot: Guid, trace: seq<EventBody>, from: nat) {
    forall i | from <= i < |trace| ::
      Unconsumed(k, trace[i]) && trace[i].boot == boot && trace[i].eventType != BridgeStarted
  }

  lemma {:induction false} SameUnconsumed(k: Controls, l: Controls)
    requires SamePending(k, l)
    ensures forall b: EventBody :: Unconsumed(k, b) <==> Unconsumed(l, b)
  {
  }

  lemma {:induction false} SparedRun(c: ReaderConfig, s: Reader, hs: seq<Handler>)
    requires Quiet(s) && !NothingPending(s.controls) && SparesAll(c, s, hs)
    ensures var t := After(c, s, hs);
      && Quiet(t) && SamePending(s.controls, t.controls) && t.session.boot == s.session.boot
      && s.trace <= t.trace && Waits(s.controls, s.session.boot, t.trace, |s.trace|)
    decreases |hs|
  {
    if hs != [] {
      var front, h := hs[..|hs| - 1], hs[|hs| - 1];
      var m := After(c, s, front);
      SparesFront(c, s, hs);
      SparedRun(c, s, front);
      SparedControls(c, m, h);
      SparedEvents(c, m, h);
      SameUnconsumed(s.controls, m.controls);
    }
  }

  lemma {:induction false} BootKept(c: ReaderConfig, s: Reader, h: Handler)
    requires Quiet(s) && !h.HReboot?
    ensures Handle(c, s, h).session.boot == s.session.boot
  {
    if h.HApply? { ApplyEmits(c, s, h.action, h.token); }
    else if IsLoopHandler(h) { BootKeptLoop(c, s, h); }
    else if IsObservation(h) { ObservationEmits(c, s, h); }
    else { TakeEmits(c, s, h); }
  }

  lemma {:induction false} BootKeptLoop(c: ReaderConfig, s: Reader, h: Handler)
    requires Quiet(s) && IsLoopHandler(h)
    ensures Handle(c, s, h).session.boot == s.session.boot
  {
    match h
    case HConnect => ReachedOne(c, s, OConnect);
    case HAuthenticate => ReachedOne(c, s, OAuthenticate);
    case HSubscribe => ReachedOne(c, s, OSubscribe);
    case HFill => ReachedOne(c, s, OFill);
    case HEnd => if s.session.phase != Waiting { EndSteps(c, s); }
    case HExit => ReachedOne(c, s, OExit);
  }

  /** Handlers of one boot write under its id and never start another. */
  lemma {:induction false} BootRun(c: ReaderConfig, s: Reader, hs: seq<Handler>)
    requires Quiet(s) && NoReboot(hs)
    ensures var t := After(c, s, hs);
      && Quiet(t) && s.trace <= t.trace && t.session.boot == s.session.boot
      && forall i | |s.trace| <= i < |t.trace| ::
           && t.trace[i].boot == s.session.boot && t.trace[i].eventType != BridgeStarted
           && (HReady !in hs ==> t.trace[i].eventType != SessionReady)
    decreases |hs|
  {
    if hs != [] {
      var front, h := hs[..|hs| - 1], hs[|hs| - 1];
      BootRun(c, s, front);
      HandleEmits(c, After(c, s, front), h);
      BootKept(c, After(c, s, front), h);
    }
  }

  lemma {:induction false} ToldRun(c: ReaderConfig, s: Reader, hs: seq<Handler>, base: nat)
    requires Quiet(s) && base <= |s.trace| && SessionTold(s.session, s.trace, base)
    requires NoReboot(hs)
    ensures var t := After(c, s, hs); Quiet(t) && s.trace <= t.trace && SessionTold(t.session, t.trace, base)
    decreases |hs|
  {
    if hs != [] {
      var front, h := hs[..|hs| - 1], hs[|hs| - 1];
      ToldRun(c, s, front, base);
      ToldStep(c, After(c, s, front), h, base);
      HandleEmits(c, After(c, s, front), h);
    }
  }

  // ----- a session from nothing to readiness -----

  const STARTUP: seq<Handler> := [HConnect, HAuthenticate, HSubscribe, HFill]

  lemma {:induction false} AfterPush(c: ReaderConfig, s: Reader, hs: seq<Handler>, h: Handler)
    ensures After(c, s, hs + [h]) == Handle(c, After(c, s, hs), h)
  {
    assert (hs + [h])[..|hs|] == hs;
  }

  lemma {:induction false} StartupSteps(c: ReaderConfig, s: Reader)
    ensures After(c, s, STARTUP) ==
      Handle(c, Handle(c, Handle(c, Handle(c, s, HConnect), HAuthenticate), HSubscribe), HFill)
  {
    assert STARTUP == [] + [HConnect] + [HAuthenticate] + [HSubscribe] + [HFill];
    AfterPush(c, s, [], HConnect);
    AfterPush(c, s, [] + [HConnect], HAuthenticate);
    AfterPush(c, s, [] + [HConnect] + [HAuthenticate], HSubscribe);
    AfterPush(c, s, [] + [HConnect] + [HAuthenticate] + [HSubscribe], HFill);
  }

  lemma {:induction false} ConnectSteps(c: ReaderConfig, s: Reader)
    requires Quiet(s) && s.session.phase == Waiting && !s.session.exited
    ensures var t := Handle(c, Handle(c, s, HConnect), HAuthenticate);
      Quiet(t) && t.session.phase == Subscribing && !t.session.aborted
  {
    ReachedOne(c, s, OConnect);
    ReachedOne(c, Handle(c, s, HConnect), OAuthenticate);
  }

  lemma {:induction false} FillSteps(c: ReaderConfig, s: Reader)
    requires Quiet(s) && s.session.phase == Subscribing && !s.session.aborted
    ensures var t := Handle(c, Handle(c, s, HSubscribe), HFill); Quiet(t) && BecomesReady(t.session)
  {
    ReachedOne(c, s, OSubscribe);
    ReachedOne(c, Handle(c, s, HSubscribe), OFill);
  }

  /** A session loop between two sessions can become ready at once. */
  lemma {:induction false} StartupBecomesReady(c: ReaderConfig, s: Reader)
    requires Quiet(s) && s.session.phase == Waiting && !s.session.exited
    ensures var t := After(c, s, STARTUP);
      && Quiet(t) && BecomesReady(t.session) && Handle(c, t, HReady).session.ready
  {
    StartupSteps(c, s);
    ConnectSteps(c, s);
    FillSteps(c, Handle(c, Handle(c, s, HConnect), HAuthenticate));
    ReadySteps(c, After(c, s, STARTUP));
  }
}

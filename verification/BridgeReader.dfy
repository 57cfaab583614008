/**
 The state of `OfficialT4MarketDataReader` that reaches the evidence journal,
 and its handlers cut into the steps that other threads can separate.

 A handler that takes a pending token under the control gate and appends
 afterwards is two steps with the token in `flight` between them; the three
 appends of `ApplyControl` are three steps that hold the gate.  Every append is
 one successful atomic step on `trace`.  A step that is not enabled does
 nothing.
 */
module BridgeReader {
  import opened Wrappers
  import opened EvidenceModel
  import opened EventSemantics

  /** `ControlReference`. */
  datatype Token = Token(campaign: Guid, request: Guid, scope: Scope)

  /** `ScenarioFault`. */
  datatype Fault = Fault(action: Action, scenario: Scenario, reason: Reason, token: Token)

  /** Where the session loop stands; a socket exists outside `Waiting`. */
  datatype Phase = Waiting | Connecting | Subscribing | Live

  datatype Session = Session(
    boot: Guid,
    generation: nat,
    reconnects: nat,
    phase: Phase,
    aborted: bool,    // the socket of this phase was aborted by a control
    connected: bool,
    warm: bool,       // snapshot and history caches were filled since the last clear
    ready: bool,
    exited: bool)     // the session loop was cancelled and has ended

  /** Who holds the control gate; `armed` once the pending token is set. */
  datatype Gate = Free | Applying(action: Action, scenario: Scenario, token: Token, armed: bool)

  /** A token taken under the gate and not yet appended. */
  datatype Flight =
    | FaultTaken(fault: Fault)
    | ReadyTaken(recovery: Option<Token>)
    | StopTaken(restart: Option<Token>)

  datatype Controls = Controls(
    fault: Option<Fault>,
    reconnect: Option<Token>,
    restart: Option<Token>,
    stopping: bool,
    gate: Gate,
    flight: multiset<Flight>)

  /** The deduplication keys of recorded data failures and rolls. */
  datatype Seen = Seen(failures: set<(nat, bool, Scope)>, rolls: set<(Symbol, string, string)>)

  datatype Reader = Reader(session: Session, controls: Controls, seen: Seen, trace: seq<EventBody>)

  const IDLE_CONTROLS := Controls(None, None, None, false, Free, multiset{})

  /** `rolls` holds the market changes the contract catalogue can report. */
  datatype ReaderConfig = ReaderConfig(
    campaign: Option<Guid>,
    controlEnabled: bool,
    rolls: set<(Symbol, string, string)>)
  {
    /** What the catalogue guarantees. */
    ghost predicate Ok() { forall r | r in rolls :: RollAllowed(r.1, r.2) }
  }

  predicate RollAllowed(fromMarket: string, toMarket: string) {
    SafeText(fromMarket, 256) && SafeText(toMarket, 256) && fromMarket != toMarket
  }

  predicate IsControlAction(a: Action) { ScenarioOf(a).Some? }

  function Correlation(action: Action, step: ControlStep): Payload {
    Payload(Some(action), Some(step), None, None)
  }

  function Plain(c: ReaderConfig, s: Session, t: EventType, r: Reason, scope: Option<Scope>): EventBody {
    EventBody(t, r, c.campaign, s.boot, s.generation, s.reconnects, scope, None, None, NO_PAYLOAD)
  }

  function Correlated(
    s: Session, t: EventType, r: Reason, scenario: Scenario, token: Token, payload: Payload): EventBody {
    EventBody(t, r, Some(token.campaign), s.boot, s.generation, s.reconnects,
      Some(token.scope), Some(scenario), Some(token.request), payload)
  }

  predicate NothingPending(k: Controls) { k.fault.None? && k.reconnect.None? && k.restart.None? }

  // ----- ApplyControl -----

  predicate MayApply(c: ReaderConfig, k: Controls, action: Action, token: Token) {
    && IsControlAction(action)
    && c.controlEnabled && c.campaign == Some(token.campaign)
    && token.campaign != EMPTY_GUID && token.request != EMPTY_GUID && IsScopeKey(token.scope)
    && k.gate == Free && NothingPending(k)
  }

  function BeginApply(c: ReaderConfig, s: Reader, action: Action, token: Token): Reader {
    if !MayApply(c, s.controls, action, token) then s
    else
      var scenario := ScenarioOf(action).value;
      s.(controls := s.controls.(gate := Applying(action, scenario, token, false)),
         trace := s.trace + [Correlated(s.session, ControlRequested, RControlRequested, scenario, token,
                               Correlation(action, Requested))])
  }

  function FaultReason(action: Action): Reason {
    if action == MissingData then RMissingData else if action == StaleData then RStaleData else RRateLimited
  }

  function FaultFor(action: Action, scenario: Scenario, token: Token): Fault {
    Fault(action, scenario, FaultReason(action), token)
  }

  /** The pending token of the control that holds the gate. */
  function Arm(k: Controls): Controls
    requires k.gate.Applying?
  {
    var armed := k.(gate := k.gate.(armed := true));
    match k.gate.action
    case Reconnect => armed.(reconnect := Some(k.gate.token))
    case MissingData => armed.(fault := Some(FaultFor(MissingData, k.gate.scenario, k.gate.token)))
    case StaleData => armed.(fault := Some(FaultFor(StaleData, k.gate.scenario, k.gate.token)))
    case RateLimit => armed.(fault := Some(FaultFor(RateLimit, k.gate.scenario, k.gate.token)))
    case Restart => armed.(restart := Some(k.gate.token))
    case _ => armed
  }

  /** The control's effect on the session: caches, readiness, socket. */
  function Disturb(s: Session, action: Action): Session {
    match action
    case Reconnect => s.(connected := false, warm := false, ready := false, aborted := s.phase != Waiting)
    case MissingData => s.(warm := false, ready := false)
    case StaleData => s.(ready := false)
    case RateLimit => s.(warm := false, ready := false)
    case _ => s
  }

  /** The `cache_cleared` event of a control, if it clears the caches. */
  function EffectEvents(c: ReaderConfig, s: Session, gate: Gate): seq<EventBody>
    requires gate.Applying?
  {
    match gate.action
    case Reconnect => [Correlated(s, CacheCleared, RCacheCleared, gate.scenario, gate.token, NO_PAYLOAD)]
    case MissingData => [Correlated(s, CacheCleared, RCacheCleared, gate.scenario, gate.token, NO_PAYLOAD)]
    case RateLimit => [Plain(c, s, CacheCleared, RCacheCleared, None)]
    case _ => []
  }

  function EffectApply(c: ReaderConfig, s: Reader): Reader {
    var gate := s.controls.gate;
    if !gate.Applying? || gate.armed then s
    else
      s.(session := Disturb(s.session, gate.action), controls := Arm(s.controls),
         trace := s.trace + EffectEvents(c, s.session, gate))
  }

  function FinishApply(s: Reader): Reader {
    var gate := s.controls.gate;
    if !gate.Applying? || !gate.armed then s
    else
      s.(controls := s.controls.(gate := Free),
         trace := s.trace + [Correlated(s.session, ControlApplied, RControlApplied, gate.scenario, gate.token,
                               Correlation(gate.action, Applied))])
  }

  // ----- the three consumers -----

  function TakeFault(k: Controls, scope: Scope): Controls {
    if k.gate == Free && k.fault.Some? && k.fault.value.token.scope == scope
    then k.(fault := None, flight := k.flight + multiset{FaultTaken(k.fault.value)})
    else k
  }

  function FaultEventType(r: Reason): EventType {
    if r == RMissingData then MissingDataDetected else if r == RStaleData then StaleDataDetected else RateLimited
  }

  function FaultBody(s: Session, f: Fault): EventBody {
    Correlated(s, FaultEventType(f.reason), f.reason, f.scenario, f.token, Correlation(f.action, Consumed))
  }

  /** Two threads may both have seen the session not ready. */
  function TakeReady(k: Controls): Controls {
    if k.gate != Free then k
    else k.(reconnect := None, flight := k.flight + multiset{ReadyTaken(k.reconnect)})
  }

  function ReadyBody(c: ReaderConfig, s: Session, recovery: Option<Token>): EventBody {
    match recovery
    case None => Plain(c, s, SessionReady, RReady, None)
    case Some(token) => Correlated(s, SessionReady, RReady, ReconnectScenario, token, Correlation(Reconnect, Consumed))
  }

  function TakeStop(k: Controls): Controls {
    if k.gate != Free || k.stopping then k
    else k.(stopping := true, flight := k.flight + multiset{StopTaken(k.restart)})
  }

  function StopBody(c: ReaderConfig, s: Session, restart: Option<Token>): EventBody {
    match restart
    case None => Plain(c, s, BridgeStopping, RBridgeStopping, None)
    case Some(token) =>
      Correlated(s, BridgeStopping, RBridgeStopping, BridgeRestartScenario, token, Correlation(Restart, Consumed))
  }

  function FlightBody(c: ReaderConfig, s: Session, f: Flight): EventBody {
    match f
    case FaultTaken(fault) => FaultBody(s, fault)
    case ReadyTaken(recovery) => ReadyBody(c, s, recovery)
    case StopTaken(restart) => StopBody(c, s, restart)
  }

  /** The append that follows a take. */
  function Land(c: ReaderConfig, s: Reader, f: Flight): Reader {
    if f !in s.controls.flight then s
    else
      s.(controls := s.controls.(flight := s.controls.flight - multiset{f}),
         trace := s.trace + [FlightBody(c, s.session, f)])
  }

  // ----- the session loop -----

  function ConnectSession(s: Session): Session {
    s.(generation := s.generation + 1, phase := Connecting, aborted := false)
  }

  function Connect(c: ReaderConfig, s: Reader): Reader {
    if s.session.phase != Waiting || s.session.exited then s
    else
      var t := ConnectSession(s.session);
      s.(session := t, trace := s.trace + [Plain(c, t, SessionConnecting, RSessionConnecting, None)])
  }

  function Authenticate(c: ReaderConfig, s: Reader): Reader {
    if s.session.phase != Connecting || s.session.aborted then s
    else
      s.(session := s.session.(phase := Subscribing),
         trace := s.trace + [Plain(c, s.session, SessionAuthenticated, RSessionAuthenticated, None)])
  }

  function Subscribe(s: Session): Session {
    if s.phase != Subscribing then s else s.(phase := Live, connected := true, ready := false)
  }

  function FillCaches(s: Session): Session {
    if s.phase != Live || s.aborted then s else s.(warm := true)
  }

  function RecordDisconnected(c: ReaderConfig, s: Reader): Reader {
    if s.session.phase == Waiting then s
    else
      s.(session := s.session.(ready := false),
         trace := s.trace + [Plain(c, s.session, SessionDisconnected, RSessionDisconnected, None)])
  }

  function EndSession(s: Session): Session {
    s.(connected := false, warm := false, reconnects := s.reconnects + 1, phase := Waiting, aborted := false)
  }

  function CleanUp(c: ReaderConfig, s: Reader): Reader {
    if s.session.phase == Waiting then s
    else
      s.(session := EndSession(s.session),
         trace := s.trace + [Plain(c, s.session, CacheCleared, RCacheCleared, None)])
  }

  /** The loop is cancelled only after the stop was recorded. */
  predicate MayExit(k: Controls) { k.stopping && forall f | f in k.flight :: !f.StopTaken? }

  function ExitSession(s: Session): Session {
    s.(connected := false, warm := false, phase := Waiting, aborted := false, exited := true)
  }

  /** A cancelled loop clears up after its session without a disconnect of its
      own and counts no reconnect; between two sessions it just ends. */
  function ExitLoop(c: ReaderConfig, s: Reader): Reader {
    if s.session.exited || !MayExit(s.controls) then s
    else if s.session.phase == Waiting then s.(session := s.session.(exited := true))
    else
      s.(session := ExitSession(s.session),
         trace := s.trace + [Plain(c, s.session, CacheCleared, RCacheCleared, None)])
  }

  // ----- observations -----

  /** Delayed or aged data, or no contract: readiness ends without an event. */
  function LoseReadiness(s: Session): Session { s.(warm := false, ready := false) }

  function DataFailure(c: ReaderConfig, s: Reader, scope: Scope, stale: bool): Reader {
    if !IsScopeKey(scope) then s
    else
      var key := (s.session.generation, stale, scope);
      var t := s.(session := s.session.(ready := false));
      if key in s.seen.failures then t
      else
        t.(seen := s.seen.(failures := s.seen.failures + {key}),
           trace := s.trace + [Plain(c, s.session, if stale then StaleDataDetected else MissingDataDetected,
                                 if stale then RStaleData else RMissingData, Some(scope))])
  }

  function HistoryRateLimited(c: ReaderConfig, s: Reader, symbol: Symbol): Reader {
    s.(session := s.session.(warm := false, ready := false),
       trace := s.trace + [Plain(c, s.session, RateLimited, RRateLimited, Some(ScopeKey(symbol, 240)))])
  }

  function RollBody(c: ReaderConfig, s: Session, scope: Scope, fromMarket: string, toMarket: string): EventBody {
    Plain(c, s, ContractRollObserved, RContractRollObserved, Some(scope))
      .(scenario := Some(RollTransition), payload := Payload(None, None, Some(fromMarket), Some(toMarket)))
  }

  function RollObserved(c: ReaderConfig, s: Reader, scope: Scope, fromMarket: string, toMarket: string): Reader {
    if !IsScopeKey(scope) || (scope.symbol, fromMarket, toMarket) !in c.rolls ||
       (scope.symbol, fromMarket, toMarket) in s.seen.rolls then s
    else
      s.(seen := s.seen.(rolls := s.seen.rolls + {(scope.symbol, fromMarket, toMarket)}),
         trace := s.trace + [RollBody(c, s.session, scope, fromMarket, toMarket)])
  }

  function OutboundRejection(c: ReaderConfig, s: Reader): Reader {
    s.(trace := s.trace + [Plain(c, s.session, OutboundRejected, ROutboundRejected, None)])
  }

  function Max(a: int, b: int): int { if a >= b then a else b }

  /** The checkpoint samples its counters early and inherits the head's. */
  function CheckpointBody(c: ReaderConfig, s: Reader, request: Guid, generation: nat, reconnects: nat): EventBody {
    var sameBoot := s.trace != [] && s.trace[|s.trace| - 1].boot == s.session.boot;
    EventBody(CampaignCheckpoint, RCampaignCheckpoint, c.campaign, s.session.boot,
      if sameBoot then Max(generation, s.trace[|s.trace| - 1].generation) else generation,
      if sameBoot then Max(reconnects, s.trace[|s.trace| - 1].reconnects) else reconnects,
      None, None, Some(request), Correlation(Checkpoint, Consumed))
  }

  function CheckpointRecorded(c: ReaderConfig, s: Reader, request: Guid, generation: nat, reconnects: nat): Reader {
    if c.campaign.None? || request == EMPTY_GUID ||
       generation > s.session.generation || reconnects > s.session.reconnects then s
    else s.(trace := s.trace + [CheckpointBody(c, s, request, generation, reconnects)])
  }

  /** A process starts on the same journal; everything volatile is gone. */
  function Reboot(c: ReaderConfig, trace: seq<EventBody>, boot: Guid): Reader {
    var s := Session(boot, 0, 0, Waiting, false, false, false, false, false);
    Reader(s, IDLE_CONTROLS, Seen({}, {}), trace + [Plain(c, s, BridgeStarted, RBridgeStarted, None)])
  }

  datatype Op =
    | OBegin(action: Action, token: Token) | OEffect | OFinish
    | OTakeFault(scope: Scope) | OTakeReady | OTakeStop | OLand(flight: Flight)
    | OConnect | OAuthenticate | OSubscribe | OFill | ODisconnected | OCleanUp | OExit | OUnready
    | ODataFailure(failed: Scope, stale: bool) | OHistoryRateLimited(symbol: Symbol)
    | ORoll(rolled: Scope, fromMarket: string, toMarket: string) | OOutbound
    | OCheckpoint(request: Guid, generation: nat, reconnects: nat)
    | OReboot(boot: Guid)

  function Step(c: ReaderConfig, s: Reader, op: Op): Reader {
    match op
    case OBegin(action, token) => BeginApply(c, s, action, token)
    case OEffect => EffectApply(c, s)
    case OFinish => FinishApply(s)
    case OTakeFault(scope) => s.(controls := TakeFault(s.controls, scope))
    case OTakeReady => s.(controls := TakeReady(s.controls), session := s.session.(ready := true))
    case OTakeStop => s.(controls := TakeStop(s.controls))
    case OLand(f) => Land(c, s, f)
    case OConnect => Connect(c, s)
    case OAuthenticate => Authenticate(c, s)
    case OSubscribe => s.(session := Subscribe(s.session))
    case OFill => s.(session := FillCaches(s.session))
    case ODisconnected => RecordDisconnected(c, s)
    case OCleanUp => CleanUp(c, s)
    case OExit => ExitLoop(c, s)
    case OUnready => s.(session := LoseReadiness(s.session))
    case ODataFailure(scope, stale) => DataFailure(c, s, scope, stale)
    case OHistoryRateLimited(symbol) => HistoryRateLimited(c, s, symbol)
    case ORoll(scope, fromMarket, toMarket) => RollObserved(c, s, scope, fromMarket, toMarket)
    case OOutbound => OutboundRejection(c, s)
    case OCheckpoint(request, generation, reconnects) => CheckpointRecorded(c, s, request, generation, reconnects)
    case OReboot(boot) => if boot == EMPTY_GUID then s else Reboot(c, s.trace, boot)
  }

  function Reached(c: ReaderConfig, s: Reader, ops: seq<Op>): Reader {
    if ops == [] then s else Step(c, Reached(c, s, ops[..|ops| - 1]), ops[|ops| - 1])
  }

  // ----- what every reachable state keeps -----

  /** A token some enabled control accepted. */
  predicate TokenOk(c: ReaderConfig, token: Token) {
    && c.campaign == Some(token.campaign) && token.campaign != EMPTY_GUID
    && token.request != EMPTY_GUID && IsScopeKey(token.scope)
  }

  predicate OptionalTokenOk(c: ReaderConfig, token: Option<Token>) { token.Some? ==> TokenOk(c, token.value) }

  predicate FaultOk(c: ReaderConfig, fault: Fault) {
    && (fault.action == MissingData || fault.action == StaleData || fault.action == RateLimit)
    && fault.scenario == ScenarioOf(fault.action).value && fault.reason == FaultReason(fault.action)
    && TokenOk(c, fault.token)
  }

  predicate FlightOk(c: ReaderConfig, f: Flight) {
    match f
    case FaultTaken(fault) => FaultOk(c, fault)
    case ReadyTaken(recovery) => OptionalTokenOk(c, recovery)
    case StopTaken(restart) => OptionalTokenOk(c, restart)
  }

  ghost predicate ControlsOk(c: ReaderConfig, k: Controls) {
    && (k.gate.Applying? ==> TokenOk(c, k.gate.token) && ScenarioOf(k.gate.action) == Some(k.gate.scenario))
    && (k.fault.Some? ==> FaultOk(c, k.fault.value))
    && OptionalTokenOk(c, k.reconnect) && OptionalTokenOk(c, k.restart)
    && forall f | f in k.flight :: FlightOk(c, f)
  }

  /** Fit for the verifier and for the bridge's own next load. */
  predicate BodyOk(c: ReaderConfig, b: EventBody) {
    Conforms(b) && b.campaign == c.campaign && b.boot != EMPTY_GUID && b.request != Some(EMPTY_GUID)
  }

  /** Neighbouring events of one boot have rising counters. */
  predicate Follows(previous: EventBody, b: EventBody) {
    previous.boot == b.boot ==> previous.generation <= b.generation && previous.reconnects <= b.reconnects
  }

  /** The counters of the journal's head do not exceed the session's. */
  predicate HeadBelow(trace: seq<EventBody>, s: Session) {
    trace != [] && trace[|trace| - 1].boot == s.boot ==>
      trace[|trace| - 1].generation <= s.generation && trace[|trace| - 1].reconnects <= s.reconnects
  }

  ghost predicate StateOk(c: ReaderConfig, s: Reader) {
    s.session.boot != EMPTY_GUID && ControlsOk(c, s.controls) && HeadBelow(s.trace, s.session)
  }

  predicate GoodEvent(c: ReaderConfig, trace: seq<EventBody>, b: EventBody) {
    BodyOk(c, b) && (trace != [] ==> Follows(trace[|trace| - 1], b))
  }

  /** `t` appends at most one event to `s`, which conforms, belongs to the
      campaign and follows its predecessor. */
  ghost predicate GoodTrace(c: ReaderConfig, s: seq<EventBody>, t: seq<EventBody>) {
    t == s || (|t| == |s| + 1 && t[..|s|] == s && GoodEvent(c, s, t[|s|]))
  }

  lemma {:induction false} PlainOk(c: ReaderConfig, s: Session, t: EventType, r: Reason, scope: Option<Scope>)
    requires s.boot != EMPTY_GUID && ReasonFor(t) == Some(r)
    requires t !in {CampaignCheckpoint, ControlRequested, ControlApplied, ContractRollObserved}
    requires t in {MissingDataDetected, StaleDataDetected, RateLimited} ==> scope.Some?
    requires scope.Some? ==> IsScopeKey(scope.value)
    ensures BodyOk(c, Plain(c, s, t, r, scope))
  {
  }

  lemma {:induction false} CorrelatedOk(
    c: ReaderConfig, s: Session, t: EventType, r: Reason, a: Action, step: ControlStep, token: Token)
    requires s.boot != EMPTY_GUID && TokenOk(c, token) && ReasonFor(t) == Some(r)
    requires ScenarioOf(a).Some? && CorrelatedTypeAllowed(ScenarioOf(a).value, t) && t != CacheCleared
    requires step == if t == ControlRequested then Requested else if t == ControlApplied then Applied else Consumed
    ensures BodyOk(c, Correlated(s, t, r, ScenarioOf(a).value, token, Correlation(a, step)))
  {
  }

  lemma {:induction false} ClearedOk(c: ReaderConfig, s: Session, scenario: Scenario, token: Token)
    requires s.boot != EMPTY_GUID && TokenOk(c, token)
    requires scenario == ReconnectScenario || scenario == MissingDataScenario
    ensures BodyOk(c, Correlated(s, CacheCleared, RCacheCleared, scenario, token, NO_PAYLOAD))
  {
  }

  lemma {:induction false} FlightBodyOk(c: ReaderConfig, s: Session, f: Flight)
    requires s.boot != EMPTY_GUID && FlightOk(c, f)
    ensures BodyOk(c, FlightBody(c, s, f))
  {
    match f
    case FaultTaken(fault) =>
      CorrelatedOk(c, s, FaultEventType(fault.reason), fault.reason, fault.action, Consumed, fault.token);
    case ReadyTaken(recovery) =>
      if recovery.Some? { CorrelatedOk(c, s, SessionReady, RReady, Reconnect, Consumed, recovery.value); }
      else { PlainOk(c, s, SessionReady, RReady, None); }
    case StopTaken(restart) =>
      if restart.Some? { CorrelatedOk(c, s, BridgeStopping, RBridgeStopping, Restart, Consumed, restart.value); }
      else { PlainOk(c, s, BridgeStopping, RBridgeStopping, None); }
  }

  lemma {:induction false} RollBodyOk(c: ReaderConfig, s: Session, scope: Scope, fromMarket: string, toMarket: string)
    requires s.boot != EMPTY_GUID && IsScopeKey(scope) && RollAllowed(fromMarket, toMarket)
    ensures BodyOk(c, RollBody(c, s, scope, fromMarket, toMarket))
  {
  }

  /** A reboot draws an id the journal's last event does not carry. */
  predicate OpFresh(s: Reader, op: Op) {
    op.OReboot? && s.trace != [] ==> s.trace[|s.trace| - 1].boot != op.boot
  }

  lemma {:induction false} BeginControlsOk(c: ReaderConfig, s: Reader, action: Action, token: Token)
    requires ControlsOk(c, s.controls)
    ensures ControlsOk(c, BeginApply(c, s, action, token).controls)
  {
  }

  lemma {:induction false} TakeFaultOk(c: ReaderConfig, k: Controls, scope: Scope)
    requires ControlsOk(c, k)
    ensures ControlsOk(c, TakeFault(k, scope))
  {
  }

  lemma {:induction false} TakeReadyOk(c: ReaderConfig, k: Controls)
    requires ControlsOk(c, k)
    ensures ControlsOk(c, TakeReady(k))
  {
  }

  lemma {:induction false} TakeStopOk(c: ReaderConfig, k: Controls)
    requires ControlsOk(c, k)
    ensures ControlsOk(c, TakeStop(k))
  {
  }

  /** Outside the control handlers the controls stay, or a restart drops them. */
  lemma {:induction false} OtherControls(c: ReaderConfig, s: Reader, op: Op)
    requires !IsControlOp(op)
    ensures Step(c, s, op).controls == s.controls || Step(c, s, op).controls == IDLE_CONTROLS
  {
  }

  lemma {:induction false} ControlsStepOk(c: ReaderConfig, s: Reader, op: Op)
    requires ControlsOk(c, s.controls)
    ensures ControlsOk(c, Step(c, s, op).controls)
  {
    match op
    case OBegin(action, token) => BeginControlsOk(c, s, action, token);
    case OEffect => if s.controls.gate.Applying? { ArmOk(c, s.controls); }
    case OFinish =>
    case OTakeFault(scope) => TakeFaultOk(c, s.controls, scope);
    case OTakeReady => TakeReadyOk(c, s.controls);
    case OTakeStop => TakeStopOk(c, s.controls);
    case OLand(_) =>
    case _ => OtherControls(c, s, op);
  }

  lemma {:induction false} FaultForOk(c: ReaderConfig, action: Action, token: Token)
    requires TokenOk(c, token) && (action == MissingData || action == StaleData || action == RateLimit)
    ensures FaultOk(c, FaultFor(action, ScenarioOf(action).value, token))
  {
  }

  lemma {:induction false} ArmOk(c: ReaderConfig, k: Controls)
    requires ControlsOk(c, k) && k.gate.Applying?
    ensures ControlsOk(c, Arm(k))
  {
    match k.gate.action
    case MissingData => FaultForOk(c, MissingData, k.gate.token);
    case StaleData => FaultForOk(c, StaleData, k.gate.token);
    case RateLimit => FaultForOk(c, RateLimit, k.gate.token);
    case _ =>
  }

  lemma {:induction false} ApplyTraceOk(c: ReaderConfig, s: Reader, op: Op)
    requires StateOk(c, s) && (op.OBegin? || op.OEffect? || op.OFinish?)
    ensures GoodTrace(c, s.trace, Step(c, s, op).trace)
  {
    var gate := s.controls.gate;
    match op
    case OBegin(action, token) =>
      if MayApply(c, s.controls, action, token) {
        CorrelatedOk(c, s.session, ControlRequested, RControlRequested, action, Requested, token);
      }
    case OEffect =>
      if gate.Applying? {
        PlainOk(c, s.session, CacheCleared, RCacheCleared, None);
        if gate.action == Reconnect || gate.action == MissingData {
          ClearedOk(c, s.session, gate.scenario, gate.token);
        }
      }
    case OFinish =>
      if gate.Applying? {
        CorrelatedOk(c, s.session, ControlApplied, RControlApplied, gate.action, Applied, gate.token);
      }
  }

  lemma {:induction false} SessionTraceOk(c: ReaderConfig, s: Reader, op: Op)
    requires StateOk(c, s)
    requires op.OConnect? || op.OAuthenticate? || op.ODisconnected? || op.OCleanUp? || op.OExit? || op.OOutbound?
    ensures GoodTrace(c, s.trace, Step(c, s, op).trace)
  {
    PlainOk(c, ConnectSession(s.session), SessionConnecting, RSessionConnecting, None);
    PlainOk(c, s.session, SessionAuthenticated, RSessionAuthenticated, None);
    PlainOk(c, s.session, SessionDisconnected, RSessionDisconnected, None);
    PlainOk(c, s.session, CacheCleared, RCacheCleared, None);
    PlainOk(c, s.session, OutboundRejected, ROutboundRejected, None);
  }

  lemma {:induction false} FailureTraceOk(c: ReaderConfig, s: Reader, scope: Scope, stale: bool)
    requires StateOk(c, s)
    ensures GoodTrace(c, s.trace, DataFailure(c, s, scope, stale).trace)
  {
    if IsScopeKey(scope) {
      PlainOk(c, s.session, if stale then StaleDataDetected else MissingDataDetected,
        if stale then RStaleData else RMissingData, Some(scope));
    }
  }

  lemma {:induction false} RollTraceOk(c: ReaderConfig, s: Reader, scope: Scope, fromMarket: string, toMarket: string)
    requires c.Ok() && StateOk(c, s)
    ensures GoodTrace(c, s.trace, RollObserved(c, s, scope, fromMarket, toMarket).trace)
  {
    if IsScopeKey(scope) && (scope.symbol, fromMarket, toMarket) in c.rolls {
      assert RollAllowed((scope.symbol, fromMarket, toMarket).1, (scope.symbol, fromMarket, toMarket).2);
      RollBodyOk(c, s.session, scope, fromMarket, toMarket);
    }
  }

  lemma {:induction false} CheckpointTraceOk(
    c: ReaderConfig, s: Reader, request: Guid, generation: nat, reconnects: nat)
    requires StateOk(c, s)
    ensures GoodTrace(c, s.trace, CheckpointRecorded(c, s, request, generation, reconnects).trace)
  {
    if c.campaign.Some? && request != EMPTY_GUID {
      assert BodyOk(c, CheckpointBody(c, s, request, generation, reconnects));
    }
  }

  lemma {:induction false} TraceStepOk(c: ReaderConfig, s: Reader, op: Op)
    requires c.Ok() && StateOk(c, s) && OpFresh(s, op)
    ensures GoodTrace(c, s.trace, Step(c, s, op).trace)
  {
    match op
    case OBegin(_, _) => ApplyTraceOk(c, s, op);
    case OEffect => ApplyTraceOk(c, s, op);
    case OFinish => ApplyTraceOk(c, s, op);
    case OLand(f) => if f in s.controls.flight { FlightBodyOk(c, s.session, f); }
    case OConnect => SessionTraceOk(c, s, op);
    case OAuthenticate => SessionTraceOk(c, s, op);
    case ODisconnected => SessionTraceOk(c, s, op);
    case OCleanUp => SessionTraceOk(c, s, op);
    case OExit => SessionTraceOk(c, s, op);
    case OUnready =>
    case OOutbound => SessionTraceOk(c, s, op);
    case OReboot(boot) =>
      if boot != EMPTY_GUID {
        PlainOk(c, Session(boot, 0, 0, Waiting, false, false, false, false, false), BridgeStarted, RBridgeStarted, None);
      }
    case OTakeFault(_) =>
    case OTakeReady =>
    case OTakeStop =>
    case OSubscribe =>
    case OFill =>
    case ODataFailure(scope, stale) => FailureTraceOk(c, s, scope, stale);
    case OHistoryRateLimited(symbol) =>
      PlainOk(c, s.session, RateLimited, RRateLimited, Some(ScopeKey(symbol, 240)));
    case ORoll(scope, fromMarket, toMarket) => RollTraceOk(c, s, scope, fromMarket, toMarket);
    case OCheckpoint(request, generation, reconnects) => CheckpointTraceOk(c, s, request, generation, reconnects);
  }

  predicate HeadOk(s: Reader) { s.session.boot != EMPTY_GUID && HeadBelow(s.trace, s.session) }

  predicate IsControlOp(op: Op) {
    op.OBegin? || op.OEffect? || op.OFinish? || op.OTakeFault? || op.OTakeReady? || op.OTakeStop? || op.OLand?
  }

  predicate IsSessionOp(op: Op) {
    op.OConnect? || op.OAuthenticate? || op.OSubscribe? || op.OFill? || op.ODisconnected? || op.OCleanUp? || op.OExit?
  }

  lemma {:induction false} HeadControlOk(c: ReaderConfig, s: Reader, op: Op)
    requires HeadOk(s) && IsControlOp(op)
    ensures HeadOk(Step(c, s, op))
  {
  }

  lemma {:induction false} HeadSessionOk(c: ReaderConfig, s: Reader, op: Op)
    requires HeadOk(s) && IsSessionOp(op)
    ensures HeadOk(Step(c, s, op))
  {
  }

  lemma {:induction false} HeadStepOk(c: ReaderConfig, s: Reader, op: Op)
    requires HeadOk(s)
    ensures HeadOk(Step(c, s, op))
  {
    if IsControlOp(op) { HeadControlOk(c, s, op); }
    else if IsSessionOp(op) { HeadSessionOk(c, s, op); }
  }

  /** Every step, of any thread in any interleaving, keeps the state well
      formed and appends at most one event, fit for the verifier. */
  lemma {:induction false} StepOk(c: ReaderConfig, s: Reader, op: Op)
    requires c.Ok() && StateOk(c, s) && OpFresh(s, op)
    ensures StateOk(c, Step(c, s, op))
    ensures GoodTrace(c, s.trace, Step(c, s, op).trace)
  {
    ControlsStepOk(c, s, op);
    HeadStepOk(c, s, op);
    TraceStepOk(c, s, op);
  }

  ghost predicate TraceOk(c: ReaderConfig, trace: seq<EventBody>) {
    && (forall i | 0 <= i < |trace| :: BodyOk(c, trace[i]))
    && (forall i | 0 < i < |trace| :: Follows(trace[i - 1], trace[i]))
  }

  ghost predicate OpsFresh(c: ReaderConfig, s: Reader, ops: seq<Op>) {
    forall n | 0 <= n < |ops| :: OpFresh(Reached(c, s, ops[..n]), ops[n])
  }

  /** Every journal a bridge can produce, over any number of boots and thread
      interleavings, satisfies the verifier's semantics event by event. */
  lemma {:induction false} ReachableTraceOk(c: ReaderConfig, boot: Guid, ops: seq<Op>)
    requires c.Ok() && boot != EMPTY_GUID && OpsFresh(c, Reboot(c, [], boot), ops)
    ensures StateOk(c, Reached(c, Reboot(c, [], boot), ops))
    ensures TraceOk(c, Reached(c, Reboot(c, [], boot), ops).trace)
  {
    var s := Reboot(c, [], boot);
    if ops == [] {
      PlainOk(c, s.session, BridgeStarted, RBridgeStarted, None);
    } else {
      var front, op := ops[..|ops| - 1], ops[|ops| - 1];
      forall n | 0 <= n < |front| ensures OpFresh(Reached(c, s, front[..n]), front[n]) {
        assert front[..n] == ops[..n];
      }
      ReachableTraceOk(c, boot, front);
      StepOk(c, Reached(c, s, front), op);
      GoodTraceKeepsOk(c, Reached(c, s, front).trace, Reached(c, s, ops).trace);
    }
  }

  lemma {:induction false} GoodTraceKeepsOk(c: ReaderConfig, s: seq<EventBody>, t: seq<EventBody>)
    requires TraceOk(c, s) && GoodTrace(c, s, t)
    ensures TraceOk(c, t)
  {
    if t != s {
      forall i | 0 <= i < |t| ensures BodyOk(c, t[i]) && (i > 0 ==> Follows(t[i - 1], t[i])) {
        if i < |s| { assert t[i] == t[..|s|][i] == s[i]; }
        if i > 0 { assert t[i - 1] == t[..|s|][i - 1] == s[i - 1]; }
      }
    }
  }
}

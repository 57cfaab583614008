/** Which event bodies the Python verifier lets through, whatever signs them. */
module EventSemantics {
  import opened Wrappers
  import opened EvidenceModel

  /** `BRIDGE_EVENT_REASONS`. */
  function ReasonFor(t: EventType): Option<Reason> {
    match t
    case BridgeStarted => Some(RBridgeStarted)
    case CampaignCheckpoint => Some(RCampaignCheckpoint)
    case SessionConnecting => Some(RSessionConnecting)
    case SessionAuthenticated => Some(RSessionAuthenticated)
    case SessionReady => Some(RReady)
    case SessionDisconnected => Some(RSessionDisconnected)
    case CacheCleared => Some(RCacheCleared)
    case MissingDataDetected => Some(RMissingData)
    case StaleDataDetected => Some(RStaleData)
    case RateLimited => Some(RRateLimited)
    case ContractRollObserved => Some(RContractRollObserved)
    case ControlRequested => Some(RControlRequested)
    case ControlApplied => Some(RControlApplied)
    case BridgeStopping => Some(RBridgeStopping)
    case OutboundRejected => Some(ROutboundRejected)
    case UnlistedType(_) => None
  }

  /** `CONTROL_ACTION_SCENARIOS`. */
  function ScenarioOf(a: Action): Option<Scenario> {
    match a
    case Reconnect => Some(ReconnectScenario)
    case MissingData => Some(MissingDataScenario)
    case StaleData => Some(StaleDataScenario)
    case RateLimit => Some(RateLimitScenario)
    case Restart => Some(BridgeRestartScenario)
    case Checkpoint => None
    case OtherAction(_) => None
  }

  predicate CorrelatedTypeAllowed(s: Scenario, t: EventType) {
    match s
    case ReconnectScenario => t in {ControlRequested, ControlApplied, CacheCleared, SessionReady}
    case MissingDataScenario => t in {ControlRequested, ControlApplied, CacheCleared, MissingDataDetected}
    case StaleDataScenario => t in {ControlRequested, ControlApplied, StaleDataDetected}
    case RateLimitScenario => t in {ControlRequested, ControlApplied, RateLimited}
    case BridgeRestartScenario => t in {ControlRequested, ControlApplied, BridgeStopping}
    case RollTransition => false
    case ReplayBlocked => false
    case OtherScenario(_) => false
  }

  /** `_validate_event_semantics`. */
  predicate SemanticsValid(b: EventBody) {
    var action, step := b.payload.action, b.payload.step;
    && (action.Some? ==> action.value == Checkpoint || ScenarioOf(action.value).Some?)
    && (step.Some? ==> !step.value.OtherStep?)
    && (action.None? <==> step.None?)
    && (if b.eventType == CampaignCheckpoint then
          b.campaign.Some? && b.scenario.None? && b.request.Some? && b.scope.None? &&
          action == Some(Checkpoint) && step == Some(Consumed)
        else action != Some(Checkpoint))
    && (b.eventType == ControlRequested ==> step == Some(Requested))
    && (b.eventType == ControlApplied ==> step == Some(Applied) || step == Some(Consumed))
    && (if b.scenario == Some(RollTransition) then
          b.eventType == ContractRollObserved && b.request.None? && action.None?
        else if b.scenario.Some? then
          && b.campaign.Some? && b.request.Some? && b.scope.Some?
          && CorrelatedTypeAllowed(b.scenario.value, b.eventType)
          && (action.Some? ==> ScenarioOf(action.value) == b.scenario)
          && (b.eventType != CacheCleared ==> action.Some?)
        else b.eventType == CampaignCheckpoint || (b.request.None? && action.None?))
    && (b.eventType == ControlRequested || b.eventType == ControlApplied ==>
          b.campaign.Some? && b.scenario.Some? && b.request.Some?)
    && (b.eventType in {MissingDataDetected, StaleDataDetected, RateLimited} ==> b.scope.Some?)
    && (if b.eventType == ContractRollObserved then
          b.scope.Some? && b.payload.fromMarket.Some? && b.payload.toMarket.Some? &&
          b.payload.fromMarket != b.payload.toMarket && b.scenario == Some(RollTransition)
        else b.payload.fromMarket.None? && b.payload.toMarket.None?)
  }

  predicate IsScopeKey(scope: Scope) { scope.ScopeKey? && scope.minutes in {240, 1440, 10080} }

  /** `_optional_opaque_id` on printable text is exactly trimmed and not too long. */
  predicate OpaqueIdValid(id: Option<string>) { id.Some? ==> SafeText(id.value, 256) }

  /** Everything `_validated_event` asks of the body. */
  predicate Conforms(b: EventBody) {
    && ReasonFor(b.eventType) == Some(b.reason)
    && b.generation >= 0 && b.reconnects >= 0
    && (b.scope.Some? ==> IsScopeKey(b.scope.value))
    && (b.scenario.Some? ==> !b.scenario.value.OtherScenario?)
    && OpaqueIdValid(b.payload.fromMarket) && OpaqueIdValid(b.payload.toMarket)
    && SemanticsValid(b)
  }

  // ----- the admitted bodies, form by form -----

  predicate CommonForm(b: EventBody) {
    && ReasonFor(b.eventType) == Some(b.reason) && b.generation >= 0 && b.reconnects >= 0
    && (b.scope.Some? ==> b.scope.value.ScopeKey? && b.scope.value.minutes in {240, 1440, 10080})
  }

  /** An observation that belongs to no control. */
  predicate PlainForm(b: EventBody) {
    && b.eventType !in {CampaignCheckpoint, ControlRequested, ControlApplied, ContractRollObserved}
    && b.scenario.None? && b.request.None? && b.payload == NO_PAYLOAD
    && (b.eventType in {MissingDataDetected, StaleDataDetected, RateLimited} ==> b.scope.Some?)
  }

  predicate CheckpointForm(b: EventBody) {
    && b.eventType == CampaignCheckpoint && b.campaign.Some? && b.request.Some? && b.scope.None? && b.scenario.None?
    && b.payload == Payload(Some(Checkpoint), Some(Consumed), None, None)
  }

  predicate RollForm(b: EventBody) {
    var f, t := b.payload.fromMarket, b.payload.toMarket;
    && b.eventType == ContractRollObserved && b.scenario == Some(RollTransition) && b.request.None? && b.scope.Some?
    && b.payload == Payload(None, None, f, t) && f.Some? && t.Some? && f != t
    && SafeText(f.value, 256) && SafeText(t.value, 256)
  }

  /** The events of one control besides its request and its receipt. */
  function OwnTypes(a: Action): set<EventType> {
    match a
    case Reconnect => {CacheCleared, SessionReady}
    case MissingData => {CacheCleared, MissingDataDetected}
    case StaleData => {StaleDataDetected}
    case RateLimit => {RateLimited}
    case Restart => {BridgeStopping}
    case _ => {}
  }

  predicate ActionForm(b: EventBody, a: Action, scenario: Scenario) {
    && b.scenario == Some(scenario)
    && (b.payload == NO_PAYLOAD || (exists step | step in {Requested, Applied, Consumed} :: b.payload == Payload(Some(a), Some(step), None, None)))
    && match b.eventType
       case ControlRequested => b.payload.step == Some(Requested)
       case ControlApplied => b.payload.step in {Some(Applied), Some(Consumed)}
       case CacheCleared => CacheCleared in OwnTypes(a)
       case t => t in OwnTypes(a) && b.payload != NO_PAYLOAD
  }

  /** An event of a control: it names campaign, request and scope, and nothing
      but a cleared cache is without the control's own action. */
  predicate ControlForm(b: EventBody) {
    && b.campaign.Some? && b.request.Some? && b.scope.Some?
    && (|| ActionForm(b, Reconnect, ReconnectScenario) || ActionForm(b, MissingData, MissingDataScenario)
        || ActionForm(b, StaleData, StaleDataScenario) || ActionForm(b, RateLimit, RateLimitScenario)
        || ActionForm(b, Restart, BridgeRestartScenario))
  }

  /** The semantic checks admit exactly these four forms. */
  lemma {:induction false} AdmittedForms(b: EventBody)
    ensures Conforms(b) <==>
      CommonForm(b) && (PlainForm(b) || CheckpointForm(b) || RollForm(b) || ControlForm(b))
  {
    var p := b.payload;
    if Conforms(b) && p.action.Some? {
      assert p == Payload(p.action, p.step, None, None);
    }
  }
}

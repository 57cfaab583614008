/**
 The signed observation event, as the C# bridge writes it and the Python
 verifier reads it, together with the bridge's own acceptance test for one
 stored event.

 SHA-256, ECDSA and the two JSON encodings are the fields of a `Crypto` value;
 `Sound` lists everything that is used about them.  Nothing assumes that the
 hash is injective.
 */
module EvidenceModel {
  import opened Wrappers

  newtype byte = x: int | 0 <= x < 256
  type Bytes = seq<byte>

  const LF: byte := 10
  const CR: byte := 13

  /** A UUID; `EMPTY_GUID` is the all-zero one. */
  type Guid = nat
  const EMPTY_GUID: Guid := 0

  /** A SHA-256 value, read off its lower-case hexadecimal text. */
  type Digest = nat

  const MAXIMUM_JOURNAL_BYTES: nat := 67108864
  const MAXIMUM_EVENT_BYTES: nat := 65536
  const MAXIMUM_EVENTS: nat := 100000

  datatype Environment = LiveT4 | T4Simulator | NotConfigured

  datatype Symbol = BtcUsd | EthUsd
  /** A scope key such as "BTC/USD:240m", or any other text. */
  datatype Scope = ScopeKey(symbol: Symbol, minutes: nat) | OtherScope(scopeText: string)

  datatype EventType =
    | BridgeStarted | BridgeStopping | CampaignCheckpoint | CacheCleared
    | ContractRollObserved | ControlApplied | ControlRequested
    | MissingDataDetected | OutboundRejected | RateLimited
    | SessionAuthenticated | SessionConnecting | SessionDisconnected
    | SessionReady | StaleDataDetected
    | UnlistedType(typeText: string)

  datatype Reason =
    | RBridgeStarted | RBridgeStopping | RCampaignCheckpoint | RControlApplied
    | RControlRequested | RReady | RCacheCleared | RContractRollObserved
    | RMissingData | ROutboundRejected | RRateLimited | RSessionAuthenticated
    | RSessionConnecting | RSessionDisconnected | RStaleData
    | RHealthOnly(healthText: string)  // allowed codes that no event type carries
    | UnlistedReason(reasonText: string)

  datatype Scenario =
    | ReconnectScenario | MissingDataScenario | StaleDataScenario
    | RateLimitScenario | BridgeRestartScenario | RollTransition | ReplayBlocked
    | OtherScenario(scenarioText: string)

  datatype Action =
    | Reconnect | MissingData | StaleData | RateLimit | Restart | Checkpoint
    | OtherAction(actionText: string)

  datatype ControlStep = Requested | Applied | Consumed | OtherStep(stepText: string)

  datatype Payload = Payload(
    action: Option<Action>,
    step: Option<ControlStep>,
    fromMarket: Option<string>,
    toMarket: Option<string>)

  const NO_PAYLOAD := Payload(None, None, None, None)

  /** What one caller of the journal decides about an event. */
  datatype EventBody = EventBody(
    eventType: EventType,
    reason: Reason,
    campaign: Option<Guid>,
    boot: Guid,
    generation: int,
    reconnects: int,
    scope: Option<Scope>,
    scenario: Option<Scenario>,
    request: Option<Guid>,
    payload: Payload)

  /** The signed projection: everything covered by the event hash. */
  datatype Claims = Claims(
    schemaVersion: int,
    eventId: Guid,
    sequenceNo: int,
    eventAt: int,
    body: EventBody,
    environment: Environment,
    bridgeSchemaVersion: int,
    readOnly: bool,
    orderRoutesExposed: bool,
    previousHash: Option<Digest>,
    payloadHash: Digest)

  datatype Algorithm = EcdsaP256Sha256Der | OtherAlgorithm(text: string)

  datatype SignedEvent = SignedEvent(
    claims: Claims,
    eventHash: Digest,
    canonical: Bytes,
    algorithm: Algorithm,
    fingerprint: Digest,
    signature: Bytes)

  /** The library calls the two programs share. `sign` takes the ECDSA nonce. */
  datatype Crypto = Crypto(
    sha: Bytes -> Digest,
    sign: (Digest, nat) -> Bytes,
    signatureValid: (Digest, Bytes) -> bool,
    encodeClaims: Claims -> Bytes,
    decodeClaims: Bytes -> Option<Claims>,
    encodePayload: Payload -> Bytes,
    encodeRecord: SignedEvent -> Bytes,
    decodeRecord: Bytes -> Option<SignedEvent>,
    fingerprint: Digest)
  {
    /** JSON round trips without raw line breaks, a record holds its base64
        canonical bytes, and signatures of the right key verify. */
    ghost predicate Sound() {
      && (forall c :: decodeClaims(encodeClaims(c)) == Some(c))
      && (forall c :: |encodeClaims(c)| > 0)
      && (forall e :: decodeRecord(encodeRecord(e)) == Some(e))
      && (forall e :: LF !in encodeRecord(e) && CR !in encodeRecord(e))
      && (forall e: SignedEvent :: |e.canonical| <= |encodeRecord(e)|)
      && (forall d, k :: signatureValid(d, sign(d, k)) && 64 <= |sign(d, k)| <= 80)
    }
  }

  /** The bridge's frozen options that reach the journal. */
  datatype BridgeConfig = BridgeConfig(
    crypto: Crypto,
    campaign: Option<Guid>,
    environment: Environment)

  predicate Collides(crypto: Crypto, x: Bytes, y: Bytes) {
    x != y && crypto.sha(x) == crypto.sha(y)
  }

  function LastHash(events: seq<SignedEvent>): Option<Digest> {
    if events == [] then None else Some(events[|events| - 1].eventHash)
  }

  predicate IsAllowedType(t: EventType) { !t.UnlistedType? }

  predicate IsAllowedReason(r: Reason) { !r.UnlistedReason? }

  predicate Printable(text: string) {
    forall i | 0 <= i < |text| :: ' ' <= text[i] <= '~'
  }

  predicate SafeText(text: string, maximum: nat) {
    && 0 < |text| <= maximum
    && text[0] != ' ' && text[|text| - 1] != ' '
    && Printable(text)
  }

  function TrimStart(text: string): string {
    if text != "" && text[0] == ' ' then TrimStart(text[1..]) else text
  }

  function TrimEnd(text: string): string {
    if text != "" && text[|text| - 1] == ' ' then TrimEnd(text[..|text| - 1]) else text
  }

  lemma {:induction false} TrimShortens(text: string)
    ensures TrimStart(text) == text || |TrimStart(text)| < |text|
    ensures TrimEnd(text) == text || |TrimEnd(text)| < |text|
    ensures TrimStart(text) == text <==> text == "" || text[0] != ' '
    ensures TrimEnd(text) == text <==> text == "" || text[|text| - 1] != ' '
    decreases |text|
  {
    if text != "" {
      TrimShortens(text[1..]);
      TrimShortens(text[..|text| - 1]);
    }
  }

  /** The identifiers both programs accept: not empty, not too long, printable,
      and left unchanged by trimming. */
  lemma {:induction false} SafeTextIsTrimmed(text: string, maximum: nat)
    ensures SafeText(text, maximum) <==>
      && 0 < |text| <= maximum && TrimEnd(TrimStart(text)) == text
      && forall i | 0 <= i < |text| :: 32 <= text[i] as int <= 126
  {
    TrimShortens(text);
    TrimShortens(TrimStart(text));
  }

  lemma {:induction false} SafeCodeIsText(text: string)
    ensures SafeCode(text) ==> SafeText(text, 64) && ' ' !in text
  {
  }

  predicate SafeCode(text: string) {
    && 0 < |text| <= 64
    && forall i | 0 <= i < |text| ::
         'a' <= text[i] <= 'z' || 'A' <= text[i] <= 'Z' || '0' <= text[i] <= '9' || text[i] == '_'
  }

  predicate SafeOptionalScope(scope: Option<Scope>) {
    scope.Some? && scope.value.OtherScope? ==> SafeText(scope.value.scopeText, 256)
  }

  predicate SafeOptionalScenario(scenario: Option<Scenario>) {
    scenario.Some? && scenario.value.OtherScenario? ==> SafeCode(scenario.value.scenarioText)
  }

  predicate ValidPayload(payload: Payload) {
    && (payload.action.Some? && payload.action.value.OtherAction? ==> SafeCode(payload.action.value.actionText))
    && (payload.step.Some? && payload.step.value.OtherStep? ==> SafeCode(payload.step.value.stepText))
    && (payload.fromMarket.Some? ==> SafeText(payload.fromMarket.value, 256))
    && (payload.toMarket.Some? ==> SafeText(payload.toMarket.value, 256))
  }

  /** `Verify`: one stored event on its own, without its neighbours. */
  predicate Verify(config: BridgeConfig, item: SignedEvent) {
    var c := item.claims;
    var b := c.body;
    && c.schemaVersion == 1 && c.bridgeSchemaVersion == 5
    && item.algorithm == EcdsaP256Sha256Der
    && item.fingerprint == config.crypto.fingerprint
    && c.environment == config.environment && c.readOnly && !c.orderRoutesExposed
    && b.campaign == config.campaign
    && c.sequenceNo >= 1 && b.generation >= 0 && b.reconnects >= 0
    && c.eventId != EMPTY_GUID && b.boot != EMPTY_GUID && b.request != Some(EMPTY_GUID)
    && SafeOptionalScope(b.scope) && SafeOptionalScenario(b.scenario)
    && IsAllowedType(b.eventType) && IsAllowedReason(b.reason)
    && ValidPayload(b.payload)
    && |item.canonical| <= MAXIMUM_EVENT_BYTES && 64 <= |item.signature| <= 80
    && item.eventHash == config.crypto.sha(item.canonical)
    && config.crypto.signatureValid(item.eventHash, item.signature)
    && config.crypto.decodeClaims(item.canonical) == Some(c)
    && config.crypto.encodeClaims(c) == item.canonical
    && c.payloadHash == config.crypto.sha(config.crypto.encodePayload(b.payload))
  }

  /** Counters at least as large as those of the head, if that is of this boot. */
  predicate CountersReach(events: seq<SignedEvent>, boot: Guid, generation: int, reconnects: int) {
    events != [] && events[|events| - 1].claims.body.boot == boot ==>
      && events[|events| - 1].claims.body.generation <= generation
      && events[|events| - 1].claims.body.reconnects <= reconnects
  }

  /** Counters may not fall between neighbouring events of one boot. */
  predicate CountersFollow(events: seq<SignedEvent>, body: EventBody) {
    CountersReach(events, body.boot, body.generation, body.reconnects)
  }

  /** The load loop's test for the event that follows `events`. */
  predicate AcceptNext(config: BridgeConfig, events: seq<SignedEvent>, item: SignedEvent) {
    && Links(events, item)
    && Verify(config, item)
    && CountersFollow(events, item.claims.body)
  }

  /** Sequence number and previous hash continue `events`. */
  predicate Links(events: seq<SignedEvent>, item: SignedEvent) {
    && item.claims.sequenceNo == |events| + 1
    && item.claims.previousHash == LastHash(events)
  }

  ghost predicate Accepted(config: BridgeConfig, events: seq<SignedEvent>) {
    forall i | 0 <= i < |events| :: AcceptNext(config, events[..i], events[i])
  }

  lemma {:induction false} AcceptedAppend(config: BridgeConfig, events: seq<SignedEvent>, item: SignedEvent)
    requires Accepted(config, events) && AcceptNext(config, events, item)
    ensures Accepted(config, events + [item])
  {
  }
}

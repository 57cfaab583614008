/**
 `ObservationEventJournal`: the bridge's signed, hash-linked, crash-recoverable
 event journal.  The file and the in-memory list are updated in place; what an
 append and a load decide is stated by `AppendOutcome` and `LoadOutcome`.

 A missing file and an empty one behave alike here (the size guard cannot fire
 on an empty file), so the file is just its bytes.
 */
module EvidenceJournal {
  import opened Wrappers
  import opened EvidenceModel
  import opened JournalFraming

  /** The arguments of one `Append` call. */
  datatype AppendCall = AppendCall(
    eventType: EventType,
    reason: Reason,
    generation: int,
    reconnects: int,
    scope: Option<Scope>,
    scenario: Option<Scenario>,
    request: Option<Guid>,
    payload: Payload,
    campaign: Option<Guid>)

  const BRIDGE_STARTED_CALL :=
    AppendCall(BridgeStarted, RBridgeStarted, 0, 0, None, None, None, NO_PAYLOAD, None)

  function CheckpointCall(campaign: Guid, request: Guid, generation: int, reconnects: int): AppendCall {
    AppendCall(CampaignCheckpoint, RCampaignCheckpoint, generation, reconnects, None, None, Some(request),
      Payload(Some(Checkpoint), Some(Consumed), None, None), Some(campaign))
  }

  /** The counters of a checkpoint: those sampled, or the head's if it is newer. */
  function InheritedCounters(events: seq<SignedEvent>, boot: Guid, generation: int, reconnects: int): (r: (int, int))
    ensures r.0 >= generation && r.1 >= reconnects
    ensures CountersReach(events, boot, r.0, r.1)
  {
    if events != [] && events[|events| - 1].claims.body.boot == boot then
      var head := events[|events| - 1].claims.body;
      (if generation >= head.generation then generation else head.generation,
       if reconnects >= head.reconnects then reconnects else head.reconnects)
    else (generation, reconnects)
  }

  type NewGuid = g: Guid | g != EMPTY_GUID witness 1

  /** What an append draws from its surroundings. */
  datatype Draw = Draw(eventId: NewGuid, eventAt: int, nonce: nat)

  datatype AppendError =
    | EventInvalid | CampaignMismatch | JournalFull | CountersBackwards
    | PayloadInvalid | EventTooLarge | FileFull
    | OutsideCampaign

  datatype LoadError = FileTooLarge | TailInvalid | JournalInvalid

  datatype StartError = LoadFailed(load: LoadError) | AppendFailed(append: AppendError)

  function BodyOf(config: BridgeConfig, boot: Guid, call: AppendCall): EventBody {
    EventBody(
      call.eventType, call.reason,
      if call.campaign.Some? then call.campaign else config.campaign,
      boot, call.generation, call.reconnects, call.scope, call.scenario, call.request, call.payload)
  }

  /** The stored body says what the call said, of this boot and in this or the
      configured campaign. */
  predicate CarriesCall(config: BridgeConfig, boot: Guid, call: AppendCall, b: EventBody) {
    && b.eventType == call.eventType && b.reason == call.reason && b.boot == boot
    && b.generation == call.generation && b.reconnects == call.reconnects
    && b.scope == call.scope && b.scenario == call.scenario && b.request == call.request && b.payload == call.payload
    && b.campaign == (if call.campaign.Some? then call.campaign else config.campaign)
    && (config.campaign.Some? ==> b.campaign == config.campaign)
  }

  /** The bytes that were hashed and signed say exactly what the event claims. */
  predicate IsSealed(crypto: Crypto, item: SignedEvent) {
    && crypto.decodeClaims(item.canonical) == Some(item.claims)
    && item.eventHash == crypto.sha(item.canonical)
    && crypto.signatureValid(item.eventHash, item.signature)
    && item.algorithm == EcdsaP256Sha256Der && item.fingerprint == crypto.fingerprint
    && item.claims.payloadHash == crypto.sha(crypto.encodePayload(item.claims.body.payload))
  }

  /** The signed event that continues `events`. */
  function Seal(config: BridgeConfig, events: seq<SignedEvent>, body: EventBody, draw: Draw): SignedEvent {
    var crypto := config.crypto;
    var claims := Claims(
      1, draw.eventId, |events| + 1, draw.eventAt, body, config.environment, 5, true, false,
      LastHash(events), crypto.sha(crypto.encodePayload(body.payload)));
    var canonical := crypto.encodeClaims(claims);
    var hash := crypto.sha(canonical);
    SignedEvent(claims, hash, canonical, EcdsaP256Sha256Der, crypto.fingerprint, crypto.sign(hash, draw.nonce))
  }

  predicate CallValid(call: AppendCall) {
    && IsAllowedType(call.eventType) && IsAllowedReason(call.reason)
    && call.generation >= 0 && call.reconnects >= 0
    && SafeOptionalScope(call.scope) && SafeOptionalScenario(call.scenario)
  }

  function AppendOutcome(
    config: BridgeConfig, boot: Guid, events: seq<SignedEvent>, fileLength: nat,
    call: AppendCall, draw: Draw): Result<SignedEvent, AppendError>
  {
    var body := BodyOf(config, boot, call);
    var item := Seal(config, events, body, draw);
    var size := |config.crypto.encodeRecord(item)|;
    if !CallValid(call) then Failure(EventInvalid)
    else if config.campaign.Some? && body.campaign != config.campaign then Failure(CampaignMismatch)
    else if |events| >= MAXIMUM_EVENTS then Failure(JournalFull)
    else if !CountersFollow(events, body) then Failure(CountersBackwards)
    else if !ValidPayload(call.payload) then Failure(PayloadInvalid)
    else if size > MAXIMUM_EVENT_BYTES then Failure(EventTooLarge)
    else if fileLength + size + 1 > MAXIMUM_JOURNAL_BYTES then Failure(FileFull)
    else Success(item)
  }

  /** The load loop over the lines, with the events already accepted. */
  function CheckLines(config: BridgeConfig, lines: seq<Bytes>, events: seq<SignedEvent>)
    : Result<seq<SignedEvent>, LoadError>
    decreases |lines|
  {
    if lines == [] then Success(events)
    else if |lines[0]| > MAXIMUM_EVENT_BYTES || |events| >= MAXIMUM_EVENTS then Failure(JournalInvalid)
    else match config.crypto.decodeRecord(lines[0])
      case None => Failure(JournalInvalid)
      case Some(item) =>
        if AcceptNext(config, events, item) then CheckLines(config, lines[1..], events + [item])
        else Failure(JournalInvalid)
  }

  /** The size checks, before anything is written. */
  function TailCheck(data: Bytes): Option<LoadError> {
    if |data| > MAXIMUM_JOURNAL_BYTES then Some(FileTooLarge)
    else if |data| - CommittedLength(data) > MAXIMUM_EVENT_BYTES then Some(TailInvalid)
    else None
  }

  /** The file a load leaves behind: truncated before its lines are checked. */
  function LoadedFile(data: Bytes): Bytes {
    if TailCheck(data).Some? then data else data[..CommittedLength(data)]
  }

  /** The two size checks, told by the bytes; otherwise what is behind the last
      newline goes, and nothing else. */
  lemma {:induction false} TailCheckMeans(data: Bytes)
    ensures TailCheck(data) == Some(FileTooLarge) <==> |data| > 67_108_864
    ensures var n := |data|;
      TailCheck(data) == Some(TailInvalid) <==> 65_536 < n <= 67_108_864 && LF !in data[n - 65_537..]
    ensures TailCheck(data).Some? ==> LoadedFile(data) == data
    ensures TailCheck(data).None? ==>
      var kept := LoadedFile(data);
      kept <= data && LF !in data[|kept|..] && (kept == [] || kept[|kept| - 1] == LF)
  {
    var n, k := |data|, CommittedLength(data);
    if n > 65_536 {
      if k > n - 65_537 { assert data[n - 65_537..][k - 1 - (n - 65_537)] == LF; }
      else { assert data[n - 65_537..] == data[k..][n - 65_537 - k..]; }
    }
  }

  function LoadOutcome(config: BridgeConfig, data: Bytes): Result<seq<SignedEvent>, LoadError> {
    match TailCheck(data)
    case Some(e) => Failure(e)
    case None => CheckLines(config, Lines(LoadedFile(data)), [])
  }

  function StartOutcome(config: BridgeConfig, boot: Guid, data: Bytes, draw: Draw): Result<SignedEvent, StartError> {
    match LoadOutcome(config, data)
    case Failure(e) => Failure(LoadFailed(e))
    case Success(events) =>
      match AppendOutcome(config, boot, events, |LoadedFile(data)|, BRIDGE_STARTED_CALL, draw)
      case Failure(e) => Failure(AppendFailed(e))
      case Success(item) => Success(item)
  }

  function Records(crypto: Crypto, events: seq<SignedEvent>): (r: seq<Bytes>)
    ensures |r| == |events|
    ensures forall i | 0 <= i < |r| :: r[i] == crypto.encodeRecord(events[i])
  {
    seq(|events|, i requires 0 <= i < |events| => crypto.encodeRecord(events[i]))
  }

  function FileOf(crypto: Crypto, events: seq<SignedEvent>): Bytes { Frames(Records(crypto, events)) }

  lemma {:induction false} FileOfAppend(crypto: Crypto, events: seq<SignedEvent>, item: SignedEvent)
    ensures FileOf(crypto, events + [item]) == FileOf(crypto, events) + Frame(crypto.encodeRecord(item))
  {
    var all := Records(crypto, events + [item]);
    assert all[..|all| - 1] == Records(crypto, events);
  }

  /** What a later load requires of an event beyond what `Append` checks. */
  predicate Reloadable(config: BridgeConfig, item: SignedEvent) {
    item.claims.body.campaign == config.campaign && item.claims.body.request != Some(EMPTY_GUID)
  }

  /** An appended event passes the next load's test exactly when it names the
      configured campaign and no empty request id. */
  lemma {:induction false} AppendedIsReloadable(
    config: BridgeConfig, boot: NewGuid, events: seq<SignedEvent>, fileLength: nat,
    call: AppendCall, draw: Draw)
    requires config.crypto.Sound()
    requires AppendOutcome(config, boot, events, fileLength, call, draw).Success?
    ensures var item := AppendOutcome(config, boot, events, fileLength, call, draw).value;
      && Links(events, item) && CountersFollow(events, item.claims.body)
      && (AcceptNext(config, events, item) <==> Reloadable(config, item))
  {
  }

  const EMPTY_REQUEST_CALL := BRIDGE_STARTED_CALL.(request := Some(EMPTY_GUID))

  function OtherCampaignCall(campaign: Guid): AppendCall { BRIDGE_STARTED_CALL.(campaign := Some(campaign)) }

  /** The two kinds of calls that `Append` takes and the next load refuses, on
      an empty journal: an all-zero request id, and a campaign where none is
      configured. */
  lemma {:induction false} AppendedButNotReloadable(config: BridgeConfig, boot: NewGuid, call: AppendCall, draw: Draw)
    requires config.crypto.Sound()
    requires call == EMPTY_REQUEST_CALL ||
             (config.campaign.None? && call.campaign.Some? && call == OtherCampaignCall(call.campaign.value))
    requires |config.crypto.encodeRecord(Seal(config, [], BodyOf(config, boot, call), draw))| <= MAXIMUM_EVENT_BYTES
    ensures var r := AppendOutcome(config, boot, [], 0, call, draw);
      r.Success? && CheckLines(config, [config.crypto.encodeRecord(r.value)], []) == Failure(JournalInvalid)
  {
    var r := AppendOutcome(config, boot, [], 0, call, draw);
    AppendedIsReloadable(config, boot, [], 0, call, draw);
    assert config.crypto.decodeRecord(config.crypto.encodeRecord(r.value)) == Some(r.value);
  }

  lemma {:induction false} CheckLinesStep(config: BridgeConfig, lines: seq<Bytes>, events: seq<SignedEvent>)
    requires lines != [] && CheckLines(config, lines, events).Success?
    ensures var item := config.crypto.decodeRecord(lines[0]);
      && item.Some? && AcceptNext(config, events, item.value)
      && CheckLines(config, lines, events) == CheckLines(config, lines[1..], events + [item.value])
  {
  }

  /** Whatever file it is given, a load that succeeds yields a valid chain. */
  lemma {:induction false} CheckedLinesAreAccepted(config: BridgeConfig, lines: seq<Bytes>, events: seq<SignedEvent>)
    requires Accepted(config, events) && CheckLines(config, lines, events).Success?
    ensures Accepted(config, CheckLines(config, lines, events).value)
    decreases |lines|
  {
    if lines != [] {
      CheckLinesStep(config, lines, events);
      var item := config.crypto.decodeRecord(lines[0]).value;
      AcceptedAppend(config, events, item);
      CheckedLinesAreAccepted(config, lines[1..], events + [item]);
    }
  }

  /** What a load promises of every event it yields, whatever the file held: its
      place in the chain, the seal over its claims, and whose it is. */
  lemma {:induction false} LoadedPromises(config: BridgeConfig, data: Bytes, i: nat)
    requires LoadOutcome(config, data).Success? && i < |LoadOutcome(config, data).value|
    ensures var events := LoadOutcome(config, data).value;
      var item := events[i];
      var b := item.claims.body;
      && item.claims.sequenceNo == i + 1
      && item.claims.previousHash == (if i == 0 then None else Some(events[i - 1].eventHash))
      && IsSealed(config.crypto, item) && config.crypto.encodeClaims(item.claims) == item.canonical
      && |item.canonical| <= 65536 && 64 <= |item.signature| <= 80
      && item.claims.schemaVersion == 1 && item.claims.bridgeSchemaVersion == 5
      && item.claims.readOnly && !item.claims.orderRoutesExposed && item.claims.environment == config.environment
      && item.claims.eventId != 0 && b.boot != 0 && b.request != Some(0) && b.campaign == config.campaign
      && b.generation >= 0 && b.reconnects >= 0 && !b.eventType.UnlistedType? && !b.reason.UnlistedReason?
      && (i > 0 && events[i - 1].claims.body.boot == b.boot ==>
            events[i - 1].claims.body.generation <= b.generation && events[i - 1].claims.body.reconnects <= b.reconnects)
  {
    CheckedLinesAreAccepted(config, Lines(LoadedFile(data)), []);
    var events := LoadOutcome(config, data).value;
    assert AcceptNext(config, events[..i], events[i]);
    assert i > 0 ==> events[..i][i - 1] == events[i - 1];
  }

  /** No text in it is longer than its field allows, untrimmed or unprintable. */
  lemma {:induction false} LoadedTexts(config: BridgeConfig, data: Bytes, i: nat)
    requires LoadOutcome(config, data).Success? && i < |LoadOutcome(config, data).value|
    ensures var b := LoadOutcome(config, data).value[i].claims.body;
      && (b.payload.fromMarket.Some? ==> SafeText(b.payload.fromMarket.value, 256))
      && (b.payload.toMarket.Some? ==> SafeText(b.payload.toMarket.value, 256))
      && (b.payload.action.Some? && b.payload.action.value.OtherAction? ==> SafeText(b.payload.action.value.actionText, 64))
      && (b.payload.step.Some? && b.payload.step.value.OtherStep? ==> SafeText(b.payload.step.value.stepText, 64))
      && (b.scope.Some? && b.scope.value.OtherScope? ==> SafeText(b.scope.value.scopeText, 256))
      && (b.scenario.Some? && b.scenario.value.OtherScenario? ==> SafeText(b.scenario.value.scenarioText, 64))
  {
    CheckedLinesAreAccepted(config, Lines(LoadedFile(data)), []);
    var events := LoadOutcome(config, data).value;
    assert AcceptNext(config, events[..i], events[i]);
    assert Verify(config, events[i]);
  }

  /** It yields exactly one event per line, the line's own. */
  lemma {:induction false} CheckedLinesAreDecoded(
    config: BridgeConfig, lines: seq<Bytes>, events: seq<SignedEvent>, i: nat)
    requires CheckLines(config, lines, events).Success?
    ensures var r := CheckLines(config, lines, events).value;
      && events <= r && |r| == |events| + |lines|
      && (i < |lines| ==> config.crypto.decodeRecord(lines[i]) == Some(r[|events| + i]))
    decreases |lines|
  {
    if lines != [] {
      CheckLinesStep(config, lines, events);
      var item := config.crypto.decodeRecord(lines[0]).value;
      CheckedLinesAreDecoded(config, lines[1..], events + [item], if i > 0 then i - 1 else 0);
    }
  }

  /** A checkpoint that inherits the head's counters meets only full files. */
  lemma {:induction false} CheckpointOutcome(
    config: BridgeConfig, boot: Guid, events: seq<SignedEvent>, fileLength: nat, campaign: Guid, request: Guid,
    generation: int, reconnects: int, draw: Draw)
    requires config.campaign == Some(campaign) && generation >= 0 && reconnects >= 0
    requires CountersReach(events, boot, generation, reconnects)
    ensures var r := AppendOutcome(config, boot, events, fileLength,
                       CheckpointCall(campaign, request, generation, reconnects), draw);
      r.Failure? ==> r.error in {JournalFull, EventTooLarge, FileFull}
  {
  }

  class JournalFile {
    var data: Bytes

    constructor (data: Bytes)
      ensures this.data == data
    { this.data := data; }
  }

  /** Sequence numbers count from 1. */
  predicate Numbered(events: seq<SignedEvent>) {
    forall i | 0 <= i < |events| :: events[i].claims.sequenceNo == i + 1
  }

  class ObservationEventJournal {
    const config: BridgeConfig
    const boot: NewGuid
    const file: JournalFile
    var events: seq<SignedEvent>
    var sequenceNo: nat
    var previousHash: Option<Digest>

    ghost predicate Valid()
      reads this
    {
      sequenceNo == |events| && previousHash == LastHash(events) && Numbered(events)
    }

    constructor (config: BridgeConfig, boot: NewGuid, file: JournalFile)
      ensures this.config == config && this.boot == boot && this.file == file
      ensures Valid() && events == []
    {
      this.config, this.boot, this.file := config, boot, file;
      events, sequenceNo, previousHash := [], 0, None;
    }

    /** The size checks and the truncation at the head of the load. */
    method DropTornTail() returns (e: Option<LoadError>)
      modifies file
      ensures file.data == LoadedFile(old(file.data))
      ensures e == TailCheck(old(file.data))
    {
      if |file.data| > MAXIMUM_JOURNAL_BYTES {
        return Some(FileTooLarge);
      }
      var committed := |file.data|;
      while committed > 0 && file.data[committed - 1] != LF
        invariant 0 <= committed <= |file.data| && file.data == old(file.data)
        invariant CommittedLength(file.data) == CommittedLength(file.data[..committed])
      {
        assert file.data[..committed][..committed - 1] == file.data[..committed - 1];
        committed := committed - 1;
      }
      assert committed == CommittedLength(file.data);
      if |file.data| - committed > MAXIMUM_EVENT_BYTES {
        return Some(TailInvalid);
      }
      if committed != |file.data| {
        file.data := file.data[..committed];
      }
      assert file.data == old(file.data)[..committed];
      return None;
    }

    /** `LoadAndVerifyExistingEvents`. */
    method Load() returns (r: Result<(), LoadError>)
      requires Valid() && events == []
      modifies this, file
      ensures file.data == LoadedFile(old(file.data))
      ensures r.Success? <==> LoadOutcome(config, old(file.data)).Success?
      ensures r.Failure? ==> LoadOutcome(config, old(file.data)) == Failure(r.error)
      ensures r.Success? ==>
        Valid() && LoadOutcome(config, old(file.data)) == Success(events)
    {
      var cut := DropTornTail();
      if cut.Some? {
        return Failure(cut.value);
      }
      var expectedSequence := 1;
      var expectedPrevious: Option<Digest> := None;
      var rest := file.data;
      while rest != []
        invariant file.data == LoadedFile(old(file.data))
        invariant expectedSequence == |events| + 1
        invariant expectedPrevious == LastHash(events) && Numbered(events)
        invariant CheckLines(config, Lines(rest), events) == LoadOutcome(config, old(file.data))
        decreases |rest|
      {
        var n := FirstBreak(rest);
        var line := rest[..n];
        assert Lines(rest)[1..] == Lines(AfterBreak(rest, n));
        rest := AfterBreak(rest, n);
        if |line| > MAXIMUM_EVENT_BYTES || |events| >= MAXIMUM_EVENTS {
          return Failure(JournalInvalid);
        }
        var decoded := config.crypto.decodeRecord(line);
        if decoded.None? {
          return Failure(JournalInvalid);
        }
        var item := decoded.value;
        if item.claims.sequenceNo != expectedSequence || item.claims.previousHash != expectedPrevious ||
           !Verify(config, item) || !CountersFollow(events, item.claims.body)
        {
          return Failure(JournalInvalid);
        }
        events := events + [item];
        expectedPrevious := Some(item.eventHash);
        expectedSequence := expectedSequence + 1;
      }
      sequenceNo := expectedSequence - 1;
      previousHash := expectedPrevious;
      return Success(());
    }

    /** The rest of the source's constructor: load, then record the boot. */
    method Start(draw: Draw) returns (r: Result<SignedEvent, StartError>)
      requires Valid() && events == []
      modifies this, file
      ensures r == StartOutcome(config, boot, old(file.data), draw)
      ensures r.Failure? ==> file.data == LoadedFile(old(file.data))
      ensures r.Success? ==>
        && Valid() && events != [] && LoadOutcome(config, old(file.data)) == Success(events[..|events| - 1])
        && events[|events| - 1] == r.value
        && file.data == LoadedFile(old(file.data)) + Frame(config.crypto.encodeRecord(r.value))
        && r.value.claims.body ==
           EventBody(BridgeStarted, RBridgeStarted, config.campaign, boot, 0, 0, None, None, None, NO_PAYLOAD)
    {
      var loaded := Load();
      if loaded.Failure? {
        return Failure(LoadFailed(loaded.error));
      }
      var started := Append(BRIDGE_STARTED_CALL, draw);
      if started.Failure? {
        return Failure(AppendFailed(started.error));
      }
      return Success(started.value);
    }

    method Append(call: AppendCall, draw: Draw) returns (r: Result<SignedEvent, AppendError>)
      requires Valid()
      modifies this, file
      ensures Valid()
      ensures r == AppendOutcome(config, boot, old(events), |old(file.data)|, call, draw)
      ensures r.Success? ==>
        && events == old(events) + [r.value]
        && file.data == old(file.data) + Frame(config.crypto.encodeRecord(r.value))
      ensures r.Failure? ==> events == old(events) && file.data == old(file.data)
      ensures r.Success? ==> CarriesCall(config, boot, call, r.value.claims.body)
      ensures r.Success? ==>
        && r.value.claims.sequenceNo == |old(events)| + 1 && r.value.claims.previousHash == LastHash(old(events))
        && r.value.claims.eventId == draw.eventId && r.value.claims.eventAt == draw.eventAt
        && r.value.claims.environment == config.environment
        && r.value.claims.readOnly && !r.value.claims.orderRoutesExposed
        && r.value.signature == config.crypto.sign(r.value.eventHash, draw.nonce)
      ensures r.Success? && config.crypto.Sound() ==> IsSealed(config.crypto, r.value)
    {
      if !CallValid(call) {
        return Failure(EventInvalid);
      }
      var campaign := if call.campaign.Some? then call.campaign else config.campaign;
      if config.campaign.Some? && campaign != config.campaign {
        return Failure(CampaignMismatch);
      }
      if |events| >= MAXIMUM_EVENTS {
        return Failure(JournalFull);
      }
      var body := BodyOf(config, boot, call);
      if !CountersFollow(events, body) {
        return Failure(CountersBackwards);
      }
      if !ValidPayload(call.payload) {
        return Failure(PayloadInvalid);
      }
      var next := sequenceNo + 1;
      var item := Seal(config, events, body, draw);
      assert item.claims.sequenceNo == next && item.claims.previousHash == previousHash;
      var bytes := config.crypto.encodeRecord(item);
      if |bytes| > MAXIMUM_EVENT_BYTES {
        return Failure(EventTooLarge);
      }
      if |file.data| + |bytes| + 1 > MAXIMUM_JOURNAL_BYTES {
        return Failure(FileFull);
      }
      file.data := file.data + bytes + [LF];
      events := events + [item];
      sequenceNo := next;
      previousHash := Some(item.eventHash);
      return Success(item);
    }

    /** `RecordCampaignCheckpoint`: the sampled counters may be stale. */
    method RecordCampaignCheckpoint(campaign: Guid, request: Guid, generation: int, reconnects: int, draw: Draw)
      returns (r: Result<SignedEvent, AppendError>)
      requires Valid()
      modifies this, file
      ensures Valid()
      ensures r == Failure(OutsideCampaign) <==>
                campaign == EMPTY_GUID || request == EMPTY_GUID || generation < 0 || reconnects < 0 ||
                config.campaign != Some(campaign)
      ensures r != Failure(OutsideCampaign) ==>
        var inherited := InheritedCounters(old(events), boot, generation, reconnects);
        r == AppendOutcome(config, boot, old(events), |old(file.data)|,
               CheckpointCall(campaign, request, inherited.0, inherited.1), draw)
      ensures r.Failure? ==> events == old(events) && file.data == old(file.data)
      ensures r.Failure? ==> r.error in {OutsideCampaign, JournalFull, EventTooLarge, FileFull}
      ensures r.Success? ==>
        && events == old(events) + [r.value]
        && file.data == old(file.data) + Frame(config.crypto.encodeRecord(r.value))
    {
      if campaign == EMPTY_GUID || request == EMPTY_GUID || generation < 0 || reconnects < 0 ||
         config.campaign != Some(campaign)
      {
        return Failure(OutsideCampaign);
      }
      var g, c := generation, reconnects;
      if events != [] && events[|events| - 1].claims.body.boot == boot {
        var head := events[|events| - 1].claims.body;
        g := if g >= head.generation then g else head.generation;
        c := if c >= head.reconnects then c else head.reconnects;
      }
      assert (g, c) == InheritedCounters(events, boot, generation, reconnects);
      CheckpointOutcome(config, boot, events, |file.data|, campaign, request, g, c, draw);
      r := Append(CheckpointCall(campaign, request, g, c), draw);
    }

    /** `Read`: the first `limit` events after a sequence number. */
    method Read(after: int, limit: int) returns (r: Option<seq<SignedEvent>>)
      requires Valid()
      ensures r.None? <==> after < 0 || limit < 1 || limit > 1000
      ensures r.Some? ==> r.value == PageAfter(events, after, limit)
    {
      if after < 0 || limit < 1 || limit > 1000 {
        return None;
      }
      var page := [];
      var i := 0;
      while i < |events| && |page| < limit
        invariant 0 <= i <= |events|
        invariant page == if i <= after then [] else events[after..i]
        invariant |page| <= limit
      {
        if events[i].claims.sequenceNo > after {
          page := page + [events[i]];
        }
        i := i + 1;
      }
      return Some(page);
    }
  }

  /** The page a journal serves after sequence number `after`. */
  function PageAfter(events: seq<SignedEvent>, after: nat, limit: nat): seq<SignedEvent> {
    if after >= |events| then []
    else if |events| - after <= limit then events[after..]
    else events[after..after + limit]
  }
}

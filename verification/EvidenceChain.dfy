/**
 Producer meets consumer: what any run of the bridge writes, once signed and
 chained, is accepted by the bridge's own next load and by the Python verifier.
 */
module EvidenceChain {
  import opened Wrappers
  import opened EvidenceModel
  import opened EventSemantics
  import opened EvidenceJournal
  import BridgeReader
  import TraceSafety
  import PageVerifier
  import JournalPaging

  /** The journal that signs `bodies` one after the other. */
  function SealAll(config: BridgeConfig, bodies: seq<EventBody>, draw: nat -> Draw): (r: seq<SignedEvent>)
    ensures |r| == |bodies|
    decreases |bodies|
  {
    if bodies == [] then []
    else
      var front := SealAll(config, bodies[..|bodies| - 1], draw);
      front + [Seal(config, front, bodies[|bodies| - 1], draw(|front|))]
  }

  predicate Fits(config: BridgeConfig, events: seq<SignedEvent>) {
    forall i | 0 <= i < |events| :: |config.crypto.encodeRecord(events[i])| <= MAXIMUM_EVENT_BYTES
  }

  lemma {:induction false} SealVerifies(
    config: BridgeConfig, c: BridgeReader.ReaderConfig, events: seq<SignedEvent>, body: EventBody, draw: Draw)
    requires config.crypto.Sound() && c.campaign == config.campaign && BridgeReader.BodyOk(c, body)
    requires |config.crypto.encodeRecord(Seal(config, events, body, draw))| <= MAXIMUM_EVENT_BYTES
    ensures Verify(config, Seal(config, events, body, draw))
  {
  }

  lemma {:induction false} SealAllBodies(config: BridgeConfig, bodies: seq<EventBody>, draw: nat -> Draw, i: nat)
    requires i < |bodies|
    ensures SealAll(config, bodies, draw)[i].claims.body == bodies[i]
    decreases |bodies|
  {
    if i < |bodies| - 1 { SealAllBodies(config, bodies[..|bodies| - 1], draw, i); }
  }

  lemma {:induction false} TracePrefixOk(c: BridgeReader.ReaderConfig, bodies: seq<EventBody>)
    requires bodies != [] && BridgeReader.TraceOk(c, bodies)
    ensures BridgeReader.TraceOk(c, bodies[..|bodies| - 1])
  {
  }

  lemma {:induction false} FitsPrefix(config: BridgeConfig, events: seq<SignedEvent>, more: seq<SignedEvent>)
    requires events <= more && Fits(config, more)
    ensures Fits(config, events)
  {
    forall i | 0 <= i < |events| ensures |config.crypto.encodeRecord(events[i])| <= MAXIMUM_EVENT_BYTES {
      assert events[i] == more[i];
    }
  }

  /** The counters of the next body follow those of the signed head. */
  lemma {:induction false} SealedFollows(
    config: BridgeConfig, c: BridgeReader.ReaderConfig, bodies: seq<EventBody>, draw: nat -> Draw)
    requires bodies != [] && BridgeReader.TraceOk(c, bodies)
    ensures CountersFollow(SealAll(config, bodies[..|bodies| - 1], draw), bodies[|bodies| - 1])
  {
    var n := |bodies| - 1;
    if n > 0 {
      SealAllBodies(config, bodies[..n], draw, n - 1);
      assert BridgeReader.Follows(bodies[n - 1], bodies[n]);
    }
  }

  /** The next load of the bridge accepts the signed trace. */
  lemma {:induction false} SealedTraceAccepted(
    config: BridgeConfig, c: BridgeReader.ReaderConfig, bodies: seq<EventBody>, draw: nat -> Draw)
    requires config.crypto.Sound() && c.campaign == config.campaign && BridgeReader.TraceOk(c, bodies)
    requires Fits(config, SealAll(config, bodies, draw))
    ensures Accepted(config, SealAll(config, bodies, draw))
    decreases |bodies|
  {
    if bodies != [] {
      var n := |bodies| - 1;
      var all, front := SealAll(config, bodies, draw), SealAll(config, bodies[..n], draw);
      assert all == front + [Seal(config, front, bodies[n], draw(n))];
      FitsPrefix(config, front, all);
      TracePrefixOk(c, bodies);
      SealedTraceAccepted(config, c, bodies[..n], draw);
      assert |config.crypto.encodeRecord(all[n])| <= MAXIMUM_EVENT_BYTES;
      SealVerifies(config, c, front, bodies[n], draw(n));
      SealedFollows(config, c, bodies, draw);
      AcceptedAppend(config, front, all[n]);
    }
  }

  /** From threads to verified pages: the journal of every run of a live
      bridge, over any interleaving and any number of boots, is a journal that
      the verifier accepts in one pass and that paging can collect. */
  lemma {:induction false} ReachableJournalVerifies(
    config: BridgeConfig, c: BridgeReader.ReaderConfig, campaign: Guid, boot: Guid, ops: seq<BridgeReader.Op>, draw: nat -> Draw)
    requires config.crypto.Sound() && c.Ok() && boot != EMPTY_GUID
    requires config.environment == LiveT4 && config.campaign == Some(campaign) == c.campaign
    requires BridgeReader.OpsFresh(c, BridgeReader.Reboot(c, [], boot), ops)
    requires var trace := BridgeReader.Reached(c, BridgeReader.Reboot(c, [], boot), ops).trace;
      |trace| <= MAXIMUM_EVENTS && Fits(config, SealAll(config, trace, draw))
    ensures var trace := BridgeReader.Reached(c, BridgeReader.Reboot(c, [], boot), ops).trace;
      && Accepted(config, SealAll(config, trace, draw))
      && JournalPaging.HonestJournal(PageVerifier.VerifierOf(config.crypto), campaign, SealAll(config, trace, draw))
  {
    var trace := BridgeReader.Reached(c, BridgeReader.Reboot(c, [], boot), ops).trace;
    var events := SealAll(config, trace, draw);
    BridgeReader.ReachableTraceOk(c, boot, ops);
    SealedTraceAccepted(config, c, trace, draw);
    forall i | 0 <= i < |events| ensures Conforms(events[i].claims.body) && events[i].claims.body.campaign == Some(campaign) {
      SealAllBodies(config, trace, draw, i);
      assert BridgeReader.BodyOk(c, trace[i]);
    }
    PageVerifier.BridgeJournalPasses(config, events);
  }

  /** The checkpoint step of the state machine is the journal's own checkpoint:
      it appends the body that `RecordCampaignCheckpoint` stores behind the
      signed trace, with the counters inherited from its head. */
  lemma {:induction false} CheckpointIsRecorded(
    config: BridgeConfig, c: BridgeReader.ReaderConfig, s: BridgeReader.Reader, draw: nat -> Draw, campaign: Guid,
    request: Guid, generation: nat, reconnects: nat)
    requires config.campaign == Some(campaign) == c.campaign && request != EMPTY_GUID
    requires generation <= s.session.generation && reconnects <= s.session.reconnects
    ensures var inherited := InheritedCounters(SealAll(config, s.trace, draw), s.session.boot, generation, reconnects);
      BridgeReader.Step(c, s, BridgeReader.OCheckpoint(request, generation, reconnects)) ==
      s.(trace := s.trace +
        [BodyOf(config, s.session.boot, CheckpointCall(campaign, request, inherited.0, inherited.1))])
  {
    if s.trace != [] { SealAllBodies(config, s.trace, draw, |s.trace| - 1); }
  }

  // ----- the running bridge as a page server -----

  lemma {:induction false} SealPrefix(
    config: BridgeConfig, bodies: seq<EventBody>, more: seq<EventBody>, draw: nat -> Draw)
    requires bodies <= more
    ensures SealAll(config, bodies, draw) <= SealAll(config, more, draw)
    decreases |more|
  {
    if |bodies| < |more| {
      SealPrefix(config, bodies, more[..|more| - 1], draw);
    } else {
      assert bodies == more;
    }
  }

  lemma {:induction false} TraceGrows(
    c: BridgeReader.ReaderConfig, s: BridgeReader.Reader, ops: seq<BridgeReader.Op>, m: nat)
    requires m <= |ops|
    ensures BridgeReader.Reached(c, s, ops[..m]).trace <= BridgeReader.Reached(c, s, ops).trace
    decreases |ops|
  {
    if m < |ops| {
      var front := ops[..|ops| - 1];
      TraceGrows(c, s, front, m);
      assert front[..m] == ops[..m];
      TraceSafety.StepExtends(c, BridgeReader.Reached(c, s, front), ops[|ops| - 1]);
    } else {
      assert ops[..m] == ops;
    }
  }

  function Clamp(n: nat, limit: nat): nat { if n <= limit then n else limit }

  /** The journal of a run at the moment of the `k`-th call, `at(k)` steps in. */
  function JournalAt(
    config: BridgeConfig, c: BridgeReader.ReaderConfig, boot: Guid, ops: seq<BridgeReader.Op>, draw: nat -> Draw,
    at: nat -> nat, k: nat): seq<SignedEvent>
  {
    SealAll(config, BridgeReader.Reached(c, BridgeReader.Reboot(c, [], boot), ops[..Clamp(at(k), |ops|)]).trace, draw)
  }

  /** The calls of one client happen in order. */
  ghost predicate InOrder(at: nat -> nat) { forall j, k | j <= k :: at(j) <= at(k) }

  /** A run that stays within the journal's limits. */
  ghost predicate WithinLimits(
    config: BridgeConfig, c: BridgeReader.ReaderConfig, boot: Guid, ops: seq<BridgeReader.Op>, draw: nat -> Draw)
  {
    var trace := BridgeReader.Reached(c, BridgeReader.Reboot(c, [], boot), ops).trace;
    |trace| <= MAXIMUM_EVENTS && Fits(config, SealAll(config, trace, draw))
  }

  lemma {:induction false} PrefixFresh(
    c: BridgeReader.ReaderConfig, start: BridgeReader.Reader, ops: seq<BridgeReader.Op>, m: nat)
    requires m <= |ops| && BridgeReader.OpsFresh(c, start, ops)
    ensures BridgeReader.OpsFresh(c, start, ops[..m])
  {
    forall n | 0 <= n < m ensures BridgeReader.OpFresh(BridgeReader.Reached(c, start, ops[..m][..n]), ops[..m][n]) {
      assert ops[..m][..n] == ops[..n];
    }
  }

  lemma {:induction false} PrefixWithinLimits(
    config: BridgeConfig, c: BridgeReader.ReaderConfig, boot: Guid, ops: seq<BridgeReader.Op>, draw: nat -> Draw, m: nat)
    requires m <= |ops| && WithinLimits(config, c, boot, ops, draw)
    ensures WithinLimits(config, c, boot, ops[..m], draw)
  {
    var start := BridgeReader.Reboot(c, [], boot);
    var part, whole := BridgeReader.Reached(c, start, ops[..m]).trace, BridgeReader.Reached(c, start, ops).trace;
    TraceGrows(c, start, ops, m);
    SealPrefix(config, part, whole, draw);
    FitsPrefix(config, SealAll(config, part, draw), SealAll(config, whole, draw));
  }

  /** A live bridge that runs on while it is paged is an honest server; what
      its pages may weigh is decided by the client. */
  lemma {:induction false} BridgeIsHonest(
    config: BridgeConfig, c: BridgeReader.ReaderConfig, campaign: Guid, boot: Guid, ops: seq<BridgeReader.Op>,
    draw: nat -> Draw, at: nat -> nat, wire: JournalPaging.Wire, server: JournalPaging.Server,
    journal: nat -> seq<SignedEvent>)
    requires wire.Ok() && config.crypto.Sound() && c.Ok() && boot != EMPTY_GUID && InOrder(at)
    requires config.environment == LiveT4 && config.campaign == Some(campaign) == c.campaign
    requires BridgeReader.OpsFresh(c, BridgeReader.Reboot(c, [], boot), ops) && WithinLimits(config, c, boot, ops, draw)
    requires forall k :: journal(k) == JournalAt(config, c, boot, ops, draw, at, k)
    requires forall k, after, limit ::
      server(k, after, limit) ==
      JournalPaging.Served(PageVerifier.VerifierOf(config.crypto), wire, journal(k), after, limit)
    ensures JournalPaging.Honest(PageVerifier.VerifierOf(config.crypto), wire, campaign, server, journal)
  {
    var v := PageVerifier.VerifierOf(config.crypto);
    forall k ensures JournalPaging.HonestJournal(v, campaign, journal(k)) {
      var m := Clamp(at(k), |ops|);
      PrefixWithinLimits(config, c, boot, ops, draw, m);
      PrefixFresh(c, BridgeReader.Reboot(c, [], boot), ops, m);
      ReachableJournalVerifies(config, c, campaign, boot, ops[..m], draw);
    }
    forall j, k | j <= k ensures journal(j) <= journal(k) {
      var m, n := Clamp(at(j), |ops|), Clamp(at(k), |ops|);
      assert ops[..n][..m] == ops[..m];
      var start := BridgeReader.Reboot(c, [], boot);
      TraceGrows(c, start, ops[..n], m);
      SealPrefix(config, BridgeReader.Reached(c, start, ops[..m]).trace, BridgeReader.Reached(c, start, ops[..n]).trace, draw);
    }
  }

  /** The bridge writes no record of more than 64 KiB, so an envelope of up to
      33,000 bytes and a limit of 30 events are never too much. */
  lemma {:induction false} ThirtyRecordsFit(
    config: BridgeConfig, events: seq<SignedEvent>, envelopeBytes: nat, after: nat, limit: nat)
    requires Fits(config, events) && envelopeBytes <= 33_000 && limit <= 30
    ensures JournalPaging.FitsResponse(
              JournalPaging.RecordWire(config.crypto, envelopeBytes), PageAfter(events, after, limit))
  {
    var wire := JournalPaging.RecordWire(config.crypto, envelopeBytes);
    forall i | 0 <= i < |events| ensures wire.eventBytes(events[i]) <= MAXIMUM_EVENT_BYTES { }
    JournalPaging.SmallPagesFit(wire, events, after, limit, MAXIMUM_EVENT_BYTES);
  }
}

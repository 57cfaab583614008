/**
 `sync_bridge_events` (and the same loop in `start_controlled` and
 `_fetch_journal`): page through a journal that keeps growing between calls.
 */
module JournalPaging {
  import opened Wrappers
  import opened EvidenceModel
  import opened EventSemantics
  import opened PageVerifier
  import EvidenceJournal

  // ----- one request -----

  const EVENT_RESPONSE_LIMIT_BYTES: nat := 2_000_000

  /** What a request brings back: nothing usable, or a body of so many bytes
      that carries this page. */
  datatype Response = Unavailable | Body(bytes: nat, page: Page)

  datatype CallError = BridgeUnavailable | ResponseInvalid | PageRejected(error: PageError)

  predicate SizeAllowed(bytes: nat) { 0 < bytes <= EVENT_RESPONSE_LIMIT_BYTES }

  /** `list_events`: the body's size is judged before anything in it. */
  method ListEvents(v: Verifier, response: Response, cursor: Option<Cursor>) returns (r: Result<seq<SignedEvent>, CallError>)
    ensures r == Failure(BridgeUnavailable) <==> response.Unavailable?
    ensures r == Failure(ResponseInvalid) <==> response.Body? && !SizeAllowed(response.bytes)
    ensures r == Failure(ResponseInvalid) <==> response.Body? && (response.bytes == 0 || response.bytes > 2_000_000)
    ensures r.Success? <==>
      response.Body? && SizeAllowed(response.bytes) && PageOutcome(v, response.page, cursor).None?
    ensures r.Success? ==> r.value == response.page.events
  {
    if response.Unavailable? { return Failure(BridgeUnavailable); }
    if response.bytes == 0 || response.bytes > EVENT_RESPONSE_LIMIT_BYTES { return Failure(ResponseInvalid); }
    var verified := VerifyPage(v, response.page, cursor);
    if verified.Failure? { return Failure(PageRejected(verified.error)); }
    return Success(verified.value);
  }

  /** Lengths in the bridge's JSON: of one event, and of a page without events. */
  datatype Wire = Wire(eventBytes: SignedEvent -> nat, envelopeBytes: nat)
  {
    ghost predicate Ok() { envelopeBytes > 0 }
  }

  /** Each event and the comma behind it. */
  function EventsBytes(wire: Wire, events: seq<SignedEvent>): nat
    decreases |events|
  {
    if events == [] then 0
    else EventsBytes(wire, events[..|events| - 1]) + wire.eventBytes(events[|events| - 1]) + 1
  }

  /** The body that carries these events; the last one has no comma. */
  function PageBytes(wire: Wire, events: seq<SignedEvent>): int {
    wire.envelopeBytes + EventsBytes(wire, events) - if events == [] then 0 else 1
  }

  predicate FitsResponse(wire: Wire, events: seq<SignedEvent>) {
    PageBytes(wire, events) <= EVENT_RESPONSE_LIMIT_BYTES
  }

  lemma {:induction false} PageBytesPositive(wire: Wire, events: seq<SignedEvent>)
    ensures PageBytes(wire, events) >= wire.envelopeBytes
  {
  }

  lemma {:induction false} LongerPage(wire: Wire, xs: seq<SignedEvent>, ys: seq<SignedEvent>)
    requires xs <= ys
    ensures EventsBytes(wire, xs) <= EventsBytes(wire, ys) && PageBytes(wire, xs) <= PageBytes(wire, ys)
    decreases |ys|
  {
    if |xs| < |ys| {
      LongerPage(wire, xs, ys[..|ys| - 1]);
    } else {
      assert xs == ys;
    }
  }

  lemma {:induction false} PageBounds(wire: Wire, events: seq<SignedEvent>, least: nat, most: nat)
    requires forall i | 0 <= i < |events| :: least <= wire.eventBytes(events[i]) <= most
    ensures |events| * (least + 1) <= EventsBytes(wire, events) <= |events| * (most + 1)
    decreases |events|
  {
    if events != [] {
      var n := |events| - 1;
      PageBounds(wire, events[..n], least, most);
      assert (n + 1) * (least + 1) == n * (least + 1) + (least + 1);
      assert (n + 1) * (most + 1) == n * (most + 1) + (most + 1);
    }
  }

  /** A limit that keeps every page below the response limit, given the largest
      event: a caller can check it before the call. */
  lemma {:induction false} SmallPagesFit(
    wire: Wire, events: seq<SignedEvent>, after: nat, limit: nat, most: nat)
    requires forall i | 0 <= i < |events| :: wire.eventBytes(events[i]) <= most
    requires wire.envelopeBytes + limit * (most + 1) <= EVENT_RESPONSE_LIMIT_BYTES
    ensures FitsResponse(wire, EvidenceJournal.PageAfter(events, after, limit))
  {
    var page := EvidenceJournal.PageAfter(events, after, limit);
    assert page == [] || page == events[after..after + |page|];
    PageBounds(wire, page, 0, most);
    ProductGrows(|page|, limit, most + 1);
  }

  lemma {:induction false} ProductGrows(a: nat, b: nat, c: nat)
    requires a <= b
    ensures a * c <= b * c
  {
  }

  /** A page that is too large stays so: whatever is appended later, the same
      request is refused for ever. */
  lemma {:induction false} RefusalIsForEver(
    wire: Wire, events: seq<SignedEvent>, more: seq<SignedEvent>, after: nat, limit: nat)
    requires events <= more && !FitsResponse(wire, EvidenceJournal.PageAfter(events, after, limit))
    ensures !FitsResponse(wire, EvidenceJournal.PageAfter(more, after, limit))
  {
    LongerPage(wire, EvidenceJournal.PageAfter(events, after, limit), EvidenceJournal.PageAfter(more, after, limit));
  }

  /** The largest page the bridge serves, a thousand events, is refused as soon
      as they take 2,000 bytes each. */
  lemma {:induction false} ThousandEventsRefused(wire: Wire, events: seq<SignedEvent>, after: nat)
    requires wire.Ok() && after + 1000 <= |events|
    requires forall i | after <= i < after + 1000 :: wire.eventBytes(events[i]) >= 2000
    ensures !FitsResponse(wire, EvidenceJournal.PageAfter(events, after, 1000))
  {
    var page := EvidenceJournal.PageAfter(events, after, 1000);
    assert page == events[after..after + 1000];
    var most := MaximumBytes(wire, page);
    PageBounds(wire, page, 2000, most);
  }

  ghost function MaximumBytes(wire: Wire, events: seq<SignedEvent>): (most: nat)
    ensures forall i | 0 <= i < |events| :: wire.eventBytes(events[i]) <= most
    decreases |events|
  {
    if events == [] then 0
    else
      var most, last := MaximumBytes(wire, events[..|events| - 1]), wire.eventBytes(events[|events| - 1]);
      if most >= last then most else last
  }

  // ----- where the response encodes an event as the file does -----

  function RecordWire(crypto: Crypto, envelopeBytes: nat): Wire {
    Wire(e => |crypto.encodeRecord(e)|, envelopeBytes)
  }

  lemma {:induction false} EventsBytesOfFile(crypto: Crypto, envelopeBytes: nat, events: seq<SignedEvent>)
    ensures EventsBytes(RecordWire(crypto, envelopeBytes), events) == |EvidenceJournal.FileOf(crypto, events)|
    decreases |events|
  {
    if events != [] {
      var n := |events| - 1;
      EventsBytesOfFile(crypto, envelopeBytes, events[..n]);
      EvidenceJournal.FileOfAppend(crypto, events[..n], events[n]);
      assert events == events[..n] + [events[n]];
    }
  }

  /** The bytes of a page are those its events take in the journal file, with
      commas for line breaks, and the envelope: what is refused can be read off
      the file. */
  lemma {:induction false} PageBytesOfFile(
    crypto: Crypto, envelopeBytes: nat, events: seq<SignedEvent>, after: nat, limit: nat)
    ensures var page := EvidenceJournal.PageAfter(events, after, limit);
      FitsResponse(RecordWire(crypto, envelopeBytes), page) <==>
      envelopeBytes + |EvidenceJournal.FileOf(crypto, page)| <=
      EVENT_RESPONSE_LIMIT_BYTES + if page == [] then 0 else 1
  {
    EventsBytesOfFile(crypto, envelopeBytes, EvidenceJournal.PageAfter(events, after, limit));
  }

  // ----- paging -----

  /** The response to the `call`-th request: events after a sequence number. */
  type Server = (nat, nat, nat) -> Response

  datatype CheckpointReceipt = CheckpointReceipt(campaign: Guid, request: Guid, sequenceNo: int, eventHash: Digest)

  datatype SyncError =
    | LimitInvalid | CallFailed(error: CallError) | PageIneligible
    | CheckpointMissing | JournalLimitExceeded

  /** `_matches_checkpoint`. */
  predicate MatchesCheckpoint(item: SignedEvent, receipt: CheckpointReceipt) {
    var b := item.claims.body;
    && b.eventType == CampaignCheckpoint && b.reason == RCampaignCheckpoint
    && b.campaign == Some(receipt.campaign) && b.request == Some(receipt.request)
    && item.claims.sequenceNo == receipt.sequenceNo && item.eventHash == receipt.eventHash
    && b.scope.None? && b.scenario.None?
    && b.payload.action == Some(Checkpoint) && b.payload.step == Some(Consumed)
  }

  predicate AnyMatches(events: seq<SignedEvent>, receipt: CheckpointReceipt) {
    exists i | 0 <= i < |events| :: MatchesCheckpoint(events[i], receipt)
  }

  /** `store_bridge_event_page` takes live pages of this campaign only. */
  predicate Eligible(campaign: Guid, page: Page) {
    && page.environment == LiveT4
    && forall i | 0 <= i < |page.events| ::
         page.events[i].claims.body.campaign in {None, Some(campaign)}
  }

  /** Every event names this campaign or none. */
  predicate OfCampaign(campaign: Guid, events: seq<SignedEvent>) {
    forall i | 0 <= i < |events| :: events[i].claims.body.campaign.None? || events[i].claims.body.campaign == Some(campaign)
  }

  predicate NotStorable(campaign: Guid, response: Response) {
    response.Body? && (response.page.environment != LiveT4 || !OfCampaign(campaign, response.page.events))
  }

  lemma {:induction false} OfCampaignAppend(campaign: Guid, xs: seq<SignedEvent>, ys: seq<SignedEvent>)
    requires OfCampaign(campaign, xs) && OfCampaign(campaign, ys)
    ensures OfCampaign(campaign, xs + ys)
  {
  }

  predicate PassesLive(v: Verifier, events: seq<SignedEvent>) {
    CheckEvents(v, LiveT4, events, 1, None).None?
  }

  function MaximumPages(limit: nat): nat
    requires limit > 0
  {
    MAXIMUM_EVENTS / limit + 2
  }

  /** Room for 100,000 events, for the page that is not full, and one more. */
  lemma {:induction false} MaximumPagesMean(limit: nat)
    requires limit > 0
    ensures (MaximumPages(limit) - 2) * limit <= 100_000 < (MaximumPages(limit) - 1) * limit
    ensures MaximumPages(1000) == 102
  {
    var q := MAXIMUM_EVENTS / limit;
    assert MAXIMUM_EVENTS == q * limit + MAXIMUM_EVENTS % limit;
    assert (q + 1) * limit == q * limit + limit;
  }

  /** The bridge's answer from this journal. */
  function Served(v: Verifier, wire: Wire, events: seq<SignedEvent>, after: nat, limit: nat): Response
    requires wire.envelopeBytes > 0
  {
    var page := EvidenceJournal.PageAfter(events, after, limit);
    Body(PageBytes(wire, page), Page(LiveT4, v.fingerprint, page))
  }

  /** The server is the bridge: `journal(k)` is its journal at the `k`-th call. */
  ghost predicate Honest(v: Verifier, wire: Wire, campaign: Guid, server: Server, journal: nat -> seq<SignedEvent>) {
    && wire.Ok()
    && (forall k, after, limit :: server(k, after, limit) == Served(v, wire, journal(k), after, limit))
    && (forall j, k | j <= k :: journal(j) <= journal(k))
    && (forall k :: HonestJournal(v, campaign, journal(k)))
  }

  ghost predicate HonestJournal(v: Verifier, campaign: Guid, events: seq<SignedEvent>) {
    && |events| <= MAXIMUM_EVENTS && PassesLive(v, events)
    && forall i | 0 <= i < |events| :: events[i].claims.body.campaign in {None, Some(campaign)}
  }

  /** Any stretch of an accepted journal passes from the cursor before it. */
  lemma {:induction false} StretchPasses(v: Verifier, events: seq<SignedEvent>, after: nat, end: nat)
    requires PassesLive(v, events) && after <= end <= |events|
    ensures var cursor := CursorAfter(None, events[..after]);
      && NextSequence(cursor) == after + 1
      && CheckEvents(v, LiveT4, events[after..end], NextSequence(cursor), PreviousHash(cursor)).None?
  {
    var taken, rest := events[after..end], events[end..];
    assert events == events[..after] + (taken + rest);
    SplitPass(v, LiveT4, events[..after], taken + rest, None);
    SplitPass(v, LiveT4, taken, rest, CursorAfter(None, events[..after]));
    if after > 0 { AcceptedSequences(v, LiveT4, events[..after], 1, None, after - 1); }
  }

  /** A page cut out of an honest journal passes from the cursor before it. */
  lemma {:induction false} HonestPagePasses(
    v: Verifier, campaign: Guid, events: seq<SignedEvent>, after: nat, limit: nat)
    requires HonestJournal(v, campaign, events) && after <= |events| && limit <= MAXIMUM_PAGE_EVENTS
    ensures var page := Page(LiveT4, v.fingerprint, EvidenceJournal.PageAfter(events, after, limit));
      && PageOutcome(v, page, CursorAfter(None, events[..after])).None?
      && Eligible(campaign, page)
  {
    var taken := EvidenceJournal.PageAfter(events, after, limit);
    assert taken == events[after..after + |taken|];
    StretchPasses(v, events, after, after + |taken|);
    StretchEligible(campaign, events, after, after + |taken|);
  }

  lemma {:induction false} StretchEligible(campaign: Guid, events: seq<SignedEvent>, after: nat, end: nat)
    requires after <= end <= |events|
    requires forall i | 0 <= i < |events| :: events[i].claims.body.campaign in {None, Some(campaign)}
    ensures var taken := events[after..end];
      forall i | 0 <= i < |taken| :: taken[i].claims.body.campaign in {None, Some(campaign)}
  {
  }

  lemma {:induction false} PageContinues(
    v: Verifier, campaign: Guid, now: seq<SignedEvent>, stored: seq<SignedEvent>, limit: nat)
    requires HonestJournal(v, campaign, now) && stored <= now && 1 <= limit <= MAXIMUM_PAGE_EVENTS
    ensures var page := Page(LiveT4, v.fingerprint, EvidenceJournal.PageAfter(now, |stored|, limit));
      && PageOutcome(v, page, CursorAfter(None, stored)).None?
      && Eligible(campaign, page)
      && stored + page.events <= now
      && |page.events| <= limit && |stored + page.events| <= MAXIMUM_EVENTS
      && (|page.events| < limit ==> stored + page.events == now)
  {
    assert now[..|stored|] == stored;
    HonestPagePasses(v, campaign, now, |stored|, limit);
  }

  lemma {:induction false} HonestCall(
    v: Verifier, wire: Wire, campaign: Guid, server: Server, journal: nat -> seq<SignedEvent>,
    calls: nat, stored: seq<SignedEvent>, limit: nat)
    requires Honest(v, wire, campaign, server, journal) && 1 <= limit <= MAXIMUM_PAGE_EVENTS
    requires calls > 0 ==> stored <= journal(calls - 1)
    requires calls == 0 ==> stored == []
    ensures server(calls, |stored|, limit) == Served(v, wire, journal(calls), |stored|, limit)
    ensures var page := server(calls, |stored|, limit).page;
      && PageOutcome(v, page, CursorAfter(None, stored)).None?
      && Eligible(campaign, page)
      && stored + page.events <= journal(calls)
      && |page.events| <= limit && |stored + page.events| <= MAXIMUM_EVENTS
      && (|page.events| < limit ==> stored + page.events == journal(calls))
  {
    var now := journal(calls);
    if calls > 0 { assert journal(calls - 1) <= now; }
    assert HonestJournal(v, campaign, now);
    PageContinues(v, campaign, now, stored, limit);
  }

  lemma {:induction false} PageBound(limit: nat, pages: nat)
    requires limit > 0 && pages * limit <= MAXIMUM_EVENTS
    ensures pages < MaximumPages(limit)
  {
  }

  lemma {:induction false} CursorPosition(v: Verifier, stored: seq<SignedEvent>)
    requires PassesLive(v, stored)
    ensures NextSequence(CursorAfter(None, stored)) == |stored| + 1
  {
    if stored != [] { AcceptedSequences(v, LiveT4, stored, 1, None, |stored| - 1); }
  }

  lemma {:induction false} StoredExtends(v: Verifier, stored: seq<SignedEvent>, page: Page)
    requires PassesLive(v, stored) && page.environment == LiveT4
    requires PageOutcome(v, page, CursorAfter(None, stored)).None?
    ensures PassesLive(v, stored + page.events)
  {
    SplitPass(v, LiveT4, stored, page.events, None);
  }

  /** Before the next call every page so far was full and came off the journal. */
  ghost predicate Fetched(journal: nat -> seq<SignedEvent>, limit: nat, calls: nat, stored: seq<SignedEvent>) {
    && (calls > 0 ==> stored <= journal(calls - 1))
    && |stored| == calls * limit <= MAXIMUM_EVENTS
  }

  /** The page that call `k` of the loop asks for stays below the response limit. */
  predicate PageFits(wire: Wire, journal: nat -> seq<SignedEvent>, limit: nat, k: nat) {
    FitsResponse(wire, EvidenceJournal.PageAfter(journal(k), k * limit, limit))
  }

  /** One call of the loop: request, verify, and check eligibility.  An honest
      bridge is refused exactly when its page is too large. */
  method FetchPage(
    v: Verifier, campaign: Guid, server: Server, limit: nat, calls: nat, stored: seq<SignedEvent>,
    ghost wire: Wire, ghost journal: nat -> seq<SignedEvent>)
    returns (r: Result<seq<SignedEvent>, SyncError>)
    requires PassesLive(v, stored) && 1 <= limit <= 1000
    ensures r.Success? ==> PassesLive(v, stored + r.value) && OfCampaign(campaign, r.value)
    ensures r.Failure? ==> r.error.CallFailed? || r.error.PageIneligible?
    ensures r == Failure(PageIneligible) ==>
      exists after: nat :: NotStorable(campaign, server(calls, after, limit))
    ensures Honest(v, wire, campaign, server, journal) && Fetched(journal, limit, calls, stored) ==>
      && (r.Success? <==> PageFits(wire, journal, limit, calls))
      && (r.Failure? ==> r.error == CallFailed(ResponseInvalid))
    ensures Honest(v, wire, campaign, server, journal) && Fetched(journal, limit, calls, stored) && r.Success? ==>
      && |r.value| <= limit && stored + r.value <= journal(calls) && |stored + r.value| <= MAXIMUM_EVENTS
      && (|r.value| < limit ==> stored + r.value == journal(calls))
  {
    var cursor := CursorAfter(None, stored);
    CursorPosition(v, stored);
    var response := server(calls, NextSequence(cursor) - 1, limit);
    if Honest(v, wire, campaign, server, journal) && Fetched(journal, limit, calls, stored) {
      HonestCall(v, wire, campaign, server, journal, calls, stored, limit);
      PageBytesPositive(wire, response.page.events);
    }
    var answer := ListEvents(v, response, cursor);
    if answer.Failure? { return Failure(CallFailed(answer.error)); }
    if answer.value == [] {
      assert stored + [] == stored;
      return Success([]);
    }
    if !Eligible(campaign, response.page) { return Failure(PageIneligible); }
    StoredExtends(v, stored, response.page);
    return Success(answer.value);
  }

  /** Whatever the server does, only a verified chain from sequence 1 is ever
      stored and the number of calls is bounded.  With an honest server the
      bound is never hit, and unless the last page asked for was too large the
      stored events are exactly the journal at the last call. */
  method CollectJournal(
    v: Verifier, campaign: Guid, server: Server, limit: int, checkpoint: Option<CheckpointReceipt>,
    ghost wire: Wire, ghost journal: nat -> seq<SignedEvent>)
    returns (r: Result<nat, SyncError>, stored: seq<SignedEvent>, calls: nat)
    ensures r == Failure(LimitInvalid) <==> !(1 <= limit <= 1000)
    ensures 1 <= limit ==> calls <= MaximumPages(limit)
    ensures r == Failure(JournalLimitExceeded) ==> limit > 0 && calls == MaximumPages(limit)
    ensures PassesLive(v, stored) && OfCampaign(campaign, stored)
    ensures r.Success? ==> r.value == |stored| && (checkpoint.Some? ==> AnyMatches(stored, checkpoint.value))
    ensures r == Failure(CheckpointMissing) ==> checkpoint.Some? && !AnyMatches(stored, checkpoint.value)
    ensures 1 <= limit <= 1000 && Honest(v, wire, campaign, server, journal) ==>
      && calls >= 1 && (forall k: nat | k < calls - 1 :: PageFits(wire, journal, limit, k))
      && (r == Failure(CallFailed(ResponseInvalid)) <==> !PageFits(wire, journal, limit, calls - 1))
      && (PageFits(wire, journal, limit, calls - 1) ==>
            (r.Success? || r == Failure(CheckpointMissing)) && stored == journal(calls - 1))
    ensures (1 <= limit <= 1000 && Honest(v, wire, campaign, server, journal) &&
             checkpoint.Some? && AnyMatches(journal(0), checkpoint.value)) ==> r != Failure(CheckpointMissing)
  {
    stored, calls := [], 0;
    if !(1 <= limit <= 1000) {
      r := Failure(LimitInvalid);
      return;
    }
    ghost var honest := Honest(v, wire, campaign, server, journal);
    var checkpointSeen := checkpoint.None?;
    while calls < MaximumPages(limit)
      invariant calls <= MaximumPages(limit)
      invariant PassesLive(v, stored) && OfCampaign(campaign, stored)
      invariant checkpointSeen <==> checkpoint.None? || AnyMatches(stored, checkpoint.value)
      invariant honest ==>
        Fetched(journal, limit, calls, stored) && forall k: nat | k < calls :: PageFits(wire, journal, limit, k)
    {
      var page := FetchPage(v, campaign, server, limit, calls, stored, wire, journal);
      calls := calls + 1;
      if page.Failure? {
        r := Failure(page.error);
        return;
      }
      if checkpoint.Some? {
        MatchesSplit(stored, page.value, checkpoint.value);
        if AnyMatches(page.value, checkpoint.value) { checkpointSeen := true; }
      }
      OfCampaignAppend(campaign, stored, page.value);
      stored := stored + page.value;
      if |page.value| < limit {
        if honest && checkpoint.Some? {
          MatchesPersist(journal, calls - 1, v, wire, campaign, server, checkpoint.value);
        }
        if checkpointSeen { r := Success(|stored|); } else { r := Failure(CheckpointMissing); }
        return;
      }
      OneMorePage(calls - 1, limit);
    }
    if honest { PageBound(limit, calls); }
    r := Failure(JournalLimitExceeded);
  }

  lemma {:induction false} OneMorePage(calls: nat, limit: nat)
    ensures calls * limit + limit == (calls + 1) * limit
  {
  }

  /** What an honest journal held at the first call it holds at every later one. */
  lemma {:induction false} MatchesPersist(
    journal: nat -> seq<SignedEvent>, k: nat, v: Verifier, wire: Wire, campaign: Guid, server: Server,
    receipt: CheckpointReceipt)
    requires Honest(v, wire, campaign, server, journal)
    ensures AnyMatches(journal(0), receipt) ==> AnyMatches(journal(k), receipt)
  {
    assert journal(0) <= journal(k);
  }

  lemma {:induction false} MatchesSplit(xs: seq<SignedEvent>, ys: seq<SignedEvent>, receipt: CheckpointReceipt)
    ensures AnyMatches(xs + ys, receipt) <==> AnyMatches(xs, receipt) || AnyMatches(ys, receipt)
  {
    if AnyMatches(xs, receipt) {
      var i :| 0 <= i < |xs| && MatchesCheckpoint(xs[i], receipt);
      assert MatchesCheckpoint((xs + ys)[i], receipt);
    }
    if AnyMatches(ys, receipt) {
      var i :| 0 <= i < |ys| && MatchesCheckpoint(ys[i], receipt);
      assert MatchesCheckpoint((xs + ys)[|xs| + i], receipt);
    }
  }

  /** A valid checkpoint of this campaign and request is all that is asked for. */
  lemma {:induction false} CheckpointMatches(crypto: Crypto, item: SignedEvent, receipt: CheckpointReceipt)
    requires EventValid(crypto, item) && item.claims.sequenceNo == receipt.sequenceNo
    ensures MatchesCheckpoint(item, receipt) <==>
      && item.eventHash == receipt.eventHash && item.claims.body.eventType == CampaignCheckpoint
      && item.claims.body.campaign == Some(receipt.campaign) && item.claims.body.request == Some(receipt.request)
  {
    assert Conforms(item.claims.body);
  }

  /** In an accepted journal a receipt is found exactly if the event at its
      number has its hash and is a checkpoint of its campaign and request. */
  lemma {:induction false} CheckpointFound(crypto: Crypto, events: seq<SignedEvent>, receipt: CheckpointReceipt)
    requires PassesLive(VerifierOf(crypto), events)
    ensures AnyMatches(events, receipt) <==>
      && 1 <= receipt.sequenceNo <= |events|
      && var item := events[receipt.sequenceNo - 1];
         && item.eventHash == receipt.eventHash && item.claims.body.eventType == CampaignCheckpoint
         && item.claims.body.campaign == Some(receipt.campaign) && item.claims.body.request == Some(receipt.request)
  {
    var v := VerifierOf(crypto);
    if AnyMatches(events, receipt) {
      var i: nat :| i < |events| && MatchesCheckpoint(events[i], receipt);
      AcceptedSequences(v, LiveT4, events, 1, None, i);
      assert receipt.sequenceNo - 1 == i;
    }
    if 1 <= receipt.sequenceNo <= |events| {
      var k := receipt.sequenceNo - 1;
      AcceptedSequences(v, LiveT4, events, 1, None, k);
      CheckpointMatches(crypto, events[k], receipt);
    }
  }

  /** The receipt the bridge returns for a checkpoint: the event itself is
      matched, and no other event of the journal. */
  lemma {:induction false} OwnCheckpointFound(
    config: BridgeConfig, boot: EvidenceJournal.NewGuid, events: seq<SignedEvent>, fileLength: nat,
    campaign: Guid, request: Guid, generation: int, reconnects: int, draw: EvidenceJournal.Draw,
    journal: seq<SignedEvent>, i: nat)
    requires var call := EvidenceJournal.CheckpointCall(campaign, request, generation, reconnects);
      var r := EvidenceJournal.AppendOutcome(config, boot, events, fileLength, call, draw);
      && r.Success? && events + [r.value] <= journal
    requires EvidenceJournal.Numbered(journal) && i < |journal|
    ensures var item := journal[|events|];
      var receipt := CheckpointReceipt(campaign, request, item.claims.sequenceNo, item.eventHash);
      MatchesCheckpoint(journal[i], receipt) <==> i == |events|
  {
    var call := EvidenceJournal.CheckpointCall(campaign, request, generation, reconnects);
    var item := EvidenceJournal.AppendOutcome(config, boot, events, fileLength, call, draw).value;
    assert (events + [item])[|events|] == item == journal[|events|];
  }
}

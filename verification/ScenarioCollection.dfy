/**
 `collect_controlled`: poll pages into a hash-keyed buffer until the fragment
 search succeeds, and submit what it found.
 */
module ScenarioCollection {
  import opened Wrappers
  import opened EvidenceModel
  import opened EventSemantics
  import opened PageVerifier
  import opened JournalPaging
  import opened ScenarioFragment
  import EvidenceJournal

  const POLL_LIMIT: nat := 512

  /** The response to the `call`-th poll after a sequence number. */
  type Poller = (nat, nat) -> Response

  datatype CollectError = RunInvalid | PollFailed(error: CallError) | PollIneligible | EvidenceTimeout

  // ----- the buffer: an insertion-ordered dictionary keyed by event hash -----

  function Put(buffer: seq<SignedEvent>, e: SignedEvent): seq<SignedEvent>
    decreases |buffer|
  {
    if buffer == [] then [e]
    else if buffer[0].eventHash == e.eventHash then [e] + buffer[1..]
    else [buffer[0]] + Put(buffer[1..], e)
  }

  function PutAll(buffer: seq<SignedEvent>, events: seq<SignedEvent>): seq<SignedEvent>
    decreases |events|
  {
    if events == [] then buffer else PutAll(Put(buffer, events[0]), events[1..])
  }

  function InsertBySequence(sorted: seq<SignedEvent>, e: SignedEvent): seq<SignedEvent>
    decreases |sorted|
  {
    if sorted == [] || sorted[|sorted| - 1].claims.sequenceNo <= e.claims.sequenceNo then sorted + [e]
    else InsertBySequence(sorted[..|sorted| - 1], e) + [sorted[|sorted| - 1]]
  }

  /** `sorted(..., key=sequence_no)`, which is stable. */
  function SortBySequence(events: seq<SignedEvent>): seq<SignedEvent>
    decreases |events|
  {
    if events == [] then []
    else InsertBySequence(SortBySequence(events[..|events| - 1]), events[|events| - 1])
  }

  /** As in a dictionary: a new hash goes last, a known one keeps its place and
      takes the new event. */
  lemma {:induction false} PutMeans(buffer: seq<SignedEvent>, e: SignedEvent)
    ensures e.eventHash !in Keys(buffer) ==> Put(buffer, e) == buffer + [e]
    ensures e.eventHash in Keys(buffer) ==>
      exists i | 0 <= i < |buffer| :: Put(buffer, e) == buffer[i := e] && buffer[i].eventHash == e.eventHash
    decreases |buffer|
  {
    if buffer != [] {
      var rest := buffer[1..];
      PutMeans(rest, e);
      assert buffer == [buffer[0]] + rest;
      assert Keys(buffer) == [buffer[0].eventHash] + Keys(rest);
      if buffer[0].eventHash == e.eventHash {
        assert Put(buffer, e) == buffer[0 := e];
      } else if e.eventHash in Keys(rest) {
        var i :| 0 <= i < |rest| && Put(rest, e) == rest[i := e] && rest[i].eventHash == e.eventHash;
        assert Put(buffer, e) == buffer[i + 1 := e];
      }
    }
  }

  function Keys(buffer: seq<SignedEvent>): (r: seq<Digest>)
    ensures |r| == |buffer|
  {
    seq(|buffer|, i requires 0 <= i < |buffer| => buffer[i].eventHash)
  }

  ghost predicate DistinctHashes(events: seq<SignedEvent>) {
    forall i, j | 0 <= i < j < |events| :: events[i].eventHash != events[j].eventHash
  }

  lemma {:induction false} PutNew(buffer: seq<SignedEvent>, e: SignedEvent)
    requires forall i | 0 <= i < |buffer| :: buffer[i].eventHash != e.eventHash
    ensures Put(buffer, e) == buffer + [e]
    decreases |buffer|
  {
    if buffer != [] {
      PutNew(buffer[1..], e);
      assert buffer == [buffer[0]] + buffer[1..];
    }
  }

  lemma {:induction false} PutAllNew(buffer: seq<SignedEvent>, events: seq<SignedEvent>)
    requires DistinctHashes(buffer + events)
    ensures PutAll(buffer, events) == buffer + events
    decreases |events|
  {
    if events == [] {
      assert buffer + events == buffer;
    } else {
      forall i | 0 <= i < |buffer| ensures buffer[i].eventHash != events[0].eventHash {
        assert (buffer + events)[i] == buffer[i] && (buffer + events)[|buffer|] == events[0];
      }
      PutNew(buffer, events[0]);
      assert buffer + [events[0]] + events[1..] == buffer + events;
      PutAllNew(buffer + [events[0]], events[1..]);
    }
  }

  lemma {:induction false} InsertLast(sorted: seq<SignedEvent>, e: SignedEvent)
    requires sorted != [] ==> sorted[|sorted| - 1].claims.sequenceNo <= e.claims.sequenceNo
    ensures InsertBySequence(sorted, e) == sorted + [e]
  {
  }

  lemma {:induction false} SortedIsFixed(events: seq<SignedEvent>)
    requires forall i | 0 <= i < |events| :: events[i].claims.sequenceNo == i + 1
    ensures SortBySequence(events) == events
    decreases |events|
  {
    if events != [] {
      var front, last := events[..|events| - 1], events[|events| - 1];
      SortedIsFixed(front);
      assert front != [] ==> front[|front| - 1].claims.sequenceNo < last.claims.sequenceNo;
      InsertLast(front, last);
    }
  }

  lemma {:induction false} PassedSequence(v: Verifier, events: seq<SignedEvent>, i: nat)
    requires PassesLive(v, events) && i < |events|
    ensures v.accepts(events[i]) && events[i].claims.sequenceNo == i + 1
  {
    AcceptedSequences(v, LiveT4, events, 1, None, i);
  }

  ghost predicate CollisionFree(crypto: Crypto, events: seq<SignedEvent>) {
    forall i, j | 0 <= i < j < |events| :: !Collides(crypto, events[i].canonical, events[j].canonical)
  }

  /** Two events of one accepted chain share a hash only through a collision. */
  lemma {:induction false} AcceptedHashesDiffer(crypto: Crypto, events: seq<SignedEvent>)
    requires PassesLive(VerifierOf(crypto), events) && CollisionFree(crypto, events)
    ensures DistinctHashes(events)
  {
    VerifierBinds(crypto);
    forall i, j | 0 <= i < j < |events| ensures events[i].eventHash != events[j].eventHash {
      PassedSequence(VerifierOf(crypto), events, i);
      PassedSequence(VerifierOf(crypto), events, j);
      assert !Collides(crypto, events[i].canonical, events[j].canonical);
    }
  }

  /** The bridge answers, or is unavailable; `journal(k)` is its journal then. */
  ghost predicate HonestPolls(
    v: Verifier, wire: Wire, campaign: Guid, poller: Poller, journal: nat -> seq<SignedEvent>)
  {
    && wire.Ok()
    && (forall k, after :: poller(k, after).Body? ==>
          poller(k, after) == Served(v, wire, journal(k), after, POLL_LIMIT))
    && (forall j, k | j <= k :: journal(j) <= journal(k))
    && (forall k :: HonestJournal(v, campaign, journal(k)) && DistinctHashes(journal(k)))
  }

  /** What a poll behind `after` would bring stays below the response limit. */
  predicate PollFits(wire: Wire, journal: nat -> seq<SignedEvent>, call: nat, after: nat) {
    FitsResponse(wire, EvidenceJournal.PageAfter(journal(call), after, POLL_LIMIT))
  }

  lemma {:induction false} PrefixIsTaken(
    v: Verifier, now: seq<SignedEvent>, buffer: seq<SignedEvent>, added: seq<SignedEvent>)
    requires PassesLive(v, now) && DistinctHashes(now) && buffer + added <= now
    ensures PutAll(buffer, added) == buffer + added && SortBySequence(buffer + added) == buffer + added
  {
    var grown := buffer + added;
    PutAllNew(buffer, added);
    forall i | 0 <= i < |grown| ensures grown[i].claims.sequenceNo == i + 1 { PassedSequence(v, now, i); }
    SortedIsFixed(grown);
  }

  /** A buffer that holds a journal prefix grows to a longer journal prefix. */
  lemma {:induction false} HonestPoll(
    v: Verifier, wire: Wire, campaign: Guid, poller: Poller, journal: nat -> seq<SignedEvent>,
    call: nat, buffer: seq<SignedEvent>)
    requires HonestPolls(v, wire, campaign, poller, journal) && buffer <= journal(call)
    requires poller(call, |buffer|).Body?
    ensures SizeAllowed(poller(call, |buffer|).bytes) <==> PollFits(wire, journal, call, |buffer|)
    ensures var page := poller(call, |buffer|).page;
      && PageOutcome(v, page, CursorAfter(None, buffer)).None? && Eligible(campaign, page)
      && PutAll(buffer, page.events) == buffer + page.events <= journal(call)
      && SortBySequence(buffer + page.events) == buffer + page.events
      && (buffer + page.events == journal(call) || |page.events| == POLL_LIMIT)
  {
    var now, page := journal(call), poller(call, |buffer|).page;
    PageBytesPositive(wire, page.events);
    assert HonestJournal(v, campaign, now) && DistinctHashes(now);
    PageContinues(v, campaign, now, buffer, POLL_LIMIT);
    PrefixIsTaken(v, now, buffer, page.events);
  }

  lemma {:induction false} PrefixSorted(v: Verifier, events: seq<SignedEvent>, whole: seq<SignedEvent>)
    requires events <= whole && PassesLive(v, whole)
    ensures PassesLive(v, events)
    ensures NextSequence(CursorAfter(None, events)) == |events| + 1
  {
    StretchPasses(v, whole, 0, |events|);
    assert whole[0..|events|] == events && whole[..0] == [];
    CursorPosition(v, events);
  }

  /** A search whose answer later events never change. */
  ghost predicate Stable(find: seq<SignedEvent> -> Option<seq<Digest>>) {
    forall xs, ys | xs <= ys && find(xs).Some? :: find(ys) == find(xs)
  }

  /** What the loop knows before its `call`-th poll of an honest bridge. */
  ghost predicate Gathered(
    journal: nat -> seq<SignedEvent>, initial: seq<SignedEvent>,
    call: nat, evidence: seq<SignedEvent>, cursor: Option<Cursor>, answered: nat)
  {
    && evidence <= journal(call) && cursor == CursorAfter(None, evidence)
    && (|evidence| >= |journal(0)| || |evidence| >= |initial| + POLL_LIMIT * answered)
  }

  lemma {:induction false} GatheredFacts(
    v: Verifier, wire: Wire, campaign: Guid, poller: Poller, journal: nat -> seq<SignedEvent>,
    initial: seq<SignedEvent>, call: nat, evidence: seq<SignedEvent>, cursor: Option<Cursor>, answered: nat)
    requires HonestPolls(v, wire, campaign, poller, journal) && Gathered(journal, initial, call, evidence, cursor, answered)
    ensures PassesLive(v, evidence) && NextSequence(cursor) == |evidence| + 1
    ensures journal(call) <= journal(call + 1) && journal(0) <= journal(call)
    ensures SortBySequence(evidence) == evidence
  {
    assert HonestJournal(v, campaign, journal(call));
    PrefixSorted(v, evidence, journal(call));
    assert journal(call) <= journal(call + 1) && journal(0) <= journal(call);
    forall i | 0 <= i < |evidence| ensures evidence[i].claims.sequenceNo == i + 1 { PassedSequence(v, evidence, i); }
    SortedIsFixed(evidence);
  }

  /** A page that is not too large takes the loop to the next poll. */
  lemma {:induction false} GatheredGrows(
    v: Verifier, wire: Wire, campaign: Guid, poller: Poller, journal: nat -> seq<SignedEvent>,
    initial: seq<SignedEvent>, call: nat, evidence: seq<SignedEvent>, cursor: Option<Cursor>, answered: nat)
    requires HonestPolls(v, wire, campaign, poller, journal) && Gathered(journal, initial, call, evidence, cursor, answered)
    requires poller(call, |evidence|).Body?
    ensures SizeAllowed(poller(call, |evidence|).bytes) <==> PollFits(wire, journal, call, |evidence|)
    ensures var page := poller(call, |evidence|).page;
      var grown := PutAll(evidence, page.events);
      && PageOutcome(v, page, cursor).None? && Eligible(campaign, page)
      && Gathered(journal, initial, call + 1, grown,
           if page.events == [] then cursor else CursorAfter(None, page.events), answered + 1)
      && SortBySequence(grown) == grown
  {
    GatheredFacts(v, wire, campaign, poller, journal, initial, call, evidence, cursor, answered);
    HonestPoll(v, wire, campaign, poller, journal, call, evidence);
  }

  /** One poll: unavailable, refused, or taken into the buffer. */
  method Poll(
    v: Verifier, campaign: Guid, poller: Poller, call: nat, evidence: seq<SignedEvent>, cursor: Option<Cursor>,
    ghost wire: Wire, ghost journal: nat -> seq<SignedEvent>, ghost initial: seq<SignedEvent>, ghost answered: nat)
    returns (r: Result<bool, CollectError>, grown: seq<SignedEvent>, next: Option<Cursor>)
    ensures r.Success? && !r.value ==> grown == evidence && next == cursor && exists after: nat :: poller(call, after).Unavailable?
    ensures r.Failure? ==> r.error.PollFailed? || r.error.PollIneligible?
    ensures HonestPolls(v, wire, campaign, poller, journal) &&
            Gathered(journal, initial, call, evidence, cursor, answered) ==>
      && (r.Success? ==>
           && Gathered(journal, initial, call + 1, grown, next, if r.value then answered + 1 else answered)
           && SortBySequence(grown) == grown)
      && (r.Failure? ==>
           && r.error == PollFailed(ResponseInvalid) && grown == evidence
           && !PollFits(wire, journal, call, |evidence|))
      && (r.Success? && r.value ==> PollFits(wire, journal, call, |evidence|))
  {
    grown, next := evidence, cursor;
    ghost var honest :=
      HonestPolls(v, wire, campaign, poller, journal) && Gathered(journal, initial, call, evidence, cursor, answered);
    if honest { GatheredFacts(v, wire, campaign, poller, journal, initial, call, evidence, cursor, answered); }
    var after := if cursor.None? || cursor.value.sequenceNo < 0 then 0 else cursor.value.sequenceNo;
    var response := poller(call, after);
    var answer := ListEvents(v, response, cursor);
    if answer == Failure(BridgeUnavailable) { return Success(false), grown, next; }
    if honest { GatheredGrows(v, wire, campaign, poller, journal, initial, call, evidence, cursor, answered); }
    if answer.Failure? { return Failure(PollFailed(answer.error)), grown, next; }
    if answer.value != [] {
      if !Eligible(campaign, response.page) { return Failure(PollIneligible), grown, next; }
      next := CursorAfter(None, answer.value);
    }
    grown := PutAll(evidence, answer.value);
    r := Success(true);
  }

  /** One of the polls asked for more than a response may carry. */
  ghost predicate SomePollRefused(wire: Wire, journal: nat -> seq<SignedEvent>, polls: nat, after: nat) {
    exists call: nat :: call < polls && !PollFits(wire, journal, call, after)
  }

  /** The bridge is never unavailable. */
  ghost predicate AlwaysAnswers(poller: Poller, polls: nat) {
    forall call: nat, after: nat :: call < polls ==> poller(call, after).Body?
  }

  /** The loop of `collect_controlled`, for any stable search. */
  method PollUntil(
    v: Verifier, campaign: Guid, find: seq<SignedEvent> -> Option<seq<Digest>>,
    initial: seq<SignedEvent>, poller: Poller, polls: nat,
    ghost wire: Wire, ghost journal: nat -> seq<SignedEvent>)
    returns (r: Result<seq<Digest>, CollectError>, evidence: seq<SignedEvent>, answered: nat)
    ensures AlwaysAnswers(poller, polls) && r == Failure(EvidenceTimeout) ==> answered == polls
    ensures HonestPolls(v, wire, campaign, poller, journal) && initial <= journal(0) && Stable(find) ==>
      && evidence <= journal(polls)
      && (r.Success? ==> find(journal(polls)) == Some(r.value))
      && (r.Failure? ==> r.error == EvidenceTimeout || r.error == PollFailed(ResponseInvalid))
      && (r == Failure(PollFailed(ResponseInvalid)) ==> SomePollRefused(wire, journal, polls, |evidence|))
      && (r.Failure? && answered > 0 ==> find(evidence).None?)
      && (r == Failure(EvidenceTimeout) && answered > 0 && |initial| + POLL_LIMIT * answered >= |journal(0)| ==> find(journal(0)).None?)
  {
    evidence, answered := initial, 0;
    ghost var honest := HonestPolls(v, wire, campaign, poller, journal) && initial <= journal(0) && Stable(find);
    var cursor := CursorAfter(None, initial);
    for call := 0 to polls
      invariant honest ==> Gathered(journal, initial, call, evidence, cursor, answered)
      invariant honest && answered > 0 ==> find(evidence).None?
      invariant AlwaysAnswers(poller, polls) ==> answered == call
    {
      var polled, grown, next := Poll(v, campaign, poller, call, evidence, cursor, wire, journal, initial, answered);
      if polled.Failure? {
        if honest { assert journal(call) <= journal(polls); }
        r := Failure(polled.error);
        return;
      }
      if polled.value {
        evidence, cursor, answered := grown, next, answered + 1;
        var found := find(SortBySequence(evidence));
        if found.Some? {
          if honest { assert journal(call + 1) <= journal(polls); }
          r := Success(found.value);
          return;
        }
      }
    }
    if honest && |evidence| >= |journal(0)| {
      assert journal(0) <= journal(polls);
      assert journal(0) <= evidence;
    }
    r := Failure(EvidenceTimeout);
  }

  /** Whatever the timing and the chunking of the polls, a collection that ends
      in a submission submits what one search of the whole journal would; one
      that times out after reading as far as the journal it started on proves
      that this journal held no fragment.  It fails otherwise only because a
      page was too large, which ends it instead of being polled again. */
  method CollectControlled(
    v: Verifier, run: ScenarioRun, initial: seq<SignedEvent>, poller: Poller, polls: nat,
    ghost wire: Wire, ghost journal: nat -> seq<SignedEvent>)
    returns (r: Result<seq<Digest>, CollectError>, evidence: seq<SignedEvent>, answered: nat)
    ensures ScenarioOf(run.action) != Some(run.scenario) ==> r == Failure(RunInvalid)
    ensures AlwaysAnswers(poller, polls) && r == Failure(EvidenceTimeout) ==> answered == polls
    ensures ScenarioOf(run.action) == Some(run.scenario) &&
            HonestPolls(v, wire, run.campaign, poller, journal) && initial <= journal(0) ==>
      && evidence <= journal(polls)
      && (r.Success? ==>
           && Submission(run, journal(polls)) == Some(r.value)
           && Fragment(run, journal(polls)).Some?
           && var span := Fragment(run, journal(polls)).value;
              SubmitsEvents(run.receipt.eventHash, journal(polls), span.first, span.last, r.value))
      && (r.Failure? ==> r.error == EvidenceTimeout || r.error == PollFailed(ResponseInvalid))
      && (r == Failure(PollFailed(ResponseInvalid)) ==> SomePollRefused(wire, journal, polls, |evidence|))
      && (r.Failure? && answered > 0 ==> Submission(run, evidence).None?)
      && (r == Failure(EvidenceTimeout) && answered > 0 && |initial| + 512 * answered >= |journal(0)| ==>
            Submission(run, journal(0)).None?)
  {
    if ScenarioOf(run.action) != Some(run.scenario) {
      return Failure(RunInvalid), initial, 0;
    }
    var find := (events: seq<SignedEvent>) => Submission(run, events);
    SearchIsStable(run, find);
    r, evidence, answered := PollUntil(v, run.campaign, find, initial, poller, polls, wire, journal);
    SubmissionIsEvidence(run, journal(polls));
  }

  lemma {:induction false} SearchIsStable(run: ScenarioRun, find: seq<SignedEvent> -> Option<seq<Digest>>)
    requires forall events :: find(events) == Submission(run, events)
    ensures Stable(find)
  {
    forall xs, ys | xs <= ys && find(xs).Some? ensures find(ys) == find(xs) {
      SubmissionStable(run, xs, ys);
    }
  }
}

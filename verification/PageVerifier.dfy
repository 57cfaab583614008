/**
 `BridgeEvidenceVerifier`: the Python side re-checks signature, projection,
 semantics and hash chain of every served page, starting from a cursor.
 */
module PageVerifier {
  import opened Wrappers
  import opened EvidenceModel
  import opened EventSemantics

  datatype Cursor = Cursor(sequenceNo: int, eventHash: Digest)

  datatype Page = Page(environment: Environment, fingerprint: Digest, events: seq<SignedEvent>)

  datatype PageError = PageInvalid | EnvironmentInvalid | CursorInvalid | EventRejected | ChainInvalid

  const MAXIMUM_PAGE_EVENTS: nat := 4096

  predicate EnvironmentAllowed(e: Environment) { e == LiveT4 || e == T4Simulator }

  /** `_verify_event` and `_validated_event`. */
  predicate EventValid(crypto: Crypto, item: SignedEvent) {
    var c := item.claims;
    && item.algorithm == EcdsaP256Sha256Der && item.fingerprint == crypto.fingerprint
    && 0 < |item.canonical| <= MAXIMUM_EVENT_BYTES && 0 < |item.signature| <= 256
    && crypto.sha(item.canonical) == item.eventHash
    && crypto.signatureValid(item.eventHash, item.signature)
    && crypto.decodeClaims(item.canonical) == Some(c)
    && c.schemaVersion == 1 && c.sequenceNo >= 1
    && EnvironmentAllowed(c.environment)
    && c.bridgeSchemaVersion == 5 && c.readOnly && !c.orderRoutesExposed
    && crypto.sha(crypto.encodePayload(c.body.payload)) == c.payloadHash
    && Conforms(c.body)
  }

  /** The verifier object: its pinned key and what it accepts as one event. */
  datatype Verifier = Verifier(fingerprint: Digest, accepts: SignedEvent -> bool)

  function VerifierOf(crypto: Crypto): Verifier {
    Verifier(crypto.fingerprint, item => EventValid(crypto, item))
  }

  function CheckEvents(
    v: Verifier, environment: Environment, events: seq<SignedEvent>,
    expected: int, previous: Option<Digest>): Option<PageError>
  {
    if events == [] then None
    else if !v.accepts(events[0]) then Some(EventRejected)
    else if events[0].claims.environment != environment || events[0].claims.sequenceNo != expected ||
            events[0].claims.previousHash != previous then Some(ChainInvalid)
    else CheckEvents(v, environment, events[1..], expected + 1, Some(events[0].eventHash))
  }

  function NextSequence(cursor: Option<Cursor>): int {
    if cursor.None? then 1 else cursor.value.sequenceNo + 1
  }

  function PreviousHash(cursor: Option<Cursor>): Option<Digest> {
    if cursor.None? then None else Some(cursor.value.eventHash)
  }

  /** What `verify_page` decides about a page. */
  function PageOutcome(v: Verifier, page: Page, cursor: Option<Cursor>): Option<PageError> {
    if page.fingerprint != v.fingerprint then Some(PageInvalid)
    else if !EnvironmentAllowed(page.environment) then Some(EnvironmentInvalid)
    else if |page.events| > MAXIMUM_PAGE_EVENTS then Some(PageInvalid)
    else if cursor.Some? && cursor.value.sequenceNo <= 0 then Some(CursorInvalid)
    else CheckEvents(v, page.environment, page.events, NextSequence(cursor), PreviousHash(cursor))
  }

  /** One event where it stands: valid, of the page's environment, with the next
      number, pointing to the one before. */
  predicate EventFits(
    v: Verifier, environment: Environment, events: seq<SignedEvent>, expected: int, previous: Option<Digest>, i: nat)
    requires i < |events|
  {
    && v.accepts(events[i]) && events[i].claims.environment == environment
    && events[i].claims.sequenceNo == expected + i
    && events[i].claims.previousHash == if i == 0 then previous else Some(events[i - 1].eventHash)
  }

  lemma {:induction false} FitsRest(
    v: Verifier, environment: Environment, events: seq<SignedEvent>, expected: int, previous: Option<Digest>, i: nat)
    requires 0 < i < |events|
    ensures EventFits(v, environment, events, expected, previous, i) <==>
            EventFits(v, environment, events[1..], expected + 1, Some(events[0].eventHash), i - 1)
  {
  }

  /** The loop accepts exactly the events that all fit where they stand. */
  lemma {:induction false} CheckedExactly(
    v: Verifier, environment: Environment, events: seq<SignedEvent>, expected: int, previous: Option<Digest>)
    ensures CheckEvents(v, environment, events, expected, previous).None? <==>
            forall i: nat | i < |events| :: EventFits(v, environment, events, expected, previous, i)
    decreases |events|
  {
    if events != [] {
      var rest, number, next := events[1..], expected + 1, Some(events[0].eventHash);
      CheckedExactly(v, environment, rest, number, next);
      forall i: nat | 0 < i < |events|
        ensures EventFits(v, environment, events, expected, previous, i) <==>
                EventFits(v, environment, rest, number, next, i - 1)
      {
        FitsRest(v, environment, events, expected, previous, i);
      }
      if forall i: nat | i < |events| :: EventFits(v, environment, events, expected, previous, i) {
        forall i: nat | i < |rest| ensures EventFits(v, environment, rest, number, next, i) {
          assert EventFits(v, environment, events, expected, previous, i + 1);
        }
        assert EventFits(v, environment, events, expected, previous, 0);
      }
    }
  }

  method VerifyPage(v: Verifier, page: Page, cursor: Option<Cursor>) returns (r: Result<seq<SignedEvent>, PageError>)
    ensures r.Success? <==> PageOutcome(v, page, cursor).None?
    ensures r.Success? ==> r.value == page.events
    ensures r.Failure? ==> PageOutcome(v, page, cursor) == Some(r.error)
    ensures r.Success? <==>
      && page.fingerprint == v.fingerprint && page.environment in {LiveT4, T4Simulator} && |page.events| <= 4096
      && (cursor.Some? ==> cursor.value.sequenceNo >= 1)
      && var expected := if cursor.Some? then cursor.value.sequenceNo + 1 else 1;
         var previous := if cursor.Some? then Some(cursor.value.eventHash) else None;
         forall i: nat | i < |page.events| :: EventFits(v, page.environment, page.events, expected, previous, i)
  {
    CheckedExactly(v, page.environment, page.events, NextSequence(cursor), PreviousHash(cursor));
    if page.fingerprint != v.fingerprint { return Failure(PageInvalid); }
    if !EnvironmentAllowed(page.environment) { return Failure(EnvironmentInvalid); }
    if |page.events| > MAXIMUM_PAGE_EVENTS { return Failure(PageInvalid); }
    if cursor.Some? && cursor.value.sequenceNo <= 0 { return Failure(CursorInvalid); }
    var events: seq<SignedEvent> := [];
    var expected := if cursor.None? then 1 else cursor.value.sequenceNo + 1;
    var previous := if cursor.None? then None else Some(cursor.value.eventHash);
    for i := 0 to |page.events|
      invariant events == page.events[..i]
      invariant CheckEvents(v, page.environment, page.events[i..], expected, previous) ==
                PageOutcome(v, page, cursor)
    {
      var item := page.events[i];
      assert page.events[i..][1..] == page.events[i + 1..];
      if !v.accepts(item) { return Failure(EventRejected); }
      if item.claims.environment != page.environment || item.claims.sequenceNo != expected ||
         item.claims.previousHash != previous
      {
        return Failure(ChainInvalid);
      }
      events := events + [item];
      expected := expected + 1;
      previous := Some(item.eventHash);
    }
    return Success(events);
  }

  function CursorAfter(cursor: Option<Cursor>, events: seq<SignedEvent>): Option<Cursor> {
    if events == [] then cursor
    else
      var last := events[|events| - 1];
      Some(Cursor(last.claims.sequenceNo, last.eventHash))
  }

  /** One pass over two pages accepts exactly when each passes from where the
      other stops. */
  lemma {:induction false} SplitPass(
    v: Verifier, environment: Environment, xs: seq<SignedEvent>, ys: seq<SignedEvent>, cursor: Option<Cursor>)
    ensures
      CheckEvents(v, environment, xs + ys, NextSequence(cursor), PreviousHash(cursor)).None? <==>
        && CheckEvents(v, environment, xs, NextSequence(cursor), PreviousHash(cursor)).None?
        && var c := CursorAfter(cursor, xs);
           CheckEvents(v, environment, ys, NextSequence(c), PreviousHash(c)).None?
    decreases |xs|
  {
    if xs == [] {
      assert xs + ys == ys;
    } else {
      assert (xs + ys)[1..] == xs[1..] + ys;
      var head := Some(Cursor(xs[0].claims.sequenceNo, xs[0].eventHash));
      assert CursorAfter(head, xs[1..]) == CursorAfter(cursor, xs);
      SplitPass(v, environment, xs[1..], ys, head);
    }
  }

  function Concat(pages: seq<seq<SignedEvent>>): seq<SignedEvent> {
    if pages == [] then [] else Concat(pages[..|pages| - 1]) + pages[|pages| - 1]
  }

  /** Each page verified from the cursor the pages before it leave. */
  predicate PagesPass(v: Verifier, environment: Environment, pages: seq<seq<SignedEvent>>) {
    pages == [] ||
    (var front, last := pages[..|pages| - 1], pages[|pages| - 1];
     && PagesPass(v, environment, front)
     && PageOutcome(v, Page(environment, v.fingerprint, last), CursorAfter(None, Concat(front))).None?)
  }

  lemma {:induction false} AcceptedSequences(
    v: Verifier, environment: Environment, events: seq<SignedEvent>, expected: int, previous: Option<Digest>, i: nat)
    requires CheckEvents(v, environment, events, expected, previous).None? && i < |events|
    ensures v.accepts(events[i]) && events[i].claims.environment == environment
    ensures events[i].claims.sequenceNo == expected + i
    ensures events[i].claims.previousHash == if i == 0 then previous else Some(events[i - 1].eventHash)
    decreases i
  {
    if i > 0 {
      AcceptedSequences(v, environment, events[1..], expected + 1, Some(events[0].eventHash), i - 1);
    }
  }

  /** Page-by-page verification accepts exactly when one pass over the
      concatenation does, however the journal is cut into pages. */
  lemma {:induction false} PagewiseIsOnePass(v: Verifier, environment: Environment, pages: seq<seq<SignedEvent>>)
    requires EnvironmentAllowed(environment)
    requires forall i | 0 <= i < |pages| :: |pages[i]| <= MAXIMUM_PAGE_EVENTS
    ensures PagesPass(v, environment, pages) <==>
            CheckEvents(v, environment, Concat(pages), 1, None).None?
    decreases |pages|
  {
    if pages != [] {
      var front, last := pages[..|pages| - 1], pages[|pages| - 1];
      PagewiseIsOnePass(v, environment, front);
      SplitPass(v, environment, Concat(front), last, None);
      if CheckEvents(v, environment, Concat(front), 1, None).None? && Concat(front) != [] {
        AcceptedSequences(v, environment, Concat(front), 1, None, |Concat(front)| - 1);
      }
    }
  }

  ghost predicate SomeCollision(crypto: Crypto, xs: seq<SignedEvent>, ys: seq<SignedEvent>) {
    exists i, j | 0 <= i < |xs| && 0 <= j < |ys| :: Collides(crypto, xs[i].canonical, ys[j].canonical)
  }

  /** Dropping the last event keeps the chain, and the rest ends where the
      dropped event points. */
  lemma {:induction false} FrontPasses(v: Verifier, environment: Environment, xs: seq<SignedEvent>)
    requires xs != [] && CheckEvents(v, environment, xs, 1, None).None?
    ensures var front, last := xs[..|xs| - 1], xs[|xs| - 1];
      && CheckEvents(v, environment, front, 1, None).None? && v.accepts(last)
      && last.claims.sequenceNo == |xs| && PreviousHash(CursorAfter(None, front)) == last.claims.previousHash
      && NextSequence(CursorAfter(None, front)) == |xs|
  {
    var front, last := xs[..|xs| - 1], xs[|xs| - 1];
    assert xs == front + [last];
    SplitPass(v, environment, front, [last], None);
    AcceptedSequences(v, environment, xs, 1, None, |xs| - 1);
    if front != [] { AcceptedSequences(v, environment, front, 1, None, |front| - 1); }
  }

  /** The same event but for its signature. */
  predicate SameButSignature(x: SignedEvent, y: SignedEvent) { x == y.(signature := x.signature) }

  predicate AllSameButSignature(xs: seq<SignedEvent>, ys: seq<SignedEvent>) {
    |xs| == |ys| && forall i | 0 <= i < |xs| :: SameButSignature(xs[i], ys[i])
  }

  /** What a verifier accepts under one hash differs in the signature only, or
      is a collision. */
  ghost predicate HashBinds(v: Verifier, crypto: Crypto) {
    forall x, y | v.accepts(x) && v.accepts(y) && x.eventHash == y.eventHash ::
      SameButSignature(x, y) || Collides(crypto, x.canonical, y.canonical)
  }

  lemma {:induction false} VerifierBinds(crypto: Crypto)
    ensures HashBinds(VerifierOf(crypto), crypto)
  {
  }

  lemma {:induction false} PinStep(crypto: Crypto, xs: seq<SignedEvent>, ys: seq<SignedEvent>)
    requires |xs| == |ys| > 0
    requires var n := |xs| - 1;
      || Collides(crypto, xs[n].canonical, ys[n].canonical)
      || (SameButSignature(xs[n], ys[n]) &&
          (SomeCollision(crypto, xs[..n], ys[..n]) || AllSameButSignature(xs[..n], ys[..n])))
    ensures SomeCollision(crypto, xs, ys) || AllSameButSignature(xs, ys)
  {
    var n := |xs| - 1;
    if AllSameButSignature(xs[..n], ys[..n]) && SameButSignature(xs[n], ys[n]) {
      forall i | 0 <= i < |xs| ensures SameButSignature(xs[i], ys[i]) {
        if i < n { assert SameButSignature(xs[..n][i], ys[..n][i]); }
      }
    }
  }

  lemma {:induction false} HeadPins(
    v: Verifier, crypto: Crypto, environment: Environment, xs: seq<SignedEvent>, ys: seq<SignedEvent>)
    requires HashBinds(v, crypto)
    requires CheckEvents(v, environment, xs, 1, None).None? && CheckEvents(v, environment, ys, 1, None).None?
    requires CursorAfter(None, xs) == CursorAfter(None, ys)
    ensures |xs| == |ys|
    ensures SomeCollision(crypto, xs, ys) || AllSameButSignature(xs, ys)
    decreases |xs|
  {
    if xs != [] && ys != [] {
      var n := |xs| - 1;
      FrontPasses(v, environment, xs);
      FrontPasses(v, environment, ys);
      if !Collides(crypto, xs[n].canonical, ys[n].canonical) {
        HeadPins(v, crypto, environment, xs[..n], ys[..n]);
      }
      PinStep(crypto, xs, ys);
    } else {
      assert xs == [] && ys == [];
    }
  }

  /** The head pins the history but for the signatures: two accepted journals
      with the same head number and hash agree in every other field of every
      event, or exhibit a SHA-256 collision; without one they are identical
      exactly when their signatures are. */
  lemma {:induction false} HeadDeterminesHistory(
    crypto: Crypto, environment: Environment, xs: seq<SignedEvent>, ys: seq<SignedEvent>)
    requires CheckEvents(VerifierOf(crypto), environment, xs, 1, None).None?
    requires CheckEvents(VerifierOf(crypto), environment, ys, 1, None).None?
    requires CursorAfter(None, xs) == CursorAfter(None, ys)
    ensures |xs| == |ys|
    ensures SomeCollision(crypto, xs, ys) || AllSameButSignature(xs, ys)
    ensures !SomeCollision(crypto, xs, ys) ==>
      (xs == ys <==> forall i | 0 <= i < |xs| :: xs[i].signature == ys[i].signature)
  {
    VerifierBinds(crypto);
    HeadPins(VerifierOf(crypto), crypto, environment, xs, ys);
    if !SomeCollision(crypto, xs, ys) && forall i | 0 <= i < |xs| :: xs[i].signature == ys[i].signature {
      forall i | 0 <= i < |xs| ensures xs[i] == ys[i] { assert SameButSignature(xs[i], ys[i]); }
    }
  }

  /** One event that continues a journal, checked on its own. */
  predicate Continues(v: Verifier, environment: Environment, events: seq<SignedEvent>, item: SignedEvent) {
    && v.accepts(item) && item.claims.environment == environment
    && item.claims.sequenceNo == |events| + 1 && item.claims.previousHash == LastHash(events)
  }

  lemma {:induction false} PassAppend(
    v: Verifier, environment: Environment, events: seq<SignedEvent>, item: SignedEvent)
    requires CheckEvents(v, environment, events, 1, None).None? && Continues(v, environment, events, item)
    ensures CheckEvents(v, environment, events + [item], 1, None).None?
  {
    if events != [] { AcceptedSequences(v, environment, events, 1, None, |events| - 1); }
    SplitPass(v, environment, events, [item], None);
    assert [item][1..] == [];
  }

  lemma {:induction false} StepsPass(v: Verifier, environment: Environment, events: seq<SignedEvent>)
    requires forall i | 0 <= i < |events| :: Continues(v, environment, events[..i], events[i])
    ensures CheckEvents(v, environment, events, 1, None).None?
    decreases |events|
  {
    if events != [] {
      var n := |events| - 1;
      var front := events[..n];
      forall i | 0 <= i < n ensures Continues(v, environment, front[..i], front[i]) { assert front[..i] == events[..i]; }
      StepsPass(v, environment, front);
      PassAppend(v, environment, front, events[n]);
      assert events == front + [events[n]];
    }
  }

  function Resigned(events: seq<SignedEvent>, i: nat, signature: Bytes): seq<SignedEvent>
    requires i < |events|
  {
    events[i := events[i].(signature := signature)]
  }

  lemma {:induction false} ResignedContinues(
    v: Verifier, environment: Environment, events: seq<SignedEvent>, i: nat, signature: Bytes, n: nat)
    requires CheckEvents(v, environment, events, 1, None).None? && i < |events| && n < |events|
    requires v.accepts(events[i].(signature := signature))
    ensures var others := Resigned(events, i, signature); Continues(v, environment, others[..n], others[n])
  {
    var others := Resigned(events, i, signature);
    AcceptedSequences(v, environment, events, 1, None, n);
    assert n > 0 ==> others[..n][n - 1] == others[n - 1];
  }

  /** Any event can be given another valid signature: the journal stays accepted
      and its head the same. */
  lemma {:induction false} SignaturesAreFree(
    crypto: Crypto, environment: Environment, events: seq<SignedEvent>, i: nat, signature: Bytes)
    requires CheckEvents(VerifierOf(crypto), environment, events, 1, None).None? && i < |events|
    requires crypto.signatureValid(events[i].eventHash, signature) && 0 < |signature| <= 256
    ensures var others := Resigned(events, i, signature);
      && CheckEvents(VerifierOf(crypto), environment, others, 1, None).None?
      && CursorAfter(None, others) == CursorAfter(None, events)
      && (others == events <==> signature == events[i].signature)
  {
    var v, others := VerifierOf(crypto), Resigned(events, i, signature);
    AcceptedSequences(v, environment, events, 1, None, i);
    forall n | 0 <= n < |others| ensures Continues(v, environment, others[..n], others[n]) {
      ResignedContinues(v, environment, events, i, signature, n);
    }
    StepsPass(v, environment, others);
    if signature == events[i].signature { assert others == events; }
  }

  /** The failing input: where two nonces give two signatures of an event's
      hash, there are two accepted journals with one head. */
  lemma {:induction false} OneHeadTwoJournals(
    crypto: Crypto, environment: Environment, events: seq<SignedEvent>, i: nat, first: nat, second: nat)
    requires crypto.Sound()
    requires CheckEvents(VerifierOf(crypto), environment, events, 1, None).None? && i < |events|
    requires crypto.sign(events[i].eventHash, first) != crypto.sign(events[i].eventHash, second)
    ensures exists others ::
      && CheckEvents(VerifierOf(crypto), environment, others, 1, None).None?
      && CursorAfter(None, others) == CursorAfter(None, events) && others != events
  {
    var nonce := if crypto.sign(events[i].eventHash, first) == events[i].signature then second else first;
    SignaturesAreFree(crypto, environment, events, i, crypto.sign(events[i].eventHash, nonce));
    assert Resigned(events, i, crypto.sign(events[i].eventHash, nonce)) != events;
  }

  lemma {:induction false} BridgeEventPasses(config: BridgeConfig, events: seq<SignedEvent>, item: SignedEvent)
    requires config.crypto.Sound() && AcceptNext(config, events, item)
    requires EnvironmentAllowed(config.environment) && Conforms(item.claims.body)
    ensures Continues(VerifierOf(config.crypto), config.environment, events, item)
  {
  }

  /** Every journal the bridge itself would load again passes the verifier,
      provided its bodies conform and its environment is a real one. */
  lemma {:induction false} BridgeJournalPasses(config: BridgeConfig, events: seq<SignedEvent>)
    requires config.crypto.Sound() && Accepted(config, events)
    requires EnvironmentAllowed(config.environment)
    requires forall i | 0 <= i < |events| :: Conforms(events[i].claims.body)
    ensures CheckEvents(VerifierOf(config.crypto), config.environment, events, 1, None).None?
  {
    forall i | 0 <= i < |events|
      ensures Continues(VerifierOf(config.crypto), config.environment, events[..i], events[i])
    {
      BridgeEventPasses(config, events[..i], events[i]);
    }
    StepsPass(VerifierOf(config.crypto), config.environment, events);
  }

  // ----- authenticity -----

  /** Some event of the bridge's journal has this hash. */
  ghost predicate WasSigned(bridge: seq<SignedEvent>, hash: Digest) {
    exists k | 0 <= k < |bridge| :: bridge[k].eventHash == hash
  }

  /** No signature among these events was made by anybody but the bridge, which
      signs the hashes of its journal and nothing else. */
  ghost predicate NoForgery(crypto: Crypto, events: seq<SignedEvent>, bridge: seq<SignedEvent>) {
    forall i | 0 <= i < |events| ::
      crypto.signatureValid(events[i].eventHash, events[i].signature) ==> WasSigned(bridge, events[i].eventHash)
  }

  /** The number an event claims is where the bridge has it. */
  lemma {:induction false} SameClaims(config: BridgeConfig, x: SignedEvent, bridge: seq<SignedEvent>, k: nat)
    requires Accepted(config, bridge) && k < |bridge| && EventValid(config.crypto, x)
    requires x.eventHash == bridge[k].eventHash && !Collides(config.crypto, x.canonical, bridge[k].canonical)
    ensures x.claims == bridge[k].claims && x.claims.sequenceNo == k + 1
  {
    var y := bridge[k];
    assert AcceptNext(config, bridge[..k], y);
    assert Verify(config, y);
  }

  lemma {:induction false} AuthenticAt(
    config: BridgeConfig, environment: Environment, events: seq<SignedEvent>, bridge: seq<SignedEvent>, i: nat)
    requires CheckEvents(VerifierOf(config.crypto), environment, events, 1, None).None? && i < |events|
    requires Accepted(config, bridge) && NoForgery(config.crypto, events, bridge)
    requires !SomeCollision(config.crypto, events, bridge)
    ensures i < |bridge| && events[i].claims == bridge[i].claims
  {
    AcceptedSequences(VerifierOf(config.crypto), environment, events, 1, None, i);
    var x := events[i];
    assert EventValid(config.crypto, x);
    assert WasSigned(bridge, x.eventHash);
    var k :| 0 <= k < |bridge| && bridge[k].eventHash == x.eventHash;
    SameClaims(config, x, bridge, k);
  }

  /** The same claims, event by event, as a prefix of the journal. */
  predicate ClaimsOfPrefix(events: seq<SignedEvent>, journal: seq<SignedEvent>) {
    |events| <= |journal| && forall i: nat | i < |events| :: events[i].claims == journal[i].claims
  }

  /** Whoever answers, an accepted journal is a prefix of the bridge's own in
      every signed field, or exhibits a SHA-256 collision. */
  lemma {:induction false} AcceptedIsAuthentic(
    config: BridgeConfig, environment: Environment, events: seq<SignedEvent>, bridge: seq<SignedEvent>)
    requires CheckEvents(VerifierOf(config.crypto), environment, events, 1, None).None?
    requires Accepted(config, bridge) && NoForgery(config.crypto, events, bridge)
    ensures SomeCollision(config.crypto, events, bridge) ||
            ClaimsOfPrefix(events, bridge)
  {
    if !SomeCollision(config.crypto, events, bridge) {
      forall i: nat | i < |events| ensures i < |bridge| && events[i].claims == bridge[i].claims {
        AuthenticAt(config, environment, events, bridge, i);
      }
      if events != [] { AuthenticAt(config, environment, events, bridge, |events| - 1); }
    }
  }

  /** What the claims of an accepted event promise, whoever served it: a
      read-only bridge of the expected version and environment, a payload that
      its hash covers, and a body of one of the four admitted forms. */
  lemma {:induction false} AcceptedPromises(
    crypto: Crypto, environment: Environment, events: seq<SignedEvent>, i: nat)
    requires CheckEvents(VerifierOf(crypto), environment, events, 1, None).None? && i < |events|
    ensures var item := events[i];
      var c := item.claims;
      && c.readOnly && !c.orderRoutesExposed && c.schemaVersion == 1 && c.bridgeSchemaVersion == 5
      && c.environment == environment && (environment == LiveT4 || environment == T4Simulator)
      && c.payloadHash == crypto.sha(crypto.encodePayload(c.body.payload))
      && crypto.decodeClaims(item.canonical) == Some(c) && item.eventHash == crypto.sha(item.canonical)
      && crypto.signatureValid(item.eventHash, item.signature) && item.fingerprint == crypto.fingerprint
      && item.algorithm == EcdsaP256Sha256Der && 0 < |item.canonical| <= 65536 && 0 < |item.signature| <= 256
      && CommonForm(c.body) && (PlainForm(c.body) || CheckpointForm(c.body) || RollForm(c.body) || ControlForm(c.body))
  {
    AcceptedSequences(VerifierOf(crypto), environment, events, 1, None, i);
    AdmittedForms(events[i].claims.body);
  }
}

/**
 The verifier service triggers a control at most once: whatever the order of
 serialized begin and complete calls, lost requests, lost responses and bridge
 restarts, the journal never holds two receipts of one request.

 A trigger is assumed to take effect before it returns or never, and only this
 service (one call at a time, under its lock) triggers controls.
 */
module ControlOnce {
  import opened Wrappers
  import opened EvidenceModel
  import opened EventSemantics
  import opened BridgeReader
  import opened TraceSafety
  import opened ScenarioFragment
  import opened JournalPaging
  import opened PageVerifier
  import EvidenceChain
  import EvidenceJournal

  /** The event that both programs take for the receipt of this control. */
  predicate IsReceiptOf(b: EventBody, key: Key) {
    && b.eventType == ControlApplied && b.campaign == Some(key.token.campaign)
    && b.scenario == ScenarioOf(key.action) && b.scenario.Some?
    && b.request == Some(key.token.request) && b.scope == Some(key.token.scope)
    && b.payload.action == Some(key.action) && b.payload.step == Some(Applied)
  }

  function Receipts(trace: seq<EventBody>, key: Key): nat
    decreases |trace|
  {
    if trace == [] then 0
    else Receipts(trace[..|trace| - 1], key) + if IsReceiptOf(trace[|trace| - 1], key) then 1 else 0
  }

  lemma {:induction false} ReceiptsAppend(trace: seq<EventBody>, b: EventBody, key: Key)
    ensures Receipts(trace + [b], key) == Receipts(trace, key) + if IsReceiptOf(b, key) then 1 else 0
  {
  }

  // ----- the service against the bridge -----

  /** Where the one call that holds the service's lock stands. */
  datatype Service =
    | Idle
    | Read(key: Key, journal: seq<EventBody>)  // begin has fetched the last page
    | Decided(key: Key)     // begin found no receipt and will trigger
    | Triggering(key: Key)  // the trigger was sent and has not returned

  datatype System = System(service: Service, bridge: Reader)

  datatype Move =
    | BridgeMoves(op: Op)                  // any thread of the bridge, or its restart
    | Fetch(begun: Key)                    // begin reads the journal of this moment
    | Decide(preflight: bool)              // and decides on what it has read
    | GiveUp                               // the call ends before it triggers
    | Trigger(arrives: bool)               // the request may be lost
    | Return                               // the response arrives or is lost
    | Complete(completed: Key)             // reads only: its path holds no trigger

  function Advance(c: ReaderConfig, y: System, m: Move): System {
    match m
    case BridgeMoves(op) => if op.OBegin? then y else y.(bridge := Step(c, y.bridge, op))
    case Fetch(key) =>
      if y.service == Idle && IsControlAction(key.action) then y.(service := Read(key, y.bridge.trace)) else y
    case Decide(preflight) =>
      if !y.service.Read? then y
      else if Receipts(y.service.journal, y.service.key) == 0 && preflight then y.(service := Decided(y.service.key))
      else y.(service := Idle)
    case GiveUp => if y.service.Read? || y.service.Decided? then y.(service := Idle) else y
    case Trigger(arrives) =>
      if !y.service.Decided? then y
      else
        var key := y.service.key;
        System(Triggering(key), if arrives then Step(c, y.bridge, OBegin(key.action, key.token)) else y.bridge)
    case Return => if y.service.Triggering? && y.bridge.controls.gate == Free then y.(service := Idle) else y
    case Complete(_) => y
  }

  function Moves(c: ReaderConfig, y: System, ms: seq<Move>): System
    decreases |ms|
  {
    if ms == [] then y else Advance(c, Moves(c, y, ms[..|ms| - 1]), ms[|ms| - 1])
  }

  predicate GateMatches(k: Controls, key: Key) {
    k.gate.Applying? && k.gate.action == key.action && k.gate.token == key.token
  }

  /** At most one receipt is written or about to be; what a call has read about
      it is still true, and a call that is going to trigger still finds none. */
  ghost predicate Once(y: System, key: Key) {
    && Receipts(y.bridge.trace, key) + (if GateMatches(y.bridge.controls, key) then 1 else 0) <= 1
    && (y.bridge.controls.gate.Applying? ==>
          y.service.Triggering? && GateMatches(y.bridge.controls, y.service.key)
          && ScenarioOf(y.bridge.controls.gate.action) == Some(y.bridge.controls.gate.scenario))
    && (y.service.Read? && y.service.key == key ==> Receipts(y.service.journal, key) == Receipts(y.bridge.trace, key))
    && (y.service == Decided(key) ==> Receipts(y.bridge.trace, key) == 0)
  }

  /** Only finishing a control writes a receipt. */
  lemma {:induction false} OnlyFinishWrites(c: ReaderConfig, s: Reader, op: Op, key: Key)
    requires !op.OFinish?
    ensures Receipts(Step(c, s, op).trace, key) == Receipts(s.trace, key)
  {
    var t := Step(c, s, op);
    if !IsControlOp(op) {
      UncontrolledStep(c, s, op);
      if t.trace != s.trace {
        assert t.trace == s.trace + [t.trace[|s.trace|]];
        ReceiptsAppend(s.trace, t.trace[|s.trace|], key);
      }
    } else {
      ControlExtends(c, s, op);
      if t.trace != s.trace {
        assert t.trace == s.trace + [t.trace[|s.trace|]];
        ReceiptsAppend(s.trace, t.trace[|s.trace|], key);
        NotAReceipt(c, s, op, key);
      }
    }
  }

  lemma {:induction false} NotAReceipt(c: ReaderConfig, s: Reader, op: Op, key: Key)
    requires IsControlOp(op) && !op.OFinish? && |Step(c, s, op).trace| == |s.trace| + 1
    ensures !IsReceiptOf(Step(c, s, op).trace[|s.trace|], key)
  {
  }

  lemma {:induction false} GateStep(c: ReaderConfig, s: Reader, op: Op)
    requires !op.OBegin?
    ensures var g := Step(c, s, op).controls.gate;
      && (g == Free || s.controls.gate.Applying?)
      && (g.Applying? ==> g == s.controls.gate.(armed := g.armed))
      && (op == OFinish && g.Applying? ==> Step(c, s, op) == s)
  {
  }

  lemma {:induction false} FinishWrites(c: ReaderConfig, s: Reader, key: Key)
    requires s.controls.gate.Applying? ==> ScenarioOf(s.controls.gate.action) == Some(s.controls.gate.scenario)
    ensures var t := Step(c, s, OFinish);
      t == s || (t.controls.gate == Free &&
        Receipts(t.trace, key) == Receipts(s.trace, key) + if GateMatches(s.controls, key) then 1 else 0)
  {
  }

  lemma {:induction false} BridgeKeepsOnce(c: ReaderConfig, y: System, op: Op, key: Key)
    requires Once(y, key) && !op.OBegin?
    ensures Once(Advance(c, y, BridgeMoves(op)), key)
  {
    GateStep(c, y.bridge, op);
    if op == OFinish { FinishWrites(c, y.bridge, key); } else { OnlyFinishWrites(c, y.bridge, op, key); }
  }

  lemma {:induction false} TriggerKeepsOnce(c: ReaderConfig, y: System, key: Key)
    requires Once(y, key) && y.service.Decided?
    ensures Once(Advance(c, y, Trigger(true)), key)
  {
  }

  lemma {:induction false} AdvanceKeepsOnce(c: ReaderConfig, y: System, m: Move, key: Key)
    requires Once(y, key)
    ensures Once(Advance(c, y, m), key)
  {
    match m
    case BridgeMoves(op) => if !op.OBegin? { BridgeKeepsOnce(c, y, op, key); }
    case Trigger(arrives) => if arrives && y.service.Decided? { TriggerKeepsOnce(c, y, key); }
    case Fetch(_) =>
    case Decide(_) =>
    case GiveUp =>
    case Return =>
    case Complete(_) =>
  }

  /** Over every run the journal holds at most one receipt per request, so the
      two collision errors are unreachable. */
  lemma {:induction false} AtMostOneReceipt(c: ReaderConfig, boot: Guid, ms: seq<Move>, key: Key)
    ensures Once(Moves(c, System(Idle, Reboot(c, [], boot)), ms), key)
    ensures Receipts(Moves(c, System(Idle, Reboot(c, [], boot)), ms).bridge.trace, key) <= 1
    decreases |ms|
  {
    var start := System(Idle, Reboot(c, [], boot));
    if ms == [] {
      assert start.bridge.trace[..0] == [];
    } else {
      AtMostOneReceipt(c, boot, ms[..|ms| - 1], key);
      AdvanceKeepsOnce(c, Moves(c, start, ms[..|ms| - 1]), ms[|ms| - 1], key);
    }
  }

  /** Without a preflight nothing is triggered: a run in which none succeeds
      leaves no receipt of anything. */
  lemma {:induction false} NoPreflightNoTrigger(c: ReaderConfig, boot: Guid, ms: seq<Move>, key: Key)
    requires forall n | 0 <= n < |ms| :: ms[n] != Decide(true)
    ensures var y := Moves(c, System(Idle, Reboot(c, [], boot)), ms);
      && (y.service == Idle || y.service.Read?) && y.bridge.controls.gate == Free
      && Receipts(y.bridge.trace, key) == 0
    decreases |ms|
  {
    var start := System(Idle, Reboot(c, [], boot));
    if ms == [] {
      assert start.bridge.trace[..0] == [];
    } else {
      var y, last := Moves(c, start, ms[..|ms| - 1]), ms[|ms| - 1];
      NoPreflightNoTrigger(c, boot, ms[..|ms| - 1], key);
      if last.BridgeMoves? && !last.op.OBegin? {
        GateStep(c, y.bridge, last.op);
        if last.op == OFinish { FinishWrites(c, y.bridge, key); } else { OnlyFinishWrites(c, y.bridge, last.op, key); }
      }
    }
  }

  lemma {:induction false} MovesTwo(c: ReaderConfig, y: System, a: Move, b: Move)
    ensures Moves(c, y, [a, b]) == Advance(c, Advance(c, y, a), b)
  {
    assert [a, b][..1] == [a] && [a][..0] == [];
    assert Moves(c, y, [a]) == Advance(c, y, a);
  }

  lemma {:induction false} MovesAppend(c: ReaderConfig, y: System, ms: seq<Move>, more: seq<Move>)
    ensures Moves(c, y, ms + more) == Moves(c, Moves(c, y, ms), more)
    decreases |more|
  {
    if more == [] {
      assert ms + more == ms;
    } else {
      assert (ms + more)[..|ms + more| - 1] == ms + more[..|more| - 1];
      MovesAppend(c, y, ms, more[..|more| - 1]);
    }
  }

  /** What a call reads decides it: it goes on to trigger exactly if it found no
      receipt and the preflight passed, and leaves the bridge alone until then. */
  lemma {:induction false} CallDecides(c: ReaderConfig, y: System, key: Key, preflight: bool)
    requires y.service == Idle && IsControlAction(key.action)
    ensures Moves(c, y, [Fetch(key), Decide(preflight)]) ==
            System(if Receipts(y.bridge.trace, key) == 0 && preflight then Decided(key) else Idle, y.bridge)
    ensures Moves(c, y, [Fetch(key), GiveUp]) == y
  {
    MovesTwo(c, y, Fetch(key), Decide(preflight));
    MovesTwo(c, y, Fetch(key), GiveUp);
  }

  lemma {:induction false} TriggerArms(c: ReaderConfig, s: Reader, key: Key)
    requires MayApply(c, s.controls, key.action, key.token)
    ensures var t := Step(c, Step(c, s, OBegin(key.action, key.token)), OEffect);
      && GateMatches(t.controls, key) && Some(t.controls.gate.scenario) == ScenarioOf(key.action)
      && Step(c, t, OFinish).controls.gate == Free && |Step(c, t, OFinish).trace| > |t.trace|
  {
  }

  /** What the bridge does with a trigger that no other thread disturbs. */
  function AppliedBy(c: ReaderConfig, s: Reader, key: Key): Reader {
    Step(c, Step(c, Step(c, s, OBegin(key.action, key.token)), OEffect), OFinish)
  }

  lemma {:induction false} AppliedOnce(c: ReaderConfig, s: Reader, key: Key)
    requires MayApply(c, s.controls, key.action, key.token)
    ensures AppliedBy(c, s, key).controls.gate == Free
    ensures Receipts(AppliedBy(c, s, key).trace, key) == Receipts(s.trace, key) + 1
  {
    var begun := Step(c, s, OBegin(key.action, key.token));
    var armed := Step(c, begun, OEffect);
    TriggerArms(c, s, key);
    OnlyFinishWrites(c, s, OBegin(key.action, key.token), key);
    OnlyFinishWrites(c, begun, OEffect, key);
    FinishWrites(c, armed, key);
  }

  lemma {:induction false} TriggerMoves(c: ReaderConfig, y: System, key: Key)
    requires y.service == Decided(key) && AppliedBy(c, y.bridge, key).controls.gate == Free
    ensures Moves(c, y, [Trigger(true), BridgeMoves(OEffect)] + [BridgeMoves(OFinish), Return]) ==
            System(Idle, AppliedBy(c, y.bridge, key))
  {
    var first, second := [Trigger(true), BridgeMoves(OEffect)], [BridgeMoves(OFinish), Return];
    MovesAppend(c, y, first, second);
    MovesTwo(c, y, Trigger(true), BridgeMoves(OEffect));
    MovesTwo(c, Moves(c, y, first), BridgeMoves(OFinish), Return);
  }

  /** A trigger that arrives at a bridge free to take it leaves exactly one
      receipt more when the call is over; one that is lost leaves none. */
  lemma {:induction false} TriggerLeavesReceipt(c: ReaderConfig, y: System, key: Key)
    requires y.service == Decided(key) && MayApply(c, y.bridge.controls, key.action, key.token)
    ensures var z := Moves(c, y, [Trigger(true), BridgeMoves(OEffect)] + [BridgeMoves(OFinish), Return]);
      z.service == Idle && Receipts(z.bridge.trace, key) == Receipts(y.bridge.trace, key) + 1
    ensures Moves(c, y, [Trigger(false), Return]) == System(Idle, y.bridge)
  {
    MovesTwo(c, y, Trigger(false), Return);
    AppliedOnce(c, y.bridge, key);
    TriggerMoves(c, y, key);
  }

  /** The receipt of a control, field by field. */
  predicate NamesControl(b: EventBody, key: Key) {
    && b.eventType == ControlApplied && IsControlAction(key.action)
    && b.payload.action == Some(key.action) && b.payload.step == Some(Applied)
    && b.scenario == Some(match key.action
                          case Reconnect => ReconnectScenario
                          case MissingData => MissingDataScenario
                          case StaleData => StaleDataScenario
                          case RateLimit => RateLimitScenario
                          case _ => BridgeRestartScenario)
    && b.campaign == Some(key.token.campaign) && b.request == Some(key.token.request) && b.scope == Some(key.token.scope)
  }

  /** The positions of such events. */
  function Named(trace: seq<EventBody>, key: Key): set<nat> { set i: nat | i < |trace| && NamesControl(trace[i], key) }

  lemma {:induction false} NamedGrows(trace: seq<EventBody>, b: EventBody, key: Key)
    ensures |Named(trace + [b], key)| == |Named(trace, key)| + if NamesControl(b, key) then 1 else 0
  {
    var all, n := trace + [b], |trace|;
    assert Named(all, key) == Named(trace, key) + if NamesControl(b, key) then {n} else {};
  }

  lemma {:induction false} ReceiptIsNamed(b: EventBody, key: Key)
    ensures IsReceiptOf(b, key) <==> NamesControl(b, key)
  {
  }

  /** The number of receipts is the number of such events. */
  lemma {:induction false} ReceiptsAreEvents(trace: seq<EventBody>, key: Key)
    ensures Receipts(trace, key) == |Named(trace, key)|
    decreases |trace|
  {
    if trace != [] {
      var front, last := trace[..|trace| - 1], trace[|trace| - 1];
      ReceiptsAreEvents(front, key);
      NamedGrows(front, last, key);
      ReceiptIsNamed(last, key);
      assert trace == front + [last];
    }
  }

  // ----- what one call does with the journal it fetched -----

  datatype ReceiptError = ReceiptMissing | ReceiptCollision

  function Bodies(events: seq<SignedEvent>): (r: seq<EventBody>)
    ensures |r| == |events|
  {
    seq(|events|, i requires 0 <= i < |events| => events[i].claims.body)
  }

  /** `_control_receipt_from_journal`, and the same filter in `start_controlled`:
      none, exactly one, or too many receipts. */
  method ControlReceiptFromJournal(events: seq<SignedEvent>, key: Key) returns (r: Result<ControlReceipt, ReceiptError>)
    ensures r == Failure(ReceiptMissing) <==> Receipts(Bodies(events), key) == 0
    ensures r.Success? <==> Receipts(Bodies(events), key) == 1
    ensures r.Success? ==>
      exists e :: e in events && NamesControl(e.claims.body, key) && r.value == ControlReceipt(e.claims.sequenceNo, e.eventHash)
  {
    var matches: seq<SignedEvent> := [];
    assert Bodies(events)[..0] == [];
    for n := 0 to |events|
      invariant |matches| == Receipts(Bodies(events)[..n], key)
      invariant matches != [] ==> matches[0] in events && IsReceiptOf(matches[0].claims.body, key)
    {
      assert Bodies(events)[..n + 1] == Bodies(events)[..n] + [events[n].claims.body];
      ReceiptsAppend(Bodies(events)[..n], events[n].claims.body, key);
      if IsReceiptOf(events[n].claims.body, key) {
        matches := matches + [events[n]];
      }
    }
    assert Bodies(events)[..|events|] == Bodies(events);
    if matches == [] { return Failure(ReceiptMissing); }
    if |matches| != 1 { return Failure(ReceiptCollision); }
    return Success(ControlReceipt(matches[0].claims.sequenceNo, matches[0].eventHash));
  }

  /** The signed journal that a call fetches holds the receipts of the trace. */
  lemma {:induction false} SignedReceipts(
    config: BridgeConfig, trace: seq<EventBody>, draw: nat -> EvidenceJournal.Draw, key: Key)
    ensures Receipts(Bodies(EvidenceChain.SealAll(config, trace, draw)), key) == Receipts(trace, key)
  {
    var bodies := Bodies(EvidenceChain.SealAll(config, trace, draw));
    forall i | 0 <= i < |trace| ensures bodies[i] == trace[i] { EvidenceChain.SealAllBodies(config, trace, draw, i); }
    assert bodies == trace;
  }

  // ----- the decision of `start_controlled` -----

  datatype StartDecision =
    | ResumeFrom(receipt: ControlReceipt)  // no trigger
    | SendTrigger
    | PreflightRequired
    | ReceiptReused
    | JournalUnavailable(error: SyncError)

  /** Every page of `start_controlled` is as large as the bridge serves it. */
  const START_LIMIT: nat := 1000

  /** The head of `start_controlled`: page the whole journal, then resume or
      trigger.  On an honest bridge the decision is that of the journal at the
      last call, and is never a collision while at most one receipt exists;
      there is none exactly when a page was too large for the client. */
  method StartControlled(
    v: Verifier, key: Key, server: Server, preflight: bool,
    ghost wire: Wire, ghost journal: nat -> seq<SignedEvent>)
    returns (decision: StartDecision, initial: seq<SignedEvent>, calls: nat)
    ensures PassesLive(v, initial)
    ensures !decision.JournalUnavailable? ==>
      && (decision.ResumeFrom? <==> Receipts(Bodies(initial), key) == 1)
      && (decision == SendTrigger <==> Receipts(Bodies(initial), key) == 0 && preflight)
      && (decision == PreflightRequired <==> Receipts(Bodies(initial), key) == 0 && !preflight)
      && (decision == ReceiptReused <==> Receipts(Bodies(initial), key) > 1)
    ensures decision.ResumeFrom? ==>
      exists e :: e in initial && NamesControl(e.claims.body, key) &&
        decision.receipt == ControlReceipt(e.claims.sequenceNo, e.eventHash)
    ensures Honest(v, wire, key.token.campaign, server, journal) ==>
      && calls >= 1 && (forall k: nat | k < calls - 1 :: PageFits(wire, journal, START_LIMIT, k))
      && (decision.JournalUnavailable? <==> !PageFits(wire, journal, START_LIMIT, calls - 1))
      && (decision.JournalUnavailable? ==> decision.error == CallFailed(ResponseInvalid))
      && (!decision.JournalUnavailable? ==> initial == journal(calls - 1))
  {
    var fetched;
    fetched, initial, calls := CollectJournal(v, key.token.campaign, server, START_LIMIT, None, wire, journal);
    if fetched.Failure? {
      decision := JournalUnavailable(fetched.error);
      return;
    }
    var receipt := ControlReceiptFromJournal(initial, key);
    match receipt
    case Success(value) => decision := ResumeFrom(value);
    case Failure(ReceiptCollision) => decision := ReceiptReused;
    case Failure(ReceiptMissing) => decision := if preflight then SendTrigger else PreflightRequired;
  }

  /** Once its first thousand events take 2,000 bytes each in the response, an
      honest bridge can be resumed or triggered through `start_controlled` no
      more: its first page is refused, now and for every longer journal. */
  lemma {:induction false} StartRefusedForEver(wire: Wire, journal: nat -> seq<SignedEvent>, k: nat)
    requires wire.Ok() && START_LIMIT <= |journal(0)| && journal(0) <= journal(k)
    requires forall i | 0 <= i < START_LIMIT :: wire.eventBytes(journal(0)[i]) >= 2000
    ensures !PageFits(wire, journal, START_LIMIT, 0)
    ensures !FitsResponse(wire, EvidenceJournal.PageAfter(journal(k), 0, START_LIMIT))
  {
    ThousandEventsRefused(wire, journal(0), 0);
    RefusalIsForEver(wire, journal(0), journal(k), 0, START_LIMIT);
  }
}

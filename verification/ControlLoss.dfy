/**
 What the end of a process does to a control that was applied and not yet
 consumed: its evidence is lost, for every kind of control.
 */
module ControlLoss {
  import opened Wrappers
  import opened EvidenceModel
  import opened EventSemantics
  import opened BridgeReader
  import opened AtomicHandlers
  import opened ScenarioFragment
  import opened ScenarioCompleteness
  import opened TraceSafety
  import RestartCompleteness

  /** The type of the event that consumes a control. */
  function ConsumerType(action: Action): EventType {
    match action
    case Reconnect => SessionReady
    case Restart => BridgeStopping
    case _ => FaultEventType(FaultReason(action))
  }

  lemma {:induction false} ReconnectNeedsReady(run: ScenarioRun, events: seq<SignedEvent>, r: nat, k: nat)
    requires r < k < |events| && run.scenario == ReconnectScenario
    requires First(events, k + 1, IsConsumption(run, SessionReady, Reconnect)).None?
    ensures ScenarioEnd(run, events, r, k).None?
  {
  }

  lemma {:induction false} RestartNeedsStop(run: ScenarioRun, events: seq<SignedEvent>, r: nat, k: nat)
    requires r < k < |events| && run.scenario == BridgeRestartScenario
    requires First(events, k + 1, IsConsumption(run, BridgeStopping, Restart)).None?
    ensures ScenarioEnd(run, events, r, k).None?
  {
  }

  /** No scenario is proved without an event that consumes its control. */
  lemma {:induction false} EndNeedsConsumer(run: ScenarioRun, events: seq<SignedEvent>, r: nat, k: nat)
    requires r < k < |events| && IsControlAction(run.action) && ScenarioOf(run.action) == Some(run.scenario)
    requires First(events, k + 1, IsConsumption(run, ConsumerType(run.action), run.action)).None?
    ensures ScenarioEnd(run, events, r, k).None?
  {
    if run.action == Reconnect { ReconnectNeedsReady(run, events, r, k); }
    else if run.action == Restart { RestartNeedsStop(run, events, r, k); }
    else { FaultSearch(run, events, r, k); }
  }

  predicate Consumes(b: EventBody, action: Action, token: Token) {
    b.eventType == ConsumerType(action) && Marks(b, Key(action, token), Consumed)
  }

  lemma {:induction false} ConsumerMarks(action: Action, token: Token, receipt: SignedEvent, e: SignedEvent)
    requires IsControlAction(action) && !Consumes(e.claims.body, action, token)
    ensures !Holds(IsConsumption(RunOf(action, token, receipt), ConsumerType(action), action), e)
  {
  }

  lemma {:induction false} RunActs(action: Action, token: Token, receipt: SignedEvent)
    requires IsControlAction(action)
    ensures var run := RunOf(action, token, receipt);
      run.action == action && ScenarioOf(run.action) == Some(run.scenario)
  {
  }

  /** No event from there on consumes the control. */
  ghost predicate NoConsumer(later: seq<EventBody>, from: nat, action: Action, token: Token) {
    forall i | from <= i < |later| :: !Consumes(later[i], action, token)
  }

  lemma {:induction false} NoConsumerNoEnd(
    action: Action, token: Token, receipt: SignedEvent, events: seq<SignedEvent>, later: seq<EventBody>, r: nat, k: nat)
    requires IsControlAction(action) && Carries(events, later) && r < k < |events|
    requires NoConsumer(later, k + 1, action, token)
    ensures ScenarioEnd(RunOf(action, token, receipt), events, r, k).None?
  {
    var run := RunOf(action, token, receipt);
    var consumption := IsConsumption(run, ConsumerType(action), action);
    RunActs(action, token, receipt);
    forall i | k + 1 <= i < |events| ensures !Holds(consumption, events[i]) {
      assert events[i].claims.body == later[i];
      ConsumerMarks(action, token, receipt, events[i]);
    }
    FirstNone(events, k + 1, consumption);
    EndNeedsConsumer(run, events, r, k);
  }

  /** What an applied control leaves pending. */
  lemma {:induction false} AppliedPends(c: ReaderConfig, s: Reader, action: Action, token: Token)
    requires Quiet(s) && MayApply(c, s.controls, action, token)
    ensures var a := Handle(c, s, HApply(action, token));
      && Quiet(a) && !NothingPending(a.controls) && a.trace != []
      && (action == Reconnect ==> a.controls.reconnect.Some?)
      && (action == Restart ==> a.controls.restart.Some?)
      && (IsFaultAction(action) ==> a.controls.fault.Some?)
  {
    AppliedTrace(c, s, action, token);
  }

  /** While it pends, no event can consume it. */
  lemma {:induction false} PendingUnconsumed(k: Controls, action: Action, token: Token, b: EventBody)
    requires IsControlAction(action) && Unconsumed(k, b)
    requires action == Reconnect ==> k.reconnect.Some?
    requires action == Restart ==> k.restart.Some?
    requires IsFaultAction(action) ==> k.fault.Some?
    ensures !Consumes(b, action, token)
  {
  }

  lemma {:induction false} NoConsumerBoth(
    b: seq<EventBody>, later: seq<EventBody>, from: nat, action: Action, token: Token)
    requires b <= later && NoConsumer(b, from, action, token)
    requires forall i | |b| <= i < |later| :: !Marks(later[i], Key(action, token), Consumed)
    ensures NoConsumer(later, from, action, token)
  {
    forall i | from <= i < |later| ensures !Consumes(later[i], action, token) {
      if i < |b| { assert later[i] == b[i]; }
    }
  }

  lemma {:induction false} LifeUnconsumed(
    c: ReaderConfig, s: Reader, action: Action, token: Token, life: seq<Handler>)
    requires Quiet(s) && MayApply(c, s.controls, action, token)
    requires SparesAll(c, Handle(c, s, HApply(action, token)), life)
    ensures var a := Handle(c, s, HApply(action, token));
      var b := After(c, a, life);
      0 < |a.trace| && a.trace <= b.trace && NoConsumer(b.trace, |a.trace|, action, token)
  {
    var a := Handle(c, s, HApply(action, token));
    AppliedPends(c, s, action, token);
    SparedRun(c, a, life);
    var b := After(c, a, life).trace;
    forall i | |a.trace| <= i < |b| ensures !Consumes(b[i], action, token) {
      PendingUnconsumed(a.controls, action, token, b[i]);
    }
  }

  /** A control whose process ended while it was pending is never proved by any
      later journal, over every interleaving of every later boot, unless the
      same request is made again. */
  lemma {:induction false} PendingControlLost(
    c: ReaderConfig, s: Reader, action: Action, token: Token, life: seq<Handler>, boot: Guid, ops: seq<Op>,
    events: seq<SignedEvent>)
    requires Quiet(s) && MayApply(c, s.controls, action, token)
    requires SparesAll(c, Handle(c, s, HApply(action, token)), life) && OBegin(action, token) !in ops
    requires var b := After(c, Handle(c, s, HApply(action, token)), life);
      Carries(events, Reached(c, Reboot(c, b.trace, boot), ops).trace)
    ensures !Proves(c, s, action, token, events)
  {
    var a := Handle(c, s, HApply(action, token));
    var b := After(c, a, life).trace;
    var later := Reached(c, Reboot(c, b, boot), ops).trace;
    LifeUnconsumed(c, s, action, token, life);
    NoneConsumedAfterReboot(c, b, boot, ops, Key(action, token));
    NoConsumerBoth(b, later, |a.trace|, action, token);
    assert a.trace <= later;
    var r, k := ControlFound(c, s, action, token, later, events);
    NoConsumerNoEnd(action, token, events[k], events, later, r, k);
  }

  /** A restart control without an orderly stop is such a case: the process was
      killed before it announced its end, or was already stopping. */
  lemma {:induction false} RestartLostWithoutStop(
    c: ReaderConfig, s: Reader, token: Token, life: seq<Handler>, boot: Guid, ops: seq<Op>, events: seq<SignedEvent>)
    requires Quiet(s) && MayApply(c, s.controls, Restart, token) && NoReboot(life)
    requires !RestartCompleteness.StopsOrderly(s, life) && OBegin(Restart, token) !in ops
    requires var b := After(c, Handle(c, s, HApply(Restart, token)), life);
      Carries(events, Reached(c, Reboot(c, b.trace, boot), ops).trace)
    ensures !Proves(c, s, Restart, token, events)
  {
    RestartCompleteness.RestartPending(c, s, token);
    RestartCompleteness.SparesBeforeStop(c, Handle(c, s, HApply(Restart, token)), life);
    PendingControlLost(c, s, Restart, token, life, boot, ops, events);
  }
}

/**
 Safety of the controlled-scenario trace under every interleaving: on every
 prefix of every journal and for every control, consumed events never exceed
 applied ones, nor applied ones requested ones.
 */
module TraceSafety {
  import opened Wrappers
  import opened EvidenceModel
  import opened EventSemantics
  import opened BridgeReader

  /** One control: what was asked for, by which request, on which scope. */
  datatype Key = Key(action: Action, token: Token)

  predicate Marks(b: EventBody, key: Key, step: ControlStep) {
    && b.payload.action == Some(key.action) && b.payload.step == Some(step)
    && b.campaign == Some(key.token.campaign) && b.request == Some(key.token.request)
    && b.scope == Some(key.token.scope)
  }

  function Count(trace: seq<EventBody>, key: Key, step: ControlStep): nat
    decreases |trace|
  {
    if trace == [] then 0
    else Count(trace[..|trace| - 1], key, step) + if Marks(trace[|trace| - 1], key, step) then 1 else 0
  }

  /** The flight that carries the token of a control to its consumed event. */
  function FlightOf(key: Key): Flight {
    match key.action
    case Reconnect => ReadyTaken(Some(key.token))
    case Restart => StopTaken(Some(key.token))
    case _ =>
      var scenario := if IsControlAction(key.action) then ScenarioOf(key.action).value else ReplayBlocked;
      FaultTaken(FaultFor(key.action, scenario, key.token))
  }

  /** 1 while the token is set and can still be taken. */
  function Pending(k: Controls, key: Key): nat {
    match key.action
    case Reconnect => if k.reconnect == Some(key.token) then 1 else 0
    case Restart => if !k.stopping && k.restart == Some(key.token) then 1 else 0
    case _ => if k.fault.Some? && FaultTaken(k.fault.value) == FlightOf(key) then 1 else 0
  }

  function Holding(k: Controls, key: Key): nat {
    if k.gate.Applying? && k.gate.action == key.action && k.gate.token == key.token then 1 else 0
  }

  function Armed(k: Controls, key: Key): nat {
    if k.gate.Applying? && k.gate.armed then Holding(k, key) else 0
  }

  /** The token account of one control, given its event counts. */
  predicate Tally(k: Controls, key: Key, requested: nat, applied: nat, consumed: nat) {
    && consumed + k.flight[FlightOf(key)] <= applied
    && consumed + k.flight[FlightOf(key)] + Pending(k, key) <= applied + Armed(k, key)
    && applied + Holding(k, key) <= requested
  }

  predicate AtMostOnePending(k: Controls) {
    && (k.fault.None? || k.reconnect.None?)
    && (k.fault.None? || k.restart.None?)
    && (k.reconnect.None? || k.restart.None?)
  }

  predicate Exclusive(k: Controls) {
    AtMostOnePending(k) && (k.gate.Applying? && !k.gate.armed ==> NothingPending(k))
  }

  predicate Balanced(s: Reader, key: Key) {
    Tally(s.controls, key, Count(s.trace, key, Requested), Count(s.trace, key, Applied), Count(s.trace, key, Consumed))
  }

  ghost predicate Accounted(c: ReaderConfig, s: Reader, key: Key) {
    ControlsOk(c, s.controls) && Exclusive(s.controls) && Balanced(s, key)
  }

  lemma {:induction false} CountGrows(s: seq<EventBody>, t: seq<EventBody>, key: Key, x: ControlStep)
    requires |t| == |s| + 1 && t[..|s|] == s
    ensures Count(t, key, x) == Count(s, key, x) + if Marks(t[|s|], key, x) then 1 else 0
  {
  }

  lemma {:induction false} ExclusiveStep(c: ReaderConfig, s: Reader, op: Op)
    requires Exclusive(s.controls)
    ensures Exclusive(Step(c, s, op).controls)
  {
  }

  lemma {:induction false} BeginTally(c: ReaderConfig, s: Reader, action: Action, token: Token, key: Key)
    requires Accounted(c, s, key) && IsControlAction(key.action)
    ensures Balanced(BeginApply(c, s, action, token), key)
  {
    if MayApply(c, s.controls, action, token) {
      var t := BeginApply(c, s, action, token);
      assert t.trace[..|s.trace|] == s.trace;
      CountGrows(s.trace, t.trace, key, Requested);
      CountGrows(s.trace, t.trace, key, Applied);
      CountGrows(s.trace, t.trace, key, Consumed);
    }
  }

  /** Arming sets exactly the pending token of the control that holds the gate. */
  lemma {:induction false} ArmPending(c: ReaderConfig, k: Controls, key: Key)
    requires ControlsOk(c, k) && k.gate.Applying? && NothingPending(k) && IsControlAction(key.action)
    ensures Pending(Arm(k), key) <= Armed(Arm(k), key)
    ensures Arm(k).flight == k.flight && Holding(Arm(k), key) == Holding(k, key)
  {
  }

  lemma {:induction false} EffectTally(c: ReaderConfig, s: Reader, key: Key)
    requires Accounted(c, s, key) && IsControlAction(key.action)
    ensures Balanced(EffectApply(c, s), key)
  {
    if s.controls.gate.Applying? && !s.controls.gate.armed {
      var t := EffectApply(c, s);
      ArmPending(c, s.controls, key);
      if t.trace != s.trace {
        assert t.trace[..|s.trace|] == s.trace;
        CountGrows(s.trace, t.trace, key, Requested);
        CountGrows(s.trace, t.trace, key, Applied);
        CountGrows(s.trace, t.trace, key, Consumed);
      }
    }
  }

  lemma {:induction false} FinishTally(c: ReaderConfig, s: Reader, key: Key)
    requires Accounted(c, s, key) && IsControlAction(key.action)
    ensures Balanced(FinishApply(s), key)
  {
    if s.controls.gate.Applying? && s.controls.gate.armed {
      var t := FinishApply(s);
      assert t.trace[..|s.trace|] == s.trace;
      CountGrows(s.trace, t.trace, key, Requested);
      CountGrows(s.trace, t.trace, key, Applied);
      CountGrows(s.trace, t.trace, key, Consumed);
    }
  }

  lemma {:induction false} TakeFaultTally(c: ReaderConfig, k: Controls, scope: Scope, key: Key, r: nat, a: nat, x: nat)
    requires Tally(k, key, r, a, x) && IsControlAction(key.action) && ControlsOk(c, k)
    ensures Tally(TakeFault(k, scope), key, r, a, x)
  {
  }

  lemma {:induction false} TakeReadyTally(k: Controls, key: Key, r: nat, a: nat, x: nat)
    requires Tally(k, key, r, a, x) && IsControlAction(key.action)
    ensures Tally(TakeReady(k), key, r, a, x)
  {
  }

  lemma {:induction false} TakeStopTally(k: Controls, key: Key, r: nat, a: nat, x: nat)
    requires Tally(k, key, r, a, x) && IsControlAction(key.action)
    ensures Tally(TakeStop(k), key, r, a, x)
  {
  }

  /** The event of a flight marks the control whose token it carries. */
  lemma {:induction false} FlightMarks(c: ReaderConfig, s: Session, f: Flight, key: Key)
    requires FlightOk(c, f) && IsControlAction(key.action)
    ensures var b := FlightBody(c, s, f);
      && (Marks(b, key, Consumed) ==> f == FlightOf(key))
      && !Marks(b, key, Requested) && !Marks(b, key, Applied)
  {
  }

  lemma {:induction false} LandTally(c: ReaderConfig, s: Reader, f: Flight, key: Key)
    requires Accounted(c, s, key) && IsControlAction(key.action)
    ensures Balanced(Land(c, s, f), key)
  {
    if f in s.controls.flight {
      var t := Land(c, s, f);
      assert t.trace[..|s.trace|] == s.trace;
      FlightMarks(c, s.session, f, key);
      CountGrows(s.trace, t.trace, key, Requested);
      CountGrows(s.trace, t.trace, key, Applied);
      CountGrows(s.trace, t.trace, key, Consumed);
    }
  }

  predicate Unmarked(b: EventBody) { b.payload.action in {None, Some(Checkpoint)} }

  /** Every other step leaves the controls alone (or a restart drops them) and
      appends no control event. */
  lemma {:induction false} UncontrolledStep(c: ReaderConfig, s: Reader, op: Op)
    requires !IsControlOp(op)
    ensures var t := Step(c, s, op);
      && (t.controls == s.controls || t.controls == IDLE_CONTROLS)
      && (t.trace == s.trace || (|t.trace| == |s.trace| + 1 && t.trace[..|s.trace|] == s.trace && Unmarked(t.trace[|s.trace|])))
  {
  }

  lemma {:induction false} CountUnmarked(s: seq<EventBody>, t: seq<EventBody>, key: Key, x: ControlStep)
    requires t == s || (|t| == |s| + 1 && t[..|s|] == s && Unmarked(t[|s|]))
    requires IsControlAction(key.action)
    ensures Count(t, key, x) == Count(s, key, x)
  {
  }

  lemma {:induction false} DroppedTally(k: Controls, key: Key, r: nat, a: nat, x: nat)
    requires Tally(k, key, r, a, x) && IsControlAction(key.action)
    ensures Tally(IDLE_CONTROLS, key, r, a, x)
  {
  }

  lemma {:induction false} OtherTally(c: ReaderConfig, s: Reader, op: Op, key: Key)
    requires Balanced(s, key) && IsControlAction(key.action) && !IsControlOp(op)
    ensures Balanced(Step(c, s, op), key)
  {
    var t := Step(c, s, op);
    UncontrolledStep(c, s, op);
    CountUnmarked(s.trace, t.trace, key, Requested);
    CountUnmarked(s.trace, t.trace, key, Applied);
    CountUnmarked(s.trace, t.trace, key, Consumed);
    DroppedTally(s.controls, key, Count(s.trace, key, Requested), Count(s.trace, key, Applied), Count(s.trace, key, Consumed));
  }

  lemma {:induction false} StepBalanced(c: ReaderConfig, s: Reader, op: Op, key: Key)
    requires Accounted(c, s, key) && IsControlAction(key.action)
    ensures Balanced(Step(c, s, op), key)
  {
    var r, a, x := Count(s.trace, key, Requested), Count(s.trace, key, Applied), Count(s.trace, key, Consumed);
    match op
    case OBegin(action, token) => BeginTally(c, s, action, token, key);
    case OEffect => EffectTally(c, s, key);
    case OFinish => FinishTally(c, s, key);
    case OTakeFault(scope) => TakeFaultTally(c, s.controls, scope, key, r, a, x);
    case OTakeReady => TakeReadyTally(s.controls, key, r, a, x);
    case OTakeStop => TakeStopTally(s.controls, key, r, a, x);
    case OLand(f) => LandTally(c, s, f, key);
    case _ => OtherTally(c, s, op, key);
  }

  lemma {:induction false} StepAccounted(c: ReaderConfig, s: Reader, op: Op, key: Key)
    requires Accounted(c, s, key) && IsControlAction(key.action)
    ensures Accounted(c, Step(c, s, op), key)
  {
    ControlsStepOk(c, s, op);
    ExclusiveStep(c, s, op);
    StepBalanced(c, s, op, key);
  }

  /** Consumed <= applied <= requested for this control. */
  predicate Ordered(trace: seq<EventBody>, key: Key) {
    Count(trace, key, Consumed) <= Count(trace, key, Applied) <= Count(trace, key, Requested)
  }

  lemma {:induction false} StepExtends(c: ReaderConfig, s: Reader, op: Op)
    ensures var t := Step(c, s, op).trace;
      t == s.trace || (|t| == |s.trace| + 1 && t[..|s.trace|] == s.trace)
  {
    if IsControlOp(op) { ControlExtends(c, s, op); } else { UncontrolledStep(c, s, op); }
  }

  lemma {:induction false} ControlExtends(c: ReaderConfig, s: Reader, op: Op)
    requires IsControlOp(op)
    ensures var t := Step(c, s, op).trace;
      t == s.trace || (|t| == |s.trace| + 1 && t[..|s.trace|] == s.trace)
  {
  }

  lemma {:induction false} RunAccounted(c: ReaderConfig, boot: Guid, ops: seq<Op>, key: Key)
    requires IsControlAction(key.action)
    ensures Accounted(c, Reached(c, Reboot(c, [], boot), ops), key)
    decreases |ops|
  {
    var start := Reboot(c, [], boot);
    if ops == [] {
      assert start.trace[..0] == [];
    } else {
      RunAccounted(c, boot, ops[..|ops| - 1], key);
      StepAccounted(c, Reached(c, start, ops[..|ops| - 1]), ops[|ops| - 1], key);
    }
  }

  /** Over every run of a bridge, with any interleaving of its threads and any
      number of restarts, and on every prefix of its journal: no control is
      consumed more often than it was applied, nor applied more often than it
      was requested, each under its own request id and scope. */
  lemma {:induction false} EveryPrefixOrdered(c: ReaderConfig, boot: Guid, ops: seq<Op>, key: Key, n: nat)
    requires IsControlAction(key.action)
    requires n <= |Reached(c, Reboot(c, [], boot), ops).trace|
    ensures Ordered(Reached(c, Reboot(c, [], boot), ops).trace[..n], key)
    decreases |ops|
  {
    var start := Reboot(c, [], boot);
    var trace := Reached(c, start, ops).trace;
    RunAccounted(c, boot, ops, key);
    if n == |trace| {
      assert trace[..n] == trace;
    } else if ops == [] {
      assert trace[..n] == [];
    } else {
      var before := Reached(c, start, ops[..|ops| - 1]);
      StepExtends(c, before, ops[|ops| - 1]);
      assert trace[..n] == before.trace[..n];
      EveryPrefixOrdered(c, boot, ops[..|ops| - 1], key, n);
    }
  }

  /** At most one of fault, reconnect and restart is ever pending, and a fault
      leaves its slot only towards a read of its own scope. */
  lemma {:induction false} PendingIsExclusive(c: ReaderConfig, boot: Guid, ops: seq<Op>, op: Op)
    ensures var s := Reached(c, Reboot(c, [], boot), ops);
      && (s.controls.fault.Some? ==> s.controls.reconnect.None? && s.controls.restart.None?)
      && (s.controls.reconnect.Some? ==> s.controls.restart.None?)
      && (s.controls.fault.Some? && Step(c, s, op).controls.fault != s.controls.fault ==>
            op.OReboot? || op == OTakeFault(s.controls.fault.value.token.scope))
  {
    var s := Reached(c, Reboot(c, [], boot), ops);
    RunAccounted(c, boot, ops, Key(Reconnect, Token(1, 1, ScopeKey(BtcUsd, 240))));
    FaultLeaves(c, s, op);
  }

  lemma {:induction false} FaultLeaves(c: ReaderConfig, s: Reader, op: Op)
    requires Exclusive(s.controls)
    ensures s.controls.fault.Some? && Step(c, s, op).controls.fault != s.controls.fault ==>
            op.OReboot? || op == OTakeFault(s.controls.fault.value.token.scope)
  {
  }

  // ----- what a restart of the process forgets -----

  /** No token of this control is pending, held or in flight. */
  predicate Gone(k: Controls, key: Key) {
    && k.flight[FlightOf(key)] == 0 && Holding(k, key) == 0
    && (match key.action
        case Reconnect => k.reconnect != Some(key.token)
        case Restart => k.restart != Some(key.token)
        case _ => k.fault.Some? ==> FaultTaken(k.fault.value) != FlightOf(key))
  }

  lemma {:induction false} GoneTakes(c: ReaderConfig, k: Controls, scope: Scope, key: Key)
    requires IsControlAction(key.action) && ControlsOk(c, k) && Gone(k, key)
    ensures Gone(TakeFault(k, scope), key) && Gone(TakeReady(k), key) && Gone(TakeStop(k), key)
  {
  }

  lemma {:induction false} GoneArm(k: Controls, key: Key)
    requires IsControlAction(key.action) && k.gate.Applying? && ScenarioOf(k.gate.action) == Some(k.gate.scenario)
    requires Gone(k, key)
    ensures Gone(Arm(k), key)
  {
  }

  lemma {:induction false} GoneControls(c: ReaderConfig, s: Reader, op: Op, key: Key)
    requires IsControlAction(key.action) && ControlsOk(c, s.controls) && Gone(s.controls, key)
    requires IsControlOp(op) && op != OBegin(key.action, key.token)
    ensures Gone(Step(c, s, op).controls, key)
  {
    match op
    case OBegin(_, _) =>
    case OEffect => if s.controls.gate.Applying? { GoneArm(s.controls, key); }
    case OFinish =>
    case OTakeFault(scope) => GoneTakes(c, s.controls, scope, key);
    case OTakeReady => GoneTakes(c, s.controls, key.token.scope, key);
    case OTakeStop => GoneTakes(c, s.controls, key.token.scope, key);
    case OLand(_) =>
  }

  lemma {:induction false} GoneEvents(c: ReaderConfig, s: Reader, op: Op, key: Key)
    requires IsControlAction(key.action) && ControlsOk(c, s.controls) && Gone(s.controls, key)
    requires IsControlOp(op) && |Step(c, s, op).trace| == |s.trace| + 1
    ensures !Marks(Step(c, s, op).trace[|s.trace|], key, Consumed)
  {
    if op.OLand? && op.flight in s.controls.flight { FlightMarks(c, s.session, op.flight, key); }
  }

  lemma {:induction false} UnmarkedUnconsumed(b: EventBody, key: Key)
    requires IsControlAction(key.action) && Unmarked(b)
    ensures !Marks(b, key, Consumed)
  {
  }

  lemma {:induction false} GoneTrace(c: ReaderConfig, s: Reader, op: Op, key: Key)
    requires IsControlAction(key.action) && ControlsOk(c, s.controls) && Gone(s.controls, key)
    ensures var t := Step(c, s, op).trace;
      s.trace <= t && forall i | |s.trace| <= i < |t| :: !Marks(t[i], key, Consumed)
  {
    StepExtends(c, s, op);
    if Step(c, s, op).trace != s.trace {
      if IsControlOp(op) {
        GoneEvents(c, s, op, key);
      } else {
        UncontrolledStep(c, s, op);
        UnmarkedUnconsumed(Step(c, s, op).trace[|s.trace|], key);
      }
    }
  }

  lemma {:induction false} GoneStep(c: ReaderConfig, s: Reader, op: Op, key: Key)
    requires IsControlAction(key.action) && ControlsOk(c, s.controls) && Gone(s.controls, key)
    requires op != OBegin(key.action, key.token)
    ensures ControlsOk(c, Step(c, s, op).controls) && Gone(Step(c, s, op).controls, key)
  {
    ControlsStepOk(c, s, op);
    if IsControlOp(op) { GoneControls(c, s, op, key); } else { UncontrolledStep(c, s, op); }
  }

  lemma {:induction false} GoneRun(c: ReaderConfig, s: Reader, ops: seq<Op>, key: Key)
    requires IsControlAction(key.action) && ControlsOk(c, s.controls) && Gone(s.controls, key)
    requires OBegin(key.action, key.token) !in ops
    ensures var t := Reached(c, s, ops);
      && ControlsOk(c, t.controls) && Gone(t.controls, key) && s.trace <= t.trace
      && forall i | |s.trace| <= i < |t.trace| :: !Marks(t.trace[i], key, Consumed)
    decreases |ops|
  {
    if ops != [] {
      GoneRun(c, s, ops[..|ops| - 1], key);
      GoneTrace(c, Reached(c, s, ops[..|ops| - 1]), ops[|ops| - 1], key);
      GoneStep(c, Reached(c, s, ops[..|ops| - 1]), ops[|ops| - 1], key);
    }
  }

  /** A control that was not consumed before its process ended is never consumed
      afterwards, whatever threads of whatever later boots do, unless it is
      asked for again. */
  lemma {:induction false} NoneConsumedAfterReboot(
    c: ReaderConfig, trace: seq<EventBody>, boot: Guid, ops: seq<Op>, key: Key)
    requires IsControlAction(key.action) && OBegin(key.action, key.token) !in ops
    ensures var later := Reached(c, Reboot(c, trace, boot), ops).trace;
      trace <= later && forall i | |trace| <= i < |later| :: !Marks(later[i], key, Consumed)
  {
    GoneRun(c, Reboot(c, trace, boot), ops, key);
  }

  // ----- what the counts count -----

  /** An event with an action marks one control and no other, at its own step. */
  lemma {:induction false} MarksExactly(b: EventBody, action: Action, step: ControlStep, token: Token, key: Key, x: ControlStep)
    requires b.payload.action == Some(action) && b.payload.step == Some(step)
    requires b.campaign == Some(token.campaign) && b.request == Some(token.request) && b.scope == Some(token.scope)
    ensures Marks(b, key, x) <==> key == Key(action, token) && x == step
  {
  }

  /** The positions of the events that mark this step of this control. */
  function Marked(trace: seq<EventBody>, key: Key, x: ControlStep): set<nat> {
    set i: nat | i < |trace| && Marks(trace[i], key, x)
  }

  lemma {:induction false} MarkedGrows(trace: seq<EventBody>, b: EventBody, key: Key, x: ControlStep)
    ensures |Marked(trace + [b], key, x)| == |Marked(trace, key, x)| + if Marks(b, key, x) then 1 else 0
  {
    var all, n := trace + [b], |trace|;
    assert Marked(all, key, x) == Marked(trace, key, x) + if Marks(b, key, x) then {n} else {};
  }

  lemma {:induction false} CountIsCardinality(trace: seq<EventBody>, key: Key, x: ControlStep)
    ensures Count(trace, key, x) == |Marked(trace, key, x)|
    decreases |trace|
  {
    if trace != [] {
      var front, last := trace[..|trace| - 1], trace[|trace| - 1];
      CountIsCardinality(front, key, x);
      MarkedGrows(front, last, key, x);
      assert trace == front + [last];
    }
  }

  // ----- the life of an aborted session, and the end of the loop -----

  predicate EndsSession(op: Op) { op.OCleanUp? || op.OExit? || op.OReboot? }

  predicate ComesUp(b: EventBody) { b.eventType == SessionConnecting || b.eventType == SessionAuthenticated }

  lemma {:induction false} AbortedStep(c: ReaderConfig, s: Reader, op: Op)
    requires s.session.phase != Waiting && s.session.aborted && !s.session.warm && !EndsSession(op)
    ensures var t := Step(c, s, op);
      && t.session.phase != Waiting && t.session.aborted && !t.session.warm && s.trace <= t.trace
      && forall i | |s.trace| <= i < |t.trace| :: !ComesUp(t.trace[i])
  {
    StepExtends(c, s, op);
    if op.OLand? && op.flight in s.controls.flight {
      assert Step(c, s, op).trace[|s.trace|] == FlightBody(c, s.session, op.flight);
    }
  }

  /** Once a control aborted its session, nothing connects, authenticates or
      fills a cache until the session has been cleaned up, whatever the threads do. */
  lemma {:induction false} AbortedUntilEnd(c: ReaderConfig, s: Reader, ops: seq<Op>)
    requires s.session.phase != Waiting && s.session.aborted && !s.session.warm
    requires forall n | 0 <= n < |ops| :: !EndsSession(ops[n])
    ensures var t := Reached(c, s, ops);
      && t.session.phase != Waiting && t.session.aborted && !t.session.warm && s.trace <= t.trace
      && forall i | |s.trace| <= i < |t.trace| :: !ComesUp(t.trace[i])
    decreases |ops|
  {
    if ops != [] {
      AbortedUntilEnd(c, s, ops[..|ops| - 1]);
      AbortedStep(c, Reached(c, s, ops[..|ops| - 1]), ops[|ops| - 1]);
    }
  }

  predicate StopRecorded(s: Reader) {
    exists i | 0 <= i < |s.trace| :: s.trace[i].eventType == BridgeStopping && s.trace[i].boot == s.session.boot
  }

  ghost predicate StopOnItsWay(k: Controls) { exists f | f in k.flight :: f.StopTaken? }

  ghost predicate StopsFirst(s: Reader) {
    && (s.controls.stopping ==> StopRecorded(s) || StopOnItsWay(s.controls))
    && (s.session.exited ==> StopRecorded(s))
  }

  lemma {:induction false} RecordedStays(c: ReaderConfig, s: Reader, op: Op)
    requires !op.OReboot? && StopRecorded(s)
    ensures StopRecorded(Step(c, s, op))
  {
    StepExtends(c, s, op);
    BootStays(c, s, op);
    var i :| 0 <= i < |s.trace| && s.trace[i].eventType == BridgeStopping && s.trace[i].boot == s.session.boot;
    assert Step(c, s, op).trace[i] == s.trace[i];
  }

  lemma {:induction false} ControlBoot(c: ReaderConfig, s: Reader, op: Op)
    requires IsControlOp(op)
    ensures Step(c, s, op).session.boot == s.session.boot && Step(c, s, op).session.exited == s.session.exited
  {
  }

  lemma {:induction false} SessionBoot(c: ReaderConfig, s: Reader, op: Op)
    requires IsSessionOp(op)
    ensures Step(c, s, op).session.boot == s.session.boot
    ensures !op.OExit? ==> Step(c, s, op).session.exited == s.session.exited
  {
  }

  lemma {:induction false} BootStays(c: ReaderConfig, s: Reader, op: Op)
    requires !op.OReboot?
    ensures Step(c, s, op).session.boot == s.session.boot
    ensures !op.OExit? ==> Step(c, s, op).session.exited == s.session.exited
  {
    if IsControlOp(op) { ControlBoot(c, s, op); } else if IsSessionOp(op) { SessionBoot(c, s, op); }
  }

  lemma {:induction false} LandStops(c: ReaderConfig, s: Reader, f: Flight)
    requires StopsFirst(s) && f in s.controls.flight
    ensures StopsFirst(Land(c, s, f))
  {
    var t := Land(c, s, f);
    if StopRecorded(s) {
      RecordedStays(c, s, OLand(f));
    } else if f.StopTaken? {
      assert t.trace[|s.trace|].eventType == BridgeStopping && t.trace[|s.trace|].boot == t.session.boot;
    } else if s.controls.stopping {
      var g :| g in s.controls.flight && g.StopTaken?;
      assert g in t.controls.flight;
    }
  }

  /** Only taking or landing a flight moves the flights. */
  lemma {:induction false} FlightStays(c: ReaderConfig, s: Reader, op: Op)
    requires !op.OLand? && !op.OTakeStop? && !op.OReboot?
    ensures Step(c, s, op).controls.stopping == s.controls.stopping
    ensures s.controls.flight <= Step(c, s, op).controls.flight
  {
  }

  lemma {:induction false} StopsFirstStep(c: ReaderConfig, s: Reader, op: Op)
    requires StopsFirst(s)
    ensures StopsFirst(Step(c, s, op))
  {
    if op.OReboot? {
    } else if StopRecorded(s) {
      RecordedStays(c, s, op);
    } else if op.OLand? {
      if op.flight in s.controls.flight { LandStops(c, s, op.flight); }
    } else if op.OTakeStop? {
      if s.controls.gate == Free && !s.controls.stopping {
        assert StopTaken(s.controls.restart) in TakeStop(s.controls).flight;
      }
    } else {
      FlightStays(c, s, op);
      BootStays(c, s, op);
      if StopOnItsWay(s.controls) {
        var f :| f in s.controls.flight && f.StopTaken?;
        assert f in Step(c, s, op).controls.flight;
      }
    }
  }

  /** In every run, a loop that has ended belongs to a process whose stop stands
      in the journal. */
  lemma {:induction false} ExitAfterStop(c: ReaderConfig, boot: Guid, ops: seq<Op>)
    ensures var s := Reached(c, Reboot(c, [], boot), ops);
      s.session.exited ==>
        exists i | 0 <= i < |s.trace| :: s.trace[i].eventType == BridgeStopping && s.trace[i].boot == s.session.boot
    ensures StopsFirst(Reached(c, Reboot(c, [], boot), ops))
    decreases |ops|
  {
    if ops != [] {
      var front := ops[..|ops| - 1];
      ExitAfterStop(c, boot, front);
      StopsFirstStep(c, Reached(c, Reboot(c, [], boot), front), ops[|ops| - 1]);
    }
  }
}

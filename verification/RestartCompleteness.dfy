/**
 The restart scenario across boots: it is found exactly when the process stops
 in an orderly way and the boot that follows becomes ready.
 */
module RestartCompleteness {
  import opened Wrappers
  import opened EvidenceModel
  import opened BridgeReader
  import opened OfficialReader
  import opened AtomicHandlers
  import opened ScenarioFragment
  import opened ScenarioCompleteness

  /** A restart is applied, then the process stops in an orderly way. */
  function Stopped(c: ReaderConfig, s: Reader, token: Token, hs: seq<Handler>): Reader {
    Handle(c, After(c, Handle(c, s, HApply(Restart, token)), hs), HStop)
  }

  /** What its threads still do while it exits, and the next boot's start. */
  function Restarted(
    c: ReaderConfig, s: Reader, token: Token, hs: seq<Handler>, exiting: seq<Handler>, boot: Guid): Reader {
    Handle(c, After(c, Stopped(c, s, token, hs), exiting), HReboot(boot))
  }

  ghost predicate RestartRun(
    c: ReaderConfig, s: Reader, token: Token, hs: seq<Handler>, exiting: seq<Handler>, boot: Guid) {
    && Quiet(s) && MayApply(c, s.controls, Restart, token) && !s.controls.stopping
    && SparesAll(c, Handle(c, s, HApply(Restart, token)), hs)
    && NoReboot(exiting)
    && boot != EMPTY_GUID && boot != s.session.boot
  }

  lemma {:induction false} RestartPending(c: ReaderConfig, s: Reader, token: Token)
    requires Quiet(s) && MayApply(c, s.controls, Restart, token)
    ensures var a := Handle(c, s, HApply(Restart, token));
      && Quiet(a) && a.controls.fault.None? && a.controls.reconnect.None? && a.controls.restart == Some(token)
      && a.controls.stopping == s.controls.stopping && a.session == s.session && a.trace != []
  {
    AppliedTrace(c, s, Restart, token);
  }

  lemma {:induction false} StoppedTrace(c: ReaderConfig, s: Reader, token: Token, hs: seq<Handler>)
    requires Quiet(s) && MayApply(c, s.controls, Restart, token) && !s.controls.stopping
    requires SparesAll(c, Handle(c, s, HApply(Restart, token)), hs)
    ensures var a := Handle(c, s, HApply(Restart, token));
      var b, d := After(c, a, hs), Stopped(c, s, token, hs);
      && Quiet(d) && a.trace <= b.trace && d.trace == b.trace + [StopBody(c, b.session, Some(token))]
      && b.session.boot == s.session.boot && d.session.boot == s.session.boot
      && forall i | |a.trace| <= i < |b.trace| :: b.trace[i].eventType != BridgeStopping
  {
    var a := Handle(c, s, HApply(Restart, token));
    AppliedTrace(c, s, Restart, token);
    SparedRun(c, a, hs);
    StopSteps(c, After(c, a, hs));
  }

  /** The process exits and the next one starts on its journal. */
  lemma {:induction false} Rebooted(c: ReaderConfig, d: Reader, exiting: seq<Handler>, boot: Guid)
    requires Quiet(d) && NoReboot(exiting) && boot != EMPTY_GUID && boot != d.session.boot
    ensures var f := Handle(c, After(c, d, exiting), HReboot(boot));
      && Quiet(f) && f.session == Session(boot, 0, 0, Waiting, false, false, false, false, false)
      && d.trace <= f.trace && |d.trace| < |f.trace|
      && f.trace[|f.trace| - 1].eventType == BridgeStarted && f.trace[|f.trace| - 1].boot == boot
      && forall i | |d.trace| <= i < |f.trace| - 1 :: f.trace[i].eventType != BridgeStarted
  {
    BootRun(c, d, exiting);
    ReachedOne(c, After(c, d, exiting), OReboot(boot));
  }

  lemma {:induction false} RestartedTrace(
    c: ReaderConfig, s: Reader, token: Token, hs: seq<Handler>, exiting: seq<Handler>, boot: Guid)
    requires RestartRun(c, s, token, hs, exiting, boot)
    ensures var d, f := Stopped(c, s, token, hs), Restarted(c, s, token, hs, exiting, boot);
      && Quiet(f) && f.session == Session(boot, 0, 0, Waiting, false, false, false, false, false)
      && d.trace <= f.trace && |d.trace| < |f.trace|
      && f.trace[|f.trace| - 1].eventType == BridgeStarted && f.trace[|f.trace| - 1].boot == boot
      && forall i | |d.trace| <= i < |f.trace| - 1 :: f.trace[i].eventType != BridgeStarted
  {
    StoppedTrace(c, s, token, hs);
    Rebooted(c, Stopped(c, s, token, hs), exiting, boot);
  }

  lemma {:induction false} StopFound(
    run: ScenarioRun, events: seq<SignedEvent>, later: seq<EventBody>, k: nat, stopped: nat)
    requires Carries(events, later) && k < stopped < |events|
    requires LinkedTo(run, later[stopped]) && HasStep(later[stopped], BridgeStopping, Restart, Consumed)
    requires forall i | k < i < stopped :: later[i].eventType != BridgeStopping
    ensures First(events, k + 1, IsConsumption(run, BridgeStopping, Restart)) == Some(stopped)
  {
    var stops := IsConsumption(run, BridgeStopping, Restart);
    forall i | k + 1 <= i < stopped ensures !Holds(stops, events[i]) { assert events[i].claims.body == later[i]; }
    FirstAt(events, k + 1, stops, stopped);
  }

  lemma {:induction false} StartFound(
    events: seq<SignedEvent>, later: seq<EventBody>, stopped: nat, started: nat, oldBoot: Guid)
    requires Carries(events, later) && stopped < started < |events|
    requires later[started].eventType == BridgeStarted && later[started].boot != oldBoot
    requires forall i | stopped < i < started :: later[i].eventType != BridgeStarted
    ensures First(events, stopped + 1, StartsOtherBoot(oldBoot)) == Some(started)
  {
    var starts := StartsOtherBoot(oldBoot);
    forall i | stopped + 1 <= i < started ensures !Holds(starts, events[i]) { assert events[i].claims.body == later[i]; }
    FirstAt(events, stopped + 1, starts, started);
  }

  lemma {:induction false} RestartEndIs(run: ScenarioRun, events: seq<SignedEvent>, r: nat, k: nat)
    requires r < k < |events| && run.scenario == BridgeRestartScenario
    ensures ScenarioEnd(run, events, r, k) == RestartEnd(run, events, k)
  {
  }

  lemma {:induction false} StopIs(run: ScenarioRun, events: seq<SignedEvent>, k: nat, stopped: nat)
    requires k < stopped < |events|
    requires First(events, k + 1, IsConsumption(run, BridgeStopping, Restart)) == Some(stopped)
    ensures RestartEnd(run, events, k) == ReadyAfterStop(events, stopped)
  {
  }

  lemma {:induction false} StartIs(events: seq<SignedEvent>, stopped: nat, started: nat, oldBoot: Guid)
    requires stopped < started < |events| && events[stopped].claims.body.boot == oldBoot
    requires First(events, stopped + 1, StartsOtherBoot(oldBoot)) == Some(started)
    ensures ReadyAfterStop(events, stopped) == ReadyAfterStart(events, started)
  {
  }

  /** The stop and the start that the search picks. */
  ghost predicate Restarts(run: ScenarioRun, later: seq<EventBody>, k: nat, stopped: nat, started: nat) {
    && k < stopped < started < |later|
    && LinkedTo(run, later[stopped]) && HasStep(later[stopped], BridgeStopping, Restart, Consumed)
    && later[started].eventType == BridgeStarted && later[started].boot != later[stopped].boot
    && (forall i | k < i < stopped :: later[i].eventType != BridgeStopping)
    && (forall i | stopped < i < started :: later[i].eventType != BridgeStarted)
  }

  lemma {:induction false} RestartSearch(
    run: ScenarioRun, events: seq<SignedEvent>, later: seq<EventBody>, r: nat, k: nat, stopped: nat, started: nat)
    requires Carries(events, later) && Restarts(run, later, k, stopped, started)
    requires r < k && run.scenario == BridgeRestartScenario
    ensures ScenarioEnd(run, events, r, k) == ReadyAfterStart(events, started)
  {
    StopFound(run, events, later, k, stopped);
    StartFound(events, later, stopped, started, later[stopped].boot);
    StopIs(run, events, k, stopped);
    StartIs(events, stopped, started, later[stopped].boot);
    RestartEndIs(run, events, r, k);
  }

  lemma {:induction false} RestartMarks(token: Token, receipt: SignedEvent)
    ensures var run := RunOf(Restart, token, receipt);
      && run.scenario == BridgeRestartScenario
      && run.campaign == token.campaign && run.request == token.request && run.scope == token.scope
  {
  }

  lemma {:induction false} AppliedSearch(
    token: Token, run: ScenarioRun, receipt: SignedEvent, events: seq<SignedEvent>, later: seq<EventBody>,
    r: nat, k: nat, stopped: nat, started: nat)
    requires run == RunOf(Restart, token, receipt)
    requires Carries(events, later) && Restarts(run, later, k, stopped, started) && r < k
    ensures ScenarioEnd(run, events, r, k) == ReadyAfterStart(events, started)
  {
    RestartMarks(token, receipt);
    RestartSearch(run, events, later, r, k, stopped, started);
  }

  lemma {:induction false} StopMarks(c: ReaderConfig, t: Session, token: Token, receipt: SignedEvent)
    ensures var run, b := RunOf(Restart, token, receipt), StopBody(c, t, Some(token));
      && run.scenario == BridgeRestartScenario
      && LinkedTo(run, b) && HasStep(b, BridgeStopping, Restart, Consumed) && b.boot == t.boot
  {
  }

  lemma {:induction false} RestartsInTrace(
    c: ReaderConfig, s: Reader, token: Token, hs: seq<Handler>, exiting: seq<Handler>, boot: Guid,
    later: seq<EventBody>, receipt: SignedEvent)
    requires RestartRun(c, s, token, hs, exiting, boot)
    requires Restarted(c, s, token, hs, exiting, boot).trace <= later
    ensures var a := Handle(c, s, HApply(Restart, token));
      var f := Restarted(c, s, token, hs, exiting, boot);
      && 0 < |a.trace| && a.trace <= later
      && Restarts(RunOf(Restart, token, receipt), later, |a.trace| - 1, |After(c, a, hs).trace|, |f.trace| - 1)
  {
    var a := Handle(c, s, HApply(Restart, token));
    var b := After(c, a, hs);
    var d, f := Stopped(c, s, token, hs), Restarted(c, s, token, hs, exiting, boot);
    RestartPending(c, s, token);
    StoppedTrace(c, s, token, hs);
    RestartedTrace(c, s, token, hs, exiting, boot);
    PlaceStop(c, RunOf(Restart, token, receipt), token, a.trace, b.trace, d.trace, f.trace, later, b.session, boot, receipt);
  }

  lemma {:induction false} PlaceStop(
    c: ReaderConfig, run: ScenarioRun, token: Token, a: seq<EventBody>, b: seq<EventBody>, d: seq<EventBody>,
    f: seq<EventBody>, later: seq<EventBody>, t: Session, boot: Guid, receipt: SignedEvent)
    requires run == RunOf(Restart, token, receipt)
    requires 0 < |a| && a <= b && d == b + [StopBody(c, t, Some(token))] && d <= f <= later && |d| < |f|
    requires t.boot != boot && f[|f| - 1].eventType == BridgeStarted && f[|f| - 1].boot == boot
    requires forall i | |a| <= i < |b| :: b[i].eventType != BridgeStopping
    requires forall i | |d| <= i < |f| - 1 :: f[i].eventType != BridgeStarted
    ensures a <= later && Restarts(run, later, |a| - 1, |b|, |f| - 1)
  {
    StopMarks(c, t, token, receipt);
    assert later[|b|] == f[|b|] == d[|b|] && later[|f| - 1] == f[|f| - 1];
    forall i | |a| - 1 < i < |b| ensures later[i].eventType != BridgeStopping { assert later[i] == f[i] == d[i] == b[i]; }
    forall i | |b| < i < |f| - 1 ensures later[i].eventType != BridgeStarted { assert later[i] == f[i]; }
  }

  lemma {:induction false} RestartPrefix(
    c: ReaderConfig, s: Reader, token: Token, hs: seq<Handler>, exiting: seq<Handler>, boot: Guid)
    requires RestartRun(c, s, token, hs, exiting, boot)
    ensures Handle(c, s, HApply(Restart, token)).trace <= Restarted(c, s, token, hs, exiting, boot).trace
  {
    StoppedTrace(c, s, token, hs);
    RestartedTrace(c, s, token, hs, exiting, boot);
  }

  /** Everything hangs on the first readiness of the boot that follows. */
  lemma {:induction false} RestartReduces(
    c: ReaderConfig, s: Reader, token: Token, hs: seq<Handler>, exiting: seq<Handler>, boot: Guid,
    later: seq<EventBody>, events: seq<SignedEvent>)
    requires RestartRun(c, s, token, hs, exiting, boot)
    requires Restarted(c, s, token, hs, exiting, boot).trace <= later && Carries(events, later)
    ensures var started := |Restarted(c, s, token, hs, exiting, boot).trace| - 1;
      0 <= started < |events| && Proves(c, s, Restart, token, events) == ReadyAfterStart(events, started).Some?
  {
    var a := Handle(c, s, HApply(Restart, token));
    var started := |Restarted(c, s, token, hs, exiting, boot).trace| - 1;
    RestartPrefix(c, s, token, hs, exiting, boot);
    assert a.trace <= later;
    var r, k := ControlFound(c, s, Restart, token, later, events);
    RestartsInTrace(c, s, token, hs, exiting, boot, later, events[k]);
    AppliedSearch(
      token, RunOf(Restart, token, events[k]), events[k], events, later, r, k, |After(c, a, hs).trace|, started);
  }

  lemma {:induction false} BootTypeFound(
    events: seq<SignedEvent>, later: seq<EventBody>, lo: nat, hi: nat, t: EventType, boot: Guid)
    requires Carries(events, later) && lo <= hi <= |events| && TypeIn(later[..hi], lo, t)
    requires forall i | lo <= i < hi :: later[i].boot == boot
    ensures HasTypeInBoot(events, lo, hi, t, boot)
  {
    var i :| lo <= i < hi && later[..hi][i].eventType == t;
    assert events[i].claims.body.eventType == t && events[i].claims.body.boot == boot;
  }

  // ----- the next boot -----

  /** Every ready event since `base` follows a session that connected and
      authenticated there. */
  predicate ReadyTold(trace: seq<EventBody>, base: nat) {
    forall j | base <= j < |trace| && trace[j].eventType == SessionReady ::
      TypeIn(trace[..j], base, SessionConnecting) && TypeIn(trace[..j], base, SessionAuthenticated)
  }

  lemma {:induction false} ReadyToldGrows(xs: seq<EventBody>, ys: seq<EventBody>, base: nat)
    requires xs <= ys && ReadyTold(xs, base)
    requires (exists j | |xs| <= j < |ys| :: ys[j].eventType == SessionReady) ==>
      TypeIn(xs, base, SessionConnecting) && TypeIn(xs, base, SessionAuthenticated)
    ensures ReadyTold(ys, base)
  {
    forall j | base <= j < |ys| && ys[j].eventType == SessionReady
      ensures TypeIn(ys[..j], base, SessionConnecting) && TypeIn(ys[..j], base, SessionAuthenticated)
    {
      if j < |xs| {
        assert ys[..j] == xs[..j] && xs[j] == ys[j];
      } else {
        TypeInGrows(xs, ys[..j], base, SessionConnecting);
        TypeInGrows(xs, ys[..j], base, SessionAuthenticated);
      }
    }
  }

  lemma {:induction false} ReadyToldStep(c: ReaderConfig, s: Reader, h: Handler, base: nat)
    requires Quiet(s) && !h.HReboot? && SessionTold(s.session, s.trace, base) && ReadyTold(s.trace, base)
    ensures ReadyTold(Handle(c, s, h).trace, base)
  {
    HandleEmits(c, s, h);
    ReadyToldGrows(s.trace, Handle(c, s, h).trace, base);
  }

  lemma {:induction false} ReadyToldRun(c: ReaderConfig, s: Reader, hs: seq<Handler>, base: nat)
    requires Quiet(s) && NoReboot(hs) && base <= |s.trace|
    requires SessionTold(s.session, s.trace, base) && ReadyTold(s.trace, base)
    ensures ReadyTold(After(c, s, hs).trace, base)
    decreases |hs|
  {
    if hs != [] {
      var front := hs[..|hs| - 1];
      ReadyToldRun(c, s, front, base);
      ToldRun(c, s, front, base);
      ReadyToldStep(c, After(c, s, front), hs[|hs| - 1], base);
    }
  }

  predicate BecameReady(later: seq<EventBody>, from: nat, boot: Guid) {
    exists i | from <= i < |later| :: later[i].eventType == SessionReady && later[i].boot == boot
  }

  /** A boot that started at `started` and wrote `g`, and nothing later. */
  ghost predicate BootPart(g: seq<EventBody>, later: seq<EventBody>, started: nat, boot: Guid) {
    && started < |g| && g <= later && g[started].eventType == BridgeStarted
    && (forall i | started <= i < |g| :: g[i].boot == boot)
    && (forall i | |g| <= i < |later| :: later[i].boot != boot)
  }

  /** What is told about a ready event stands in the signed journal. */
  lemma {:induction false} ToldInEvents(
    events: seq<SignedEvent>, later: seq<EventBody>, g: seq<EventBody>, started: nat, boot: Guid, m: nat)
    requires Carries(events, later) && BootPart(g, later, started, boot)
    requires started < m < |g| && g[m].eventType == SessionReady
    requires TypeIn(g[..m], started, SessionConnecting) && TypeIn(g[..m], started, SessionAuthenticated)
    ensures RestartTypes(events, started, m + 1, boot)
  {
    assert later[..m + 1] == g[..m + 1] && later[started] == g[started];
    forall i | started <= i < m + 1 ensures later[i].boot == boot { assert later[i] == g[i]; }
    TypeInGrows(g[..m], g[..m + 1], started, SessionConnecting);
    TypeInGrows(g[..m], g[..m + 1], started, SessionAuthenticated);
    assert g[..m + 1][started] == g[started] && g[..m + 1][m] == g[m];
    BootTypeFound(events, later, started, m + 1, BridgeStarted, boot);
    BootTypeFound(events, later, started, m + 1, SessionConnecting, boot);
    BootTypeFound(events, later, started, m + 1, SessionAuthenticated, boot);
    BootTypeFound(events, later, started, m + 1, SessionReady, boot);
  }

  lemma {:induction false} FirstReadyExact(events: seq<SignedEvent>, later: seq<EventBody>, from: nat, boot: Guid)
    requires Carries(events, later)
    ensures First(events, from, ReadyIn(boot)).Some? <==> BecameReady(later, from, boot)
    ensures var r := First(events, from, ReadyIn(boot));
      r.Some? ==> later[r.value].eventType == SessionReady && later[r.value].boot == boot
  {
    FirstMeans(events, from, ReadyIn(boot));
    forall i | 0 <= i < |events|
      ensures Holds(ReadyIn(boot), events[i]) <==> later[i].eventType == SessionReady && later[i].boot == boot
    {
    }
  }

  lemma {:induction false} ReadyAfterStartIs(events: seq<SignedEvent>, started: nat, boot: Guid)
    requires started < |events| && events[started].claims.body.boot == boot
    ensures ReadyAfterStart(events, started).Some? <==>
      var r := First(events, started + 1, ReadyIn(boot));
      r.Some? && RestartTypes(events, started, r.value + 1, boot)
  {
  }

  lemma {:induction false} ReadyAfterStartExact(
    events: seq<SignedEvent>, later: seq<EventBody>, g: seq<EventBody>, started: nat, boot: Guid)
    requires Carries(events, later) && BootPart(g, later, started, boot) && ReadyTold(g, started)
    ensures ReadyAfterStart(events, started).Some? <==> BecameReady(later, started + 1, boot)
  {
    assert events[started].claims.body == later[started] == g[started];
    ReadyAfterStartIs(events, started, boot);
    FirstReadyExact(events, later, started + 1, boot);
    var r := First(events, started + 1, ReadyIn(boot));
    if r.Some? {
      assert r.value < |g| && later[r.value] == g[r.value];
      ToldInEvents(events, later, g, started, boot, r.value);
    }
  }

  /** The next boot's part of the journal, whatever runs in it. */
  lemma {:induction false} NextBootPart(
    c: ReaderConfig, f: Reader, boot: Guid, starting: seq<Handler>, later: seq<EventBody>)
    requires Quiet(f) && f.session == Session(boot, 0, 0, Waiting, false, false, false, false, false) && NoReboot(starting)
    requires f.trace != [] && f.trace[|f.trace| - 1].boot == boot && f.trace[|f.trace| - 1].eventType == BridgeStarted
    requires var g := After(c, f, starting);
      g.trace <= later && forall i | |g.trace| <= i < |later| :: later[i].boot != boot
    ensures var g := After(c, f, starting).trace;
      f.trace <= g && BootPart(g, later, |f.trace| - 1, boot) && ReadyTold(g, |f.trace| - 1)
  {
    var g := After(c, f, starting).trace;
    BootRun(c, f, starting);
    ReadyToldRun(c, f, starting, |f.trace| - 1);
    forall i | |f.trace| - 1 <= i < |g| ensures g[i].boot == boot {
      if i < |f.trace| { assert g[i] == f.trace[i]; }
    }
  }

  // ----- the whole life of the stopped boot -----

  /** The restart is applied, the process lives on for a while, and another
      boot starts on its journal. */
  function NextBoot(c: ReaderConfig, s: Reader, token: Token, life: seq<Handler>, boot: Guid): Reader {
    Handle(c, After(c, Handle(c, s, HApply(Restart, token)), life), HReboot(boot))
  }

  /** The process announces its end after the control, not killed before and
      not already stopping. */
  predicate StopsOrderly(s: Reader, life: seq<Handler>) { !s.controls.stopping && HStop in life }

  predicate IsStopOf(token: Token, b: EventBody) {
    && b.eventType == BridgeStopping && b.payload.step == Some(Consumed)
    && b.campaign == Some(token.campaign) && b.request == Some(token.request) && b.scope == Some(token.scope)
  }

  lemma {:induction false} AfterBoth(c: ReaderConfig, s: Reader, xs: seq<Handler>, ys: seq<Handler>)
    ensures After(c, s, xs + ys) == After(c, After(c, s, xs), ys)
    decreases |ys|
  {
    if ys == [] {
      assert xs + ys == xs;
    } else {
      var front := ys[..|ys| - 1];
      assert (xs + ys)[..|xs + ys| - 1] == xs + front;
      AfterBoth(c, s, xs, front);
    }
  }

  lemma {:induction false} FirstStop(life: seq<Handler>) returns (n: nat)
    requires HStop in life
    ensures n < |life| && life[n] == HStop && HStop !in life[..n]
  {
    if life[0] == HStop {
      n := 0;
    } else {
      n := FirstStop(life[1..]);
      assert life[..n + 1] == [life[0]] + life[1..][..n];
      n := n + 1;
    }
  }

  lemma {:induction false} SparesAppend(c: ReaderConfig, s: Reader, hs: seq<Handler>)
    requires hs != [] && SparesAll(c, s, hs[..|hs| - 1])
    requires Spares(After(c, s, hs[..|hs| - 1]), hs[|hs| - 1])
    ensures SparesAll(c, s, hs)
  {
    var front := hs[..|hs| - 1];
    forall i | 0 <= i < |hs| ensures Spares(After(c, s, hs[..i]), hs[i]) {
      if i < |front| { assert front[..i] == hs[..i]; }
    }
  }

  /** Until it stops nothing consumes the pending restart. */
  lemma {:induction false} SparesBeforeStop(c: ReaderConfig, a: Reader, hs: seq<Handler>)
    requires Quiet(a) && a.controls.fault.None? && a.controls.reconnect.None? && a.controls.restart.Some?
    requires NoReboot(hs) && (HStop in hs ==> a.controls.stopping)
    ensures SparesAll(c, a, hs)
    decreases |hs|
  {
    if hs != [] {
      var front, h := hs[..|hs| - 1], hs[|hs| - 1];
      SparesBeforeStop(c, a, front);
      SparedRun(c, a, front);
      SparesAppend(c, a, hs);
    }
  }

  lemma {:induction false} SplitAtStop(c: ReaderConfig, a: Reader, life: seq<Handler>, n: nat)
    requires n < |life| && life[n] == HStop
    ensures After(c, a, life) == After(c, Handle(c, After(c, a, life[..n]), HStop), life[n + 1..])
  {
    assert life == (life[..n] + [HStop]) + life[n + 1..];
    AfterPush(c, a, life[..n], HStop);
    AfterBoth(c, a, life[..n] + [HStop], life[n + 1..]);
  }

  /** An orderly stop splits the life of the process. */
  lemma {:induction false} OrderlyRun(
    c: ReaderConfig, s: Reader, token: Token, life: seq<Handler>, boot: Guid)
    returns (hs: seq<Handler>, exiting: seq<Handler>)
    requires Quiet(s) && MayApply(c, s.controls, Restart, token) && StopsOrderly(s, life)
    requires NoReboot(life) && boot != EMPTY_GUID && boot != s.session.boot
    ensures RestartRun(c, s, token, hs, exiting, boot)
    ensures NextBoot(c, s, token, life, boot) == Restarted(c, s, token, hs, exiting, boot)
  {
    var a := Handle(c, s, HApply(Restart, token));
    var n := FirstStop(life);
    hs, exiting := life[..n], life[n + 1..];
    RestartPending(c, s, token);
    SparesBeforeStop(c, a, hs);
    SplitAtStop(c, a, life, n);
  }

  lemma {:induction false} NoStopFound(
    token: Token, run: ScenarioRun, events: seq<SignedEvent>, later: seq<EventBody>, k: nat)
    requires Carries(events, later) && k < |events| && RestartEnd(run, events, k).Some?
    requires run.campaign == token.campaign && run.request == token.request && run.scope == token.scope
    ensures StopsLater(token, later, k + 1)
  {
    var i := StopPlaced(run, events, k);
    StopHolds(token, run, events[i]);
    assert events[i].claims.body == later[i];
  }

  lemma {:induction false} StopPlaced(run: ScenarioRun, events: seq<SignedEvent>, k: nat) returns (i: nat)
    requires k < |events| && RestartEnd(run, events, k).Some?
    ensures k < i < |events| && Holds(IsConsumption(run, BridgeStopping, Restart), events[i])
  {
    FirstMeans(events, k + 1, IsConsumption(run, BridgeStopping, Restart));
    i := First(events, k + 1, IsConsumption(run, BridgeStopping, Restart)).value;
  }

  lemma {:induction false} StopHolds(token: Token, run: ScenarioRun, e: SignedEvent)
    requires run.campaign == token.campaign && run.request == token.request && run.scope == token.scope
    requires Holds(IsConsumption(run, BridgeStopping, Restart), e)
    ensures IsStopOf(token, e.claims.body)
  {
  }

  lemma {:induction false} AppliedNeedsStop(
    token: Token, run: ScenarioRun, receipt: SignedEvent, events: seq<SignedEvent>, later: seq<EventBody>,
    r: nat, k: nat, a: seq<EventBody>, f: seq<EventBody>)
    requires run == RunOf(Restart, token, receipt)
    requires Carries(events, later) && r < k < |events| && k + 1 == |a| && ScenarioEnd(run, events, r, k).Some?
    requires a <= f <= later && forall i | |a| <= i < |f| :: f[i].eventType != BridgeStopping
    ensures StopsLater(token, later, |f|)
  {
    RestartMarks(token, receipt);
    RestartEndIs(run, events, r, k);
    NoStopFound(token, run, events, later, k);
    StopIsLater(token, a, f, later);
  }

  lemma {:induction false} RebootedFacts(c: ReaderConfig, b: Reader, boot: Guid)
    requires boot != EMPTY_GUID
    ensures var f := Handle(c, b, HReboot(boot));
      && Quiet(f) && f.session == Session(boot, 0, 0, Waiting, false, false, false, false, false)
      && |f.trace| == |b.trace| + 1 && b.trace <= f.trace && f.trace[|b.trace|].boot == boot
      && f.trace[|b.trace|].eventType == BridgeStarted
  {
    ReachedOne(c, b, OReboot(boot));
  }

  lemma {:induction false} NoStopSince(a: seq<EventBody>, b: seq<EventBody>, f: seq<EventBody>)
    requires a <= b <= f && |f| == |b| + 1 && f[|b|].eventType == BridgeStarted
    requires forall i | |a| <= i < |b| :: b[i].eventType != BridgeStopping
    ensures a <= f && forall i | |a| <= i < |f| :: f[i].eventType != BridgeStopping
  {
    forall i | |a| <= i < |f| ensures f[i].eventType != BridgeStopping {
      if i < |b| { assert f[i] == b[i]; }
    }
  }

  /** The life of a process that did not stop in an orderly way holds no stop
      event. */
  lemma {:induction false} NoStopInLife(c: ReaderConfig, a: Reader, life: seq<Handler>)
    requires Quiet(a) && a.controls.fault.None? && a.controls.reconnect.None? && a.controls.restart.Some?
    requires NoReboot(life) && (HStop in life ==> a.controls.stopping)
    ensures var b := After(c, a, life).trace;
      a.trace <= b && forall i | |a.trace| <= i < |b| :: b[i].eventType != BridgeStopping
  {
    SparesBeforeStop(c, a, life);
    SparedRun(c, a, life);
  }

  lemma {:induction false} NoStopWritten(c: ReaderConfig, s: Reader, token: Token, life: seq<Handler>, boot: Guid)
    requires Quiet(s) && MayApply(c, s.controls, Restart, token) && !StopsOrderly(s, life)
    requires NoReboot(life) && boot != EMPTY_GUID
    ensures var a, f := Handle(c, s, HApply(Restart, token)).trace, NextBoot(c, s, token, life, boot).trace;
      && a != [] && a <= f
      && forall i | |a| <= i < |f| :: f[i].eventType != BridgeStopping
  {
    var a := Handle(c, s, HApply(Restart, token));
    var b := After(c, a, life);
    RestartPending(c, s, token);
    NoStopInLife(c, a, life);
    RebootedFacts(c, b, boot);
    NoStopSince(a.trace, b.trace, Handle(c, b, HReboot(boot)).trace);
  }

  /** Without an orderly stop only a stop of a later control under the same
      request can make the search succeed. */
  lemma {:induction false} RestartWithoutStop(
    c: ReaderConfig, s: Reader, token: Token, life: seq<Handler>, boot: Guid,
    later: seq<EventBody>, events: seq<SignedEvent>)
    requires Quiet(s) && MayApply(c, s.controls, Restart, token) && !StopsOrderly(s, life)
    requires NoReboot(life) && boot != EMPTY_GUID
    requires NextBoot(c, s, token, life, boot).trace <= later && Carries(events, later)
    requires Proves(c, s, Restart, token, events)
    ensures StopsLater(token, later, |NextBoot(c, s, token, life, boot).trace|)
  {
    var a, f := Handle(c, s, HApply(Restart, token)).trace, NextBoot(c, s, token, life, boot).trace;
    NoStopWritten(c, s, token, life, boot);
    var r, k := ControlFound(c, s, Restart, token, later, events);
    AppliedNeedsStop(token, RunOf(Restart, token, events[k]), events[k], events, later, r, k, a, f);
  }

  predicate StopsLater(token: Token, later: seq<EventBody>, from: nat) {
    exists i | from <= i < |later| :: IsStopOf(token, later[i])
  }

  lemma {:induction false} StopIsLater(token: Token, a: seq<EventBody>, f: seq<EventBody>, later: seq<EventBody>)
    requires a <= f <= later && forall i | |a| <= i < |f| :: f[i].eventType != BridgeStopping
    requires StopsLater(token, later, |a|)
    ensures StopsLater(token, later, |f|)
  {
    forall i | |a| <= i < |f| ensures !IsStopOf(token, later[i]) { assert later[i] == f[i]; }
  }

  lemma {:induction false} OrderlyEvidence(
    c: ReaderConfig, s: Reader, token: Token, life: seq<Handler>, boot: Guid, starting: seq<Handler>,
    later: seq<EventBody>, events: seq<SignedEvent>)
    requires Quiet(s) && MayApply(c, s.controls, Restart, token) && StopsOrderly(s, life)
    requires NoReboot(life) && NoReboot(starting) && boot != EMPTY_GUID && boot != s.session.boot
    requires var g := After(c, NextBoot(c, s, token, life, boot), starting).trace;
      g <= later && Carries(events, later) && forall i | |g| <= i < |later| :: later[i].boot != boot
    ensures Proves(c, s, Restart, token, events) <==>
            BecameReady(later, |NextBoot(c, s, token, life, boot).trace|, boot)
  {
    var f := NextBoot(c, s, token, life, boot);
    var hs, exiting := OrderlyRun(c, s, token, life, boot);
    RestartedTrace(c, s, token, hs, exiting, boot);
    NextBootPart(c, f, boot, starting, later);
    RestartReduces(c, s, token, hs, exiting, boot, later, events);
    ReadyAfterStartExact(events, later, After(c, f, starting).trace, |f.trace| - 1, boot);
  }

  lemma {:induction false} NextBootTrace(
    c: ReaderConfig, s: Reader, token: Token, life: seq<Handler>, boot: Guid, starting: seq<Handler>)
    requires Quiet(s) && MayApply(c, s.controls, Restart, token)
    requires NoReboot(life) && NoReboot(starting) && boot != EMPTY_GUID
    ensures var f := NextBoot(c, s, token, life, boot); f.trace <= After(c, f, starting).trace
  {
    var a := Handle(c, s, HApply(Restart, token));
    RestartPending(c, s, token);
    BootRun(c, a, life);
    RebootedFacts(c, After(c, a, life), boot);
    BootRun(c, NextBoot(c, s, token, life, boot), starting);
  }

  /** An applied restart is found, in this and every longer journal, exactly
      when the process stopped in an orderly way and the boot after it became
      ready; without an orderly stop only the stop of a later control under the
      same request could prove it.  `starting` is all that the next boot does;
      what follows carries other boot ids. */
  lemma {:induction false} RestartEvidenceExact(
    c: ReaderConfig, s: Reader, token: Token, life: seq<Handler>, boot: Guid, starting: seq<Handler>,
    later: seq<EventBody>, events: seq<SignedEvent>)
    requires Quiet(s) && MayApply(c, s.controls, Restart, token)
    requires NoReboot(life) && NoReboot(starting) && boot != EMPTY_GUID && boot != s.session.boot
    requires var g := After(c, NextBoot(c, s, token, life, boot), starting).trace;
      g <= later && Carries(events, later) && forall i | |g| <= i < |later| :: later[i].boot != boot
    ensures var n := |NextBoot(c, s, token, life, boot).trace|;
      && (StopsOrderly(s, life) ==> (Proves(c, s, Restart, token, events) <==> BecameReady(later, n, boot)))
      && (!StopsOrderly(s, life) && Proves(c, s, Restart, token, events) ==> StopsLater(token, later, n))
  {
    if StopsOrderly(s, life) {
      OrderlyEvidence(c, s, token, life, boot, starting, later, events);
    } else if Proves(c, s, Restart, token, events) {
      NextBootTrace(c, s, token, life, boot, starting);
      RestartWithoutStop(c, s, token, life, boot, later, events);
    }
  }

  // ----- the ordinary restart, and a lost one -----

  lemma {:induction false} CancelSteps(c: ReaderConfig, d: Reader)
    requires Quiet(d) && d.controls.stopping && d.session.phase != Waiting && !d.session.exited
    ensures Handle(c, d, HExit).trace == d.trace + [Plain(c, d.session, CacheCleared, RCacheCleared, None)]
  {
    ReachedOne(c, d, OExit);
  }

  lemma {:induction false} StopThenExit(c: ReaderConfig, a: Reader)
    requires Quiet(a) && !a.controls.stopping && a.session.phase != Waiting && !a.session.exited
    ensures After(c, a, [HStop, HExit]).trace ==
      a.trace + [StopBody(c, a.session, a.controls.restart)] + [Plain(c, a.session, CacheCleared, RCacheCleared, None)]
  {
    AfterPush(c, a, [], HStop);
    AfterPush(c, a, [HStop], HExit);
    assert [] + [HStop] == [HStop] && [HStop] + [HExit] == [HStop, HExit];
    StopSteps(c, a);
    CancelSteps(c, Handle(c, a, HStop));
  }

  /** A live session is stopped and cancelled: the journal gains the stop, one
      cleared cache and the next start. */
  lemma {:induction false} OrdinaryStop(c: ReaderConfig, s: Reader, token: Token, boot: Guid)
    requires Quiet(s) && MayApply(c, s.controls, Restart, token) && !s.controls.stopping
    requires s.session.phase != Waiting && !s.session.exited && boot != EMPTY_GUID
    ensures var a, f := Handle(c, s, HApply(Restart, token)).trace, NextBoot(c, s, token, [HStop, HExit], boot).trace;
      && |f| == |a| + 3 && a <= f && f[|a|] == StopBody(c, s.session, Some(token))
      && f[|a| + 1].eventType == CacheCleared && f[|a| + 2].eventType == BridgeStarted
    ensures var f := NextBoot(c, s, token, [HStop, HExit], boot);
      Quiet(f) && f.session == Session(boot, 0, 0, Waiting, false, false, false, false, false)
  {
    var a := Handle(c, s, HApply(Restart, token));
    RestartPending(c, s, token);
    StopThenExit(c, a);
    RebootedFacts(c, After(c, a, [HStop, HExit]), boot);
  }

  /** A boot that starts and connects announces its readiness last. */
  lemma {:induction false} StartupAnnounces(c: ReaderConfig, f: Reader, later: seq<EventBody>)
    requires Quiet(f) && f.session.phase == Waiting && !f.session.exited
    requires After(c, f, STARTUP + [HReady]).trace <= later
    ensures BecameReady(later, |f.trace|, f.session.boot)
  {
    AfterPush(c, f, STARTUP, HReady);
    StartupBecomesReady(c, f);
    BootRun(c, f, STARTUP);
    ReadySteps(c, After(c, f, STARTUP));
    ReadyAtLast(f.trace, After(c, f, STARTUP + [HReady]).trace, later, f.session.boot);
  }

  lemma {:induction false} ReadyAtLast(f: seq<EventBody>, g: seq<EventBody>, later: seq<EventBody>, boot: Guid)
    requires |f| < |g| && g <= later && g[|g| - 1].eventType == SessionReady && g[|g| - 1].boot == boot
    ensures BecameReady(later, |f|, boot)
  {
    assert later[|g| - 1] == g[|g| - 1];
  }

  /** The ordinary controlled restart of a live session, whose stop is recorded
      and whose session is then cancelled: once the next process has come up the
      restart is found. */
  lemma {:induction false} OrdinaryRestartFound(
    c: ReaderConfig, s: Reader, token: Token, boot: Guid, later: seq<EventBody>, events: seq<SignedEvent>)
    requires Quiet(s) && MayApply(c, s.controls, Restart, token) && !s.controls.stopping
    requires s.session.phase != Waiting && !s.session.exited && boot != EMPTY_GUID && boot != s.session.boot
    requires var g := After(c, NextBoot(c, s, token, [HStop, HExit], boot), STARTUP + [HReady]).trace;
      g <= later && Carries(events, later) && forall i | |g| <= i < |later| :: later[i].boot != boot
    ensures Proves(c, s, Restart, token, events)
  {
    OrdinaryStop(c, s, token, boot);
    StartupAnnounces(c, NextBoot(c, s, token, [HStop, HExit], boot), later);
    OrderlyEvidence(c, s, token, [HStop, HExit], boot, STARTUP + [HReady], later, events);
  }

  lemma {:induction false} StopAtOnce(c: ReaderConfig, s: Reader, token: Token, boot: Guid)
    requires Quiet(s) && MayApply(c, s.controls, Restart, token) && boot != EMPTY_GUID
    ensures var f := NextBoot(c, s, token, [HStop], boot);
      Quiet(f) && f.session == Session(boot, 0, 0, Waiting, false, false, false, false, false)
  {
    RestartPending(c, s, token);
    RebootedFacts(c, After(c, Handle(c, s, HApply(Restart, token)), [HStop]), boot);
  }

  lemma {:induction false} BootsFrom(f: seq<EventBody>, t: seq<EventBody>, x: seq<EventBody>, boot: Guid)
    requires f <= t <= x && |t| == |f| + 1 && t[|f|].boot == boot
    requires forall i | |t| <= i < |x| :: x[i].boot == boot
    ensures f <= x && forall i | |f| <= i < |x| :: x[i].boot == boot
  {
    assert x[|f|] == t[|f|];
  }

  /** A boot that follows `f` and becomes ready writes only under its own id. */
  lemma {:induction false} ThirdBoot(c: ReaderConfig, f: Reader, boot: Guid)
    requires Quiet(f) && boot != EMPTY_GUID
    ensures var x := After(c, Handle(c, f, HReboot(boot)), STARTUP + [HReady]);
      && x.session.ready && f.trace <= x.trace
      && forall i | |f.trace| <= i < |x.trace| :: x.trace[i].boot == boot
  {
    var t := Handle(c, f, HReboot(boot));
    RebootedFacts(c, f, boot);
    BootRun(c, t, STARTUP + [HReady]);
    StartupBecomesReady(c, t);
    AfterPush(c, t, STARTUP, HReady);
    BootsFrom(f.trace, t.trace, After(c, t, STARTUP + [HReady]).trace, boot);
  }

  /** The lost restart: the process stops in an orderly way, the next one dies
      before it is ready, the one after that comes up, and the search finds
      nothing in this and every longer journal. */
  lemma {:induction false} RestartLostExample(
    c: ReaderConfig, first: Guid, second: Guid, third: Guid, token: Token,
    later: seq<EventBody>, events: seq<SignedEvent>)
    requires MayApply(c, IDLE_CONTROLS, Restart, token)
    requires second != EMPTY_GUID && second != first && third != EMPTY_GUID && third != second
    requires var f := NextBoot(c, Reboot(c, [], first), token, [HStop], second);
      var x := After(c, Handle(c, f, HReboot(third)), STARTUP + [HReady]);
      x.trace <= later && Carries(events, later) && forall i | |x.trace| <= i < |later| :: later[i].boot != second
    ensures var s := Reboot(c, [], first);
      var f := NextBoot(c, s, token, [HStop], second);
      && After(c, Handle(c, f, HReboot(third)), STARTUP + [HReady]).session.ready
      && !Proves(c, s, Restart, token, events)
  {
    var s := Reboot(c, [], first);
    var f := NextBoot(c, s, token, [HStop], second);
    var x := After(c, Handle(c, f, HReboot(third)), STARTUP + [HReady]);
    StopAtOnce(c, s, token, second);
    ThirdBoot(c, f, third);
    LaterBoots(f.trace, x.trace, later, second, third);
    RestartEvidenceExact(c, s, token, [HStop], second, [], later, events);
  }

  lemma {:induction false} LaterBoots(
    f: seq<EventBody>, x: seq<EventBody>, later: seq<EventBody>, second: Guid, third: Guid)
    requires f <= x <= later && third != second
    requires forall i | |f| <= i < |x| :: x[i].boot == third
    requires forall i | |x| <= i < |later| :: later[i].boot != second
    ensures f <= later && forall i | |f| <= i < |later| :: later[i].boot != second
  {
    forall i | |f| <= i < |later| ensures later[i].boot != second {
      if i < |x| { assert later[i] == x[i]; }
    }
  }
}
